/**
 * The ledger of optional emails: any number of workers reserve, reclaim and mark one stored send by
 * compare-and-set, with whatever clocks they have. Leases fence off workers that were overtaken.
 */
module SendLedger {
  import opened Prelude

  type Lease = nat
  type Instant = int

  const LEASE_MS: int := 5 * 60 * 1000
  const SAFETY_WINDOW_MS: int := 23 * 60 * 60 * 1000

  datatype Identity = Identity(userId: nat, campaignId: string, reminderKind: nat)

  datatype Status = Reserved | InFlight | Accepted | Failed | Blocked | DeferredDailyLimit

  datatype BlockReason =
    | SendingDisabled | RecipientBasisUnapproved | RecipientSafetyUnverified | MissingUser | MissingRecipient
    | AmbiguousRecipient | MilestoneCompleted | PrerequisiteIncomplete | Unsubscribed | Suppressed
    | TestSendingDisabled | TestRecipientNotAllowed | RetryWindowExpired

  datatype Send = Send(
    identity: Identity,
    status: Status,
    activeLease: Option<Lease>,
    attemptCount: nat,
    updatedAt: Instant,
    firstProviderAttemptAt: Option<Instant>,
    lastProviderAttemptAt: Option<Instant>,
    providerEmailId: Option<string>,
    acceptedAt: Option<Instant>,
    lastFailureCode: Option<string>,
    lastBlockReason: Option<BlockReason>,
    deferredForDailyLimit: bool)

  // ----- the atomic operations on one stored send -----

  function NewSend(identity: Identity, lease: Lease, at: Instant): Send {
    Send(identity, Reserved, Some(lease), 0, at, None, None, None, None, None, None, false)
  }

  predicate ProviderRetryExpired(send: Send, at: Instant) {
    && send.firstProviderAttemptAt.Some?
    && var retryAge := at - send.firstProviderAttemptAt.value;
       retryAge < 0 || retryAge > SAFETY_WINDOW_MS
  }

  predicate LeaseFresh(send: Send, at: Instant) {
    var age := at - send.updatedAt;
    age < 0 || age <= LEASE_MS
  }

  datatype Verdict = KeepDuplicate | KeepExpired | Reclaim

  /** What a reservation that collided with `existing` may do. */
  function Judge(existing: Send, at: Instant): Verdict {
    match existing.status
    case Reserved =>
      if LeaseFresh(existing, at) then KeepDuplicate
      else if ProviderRetryExpired(existing, at) then KeepExpired
      else Reclaim
    case InFlight =>
      if LeaseFresh(existing, at) then KeepDuplicate
      else if existing.firstProviderAttemptAt.None? || ProviderRetryExpired(existing, at) then KeepExpired
      else Reclaim
    case Failed =>
      if existing.firstProviderAttemptAt.None? || ProviderRetryExpired(existing, at) then KeepExpired else Reclaim
    case DeferredDailyLimit =>
      if ProviderRetryExpired(existing, at) then KeepExpired else Reclaim
    case Accepted => KeepDuplicate
    case Blocked => KeepDuplicate
  }

  /** The filter of the reclaiming update, built from the snapshot `existing`. */
  predicate StillAs(stored: Send, existing: Send) {
    && stored.status == existing.status
    && (existing.status == Reserved || existing.status == InFlight ==> stored.updatedAt == existing.updatedAt)
  }

  function Reclaimed(stored: Send, lease: Lease, at: Instant): Send {
    stored.(status := Reserved, activeLease := Some(lease), updatedAt := at)
  }

  predicate Owns(stored: Send, status: Status, lease: Lease) {
    stored.status == status && stored.activeLease == Some(lease)
  }

  predicate MayAttempt(stored: Send, lease: Lease, at: Instant) {
    && Owns(stored, Reserved, lease)
    && at - LEASE_MS <= stored.updatedAt <= at
    && (stored.firstProviderAttemptAt.None?
        || at - SAFETY_WINDOW_MS <= stored.firstProviderAttemptAt.value <= at)
  }

  function Attempted(stored: Send, at: Instant): Send {
    stored.(
      status := InFlight,
      firstProviderAttemptAt := Some(stored.firstProviderAttemptAt.GetOr(at)),
      lastProviderAttemptAt := Some(at),
      updatedAt := at,
      attemptCount := stored.attemptCount + 1)
  }

  /** The four marks that end a lease. */
  datatype Ending =
    | AcceptedAs(providerEmailId: string)
    | FailedWith(code: string)
    | BlockedFor(reason: BlockReason)
    | DeferredForDay

  /** Acceptance and failure end an attempt in flight; blocking and deferral end a reservation before any attempt. */
  function From(ending: Ending): Status {
    if ending.AcceptedAs? || ending.FailedWith? then InFlight else Reserved
  }

  function Ended(stored: Send, ending: Ending, at: Instant): Send {
    var given := stored.(activeLease := None, updatedAt := at);
    match ending
    case AcceptedAs(emailId) => given.(status := Accepted, providerEmailId := Some(emailId), acceptedAt := Some(at))
    case FailedWith(code) => given.(status := Failed, lastFailureCode := Some(code))
    case BlockedFor(reason) => given.(status := Blocked, lastBlockReason := Some(reason))
    case DeferredForDay => given.(status := DeferredDailyLimit, deferredForDailyLimit := true)
  }

  // ----- every interleaving of any number of workers -----

  /** A provider attempt that was authorised, and whether the send failed or was deferred since the one before. */
  datatype Attempt = Attempt(lease: Lease, at: Instant, afterFailure: bool, afterDeferral: bool)

  /** `snapshots` are all the versions any worker may still be holding. */
  datatype World = World(
    stored: Option<Send>,
    issued: set<Lease>,
    snapshots: set<Send>,
    attempts: seq<Attempt>,
    acceptances: nat,
    failedSince: bool,
    deferredSince: bool)

  const EMPTY := World(None, {}, {}, [], 0, false, false)

  datatype Step =
    | Insert(identity: Identity, lease: Lease, at: Instant)
    | Observe
    | TryReclaim(existing: Send, lease: Lease, at: Instant)
    | MarkInFlight(lease: Lease, at: Instant)
    | MarkEnded(lease: Lease, ending: Ending, at: Instant)

  /** The filter each step runs against the stored send. */
  predicate Applies(w: World, step: Step) {
    match step
    case Insert(_, lease, _) => w.stored.None? && lease !in w.issued
    case Observe => w.stored.Some?
    case TryReclaim(existing, lease, at) =>
      && w.stored.Some? && lease !in w.issued && existing in w.snapshots
      && Judge(existing, at) == Reclaim && StillAs(w.stored.value, existing)
    case MarkInFlight(lease, at) => w.stored.Some? && MayAttempt(w.stored.value, lease, at)
    case MarkEnded(lease, ending, _) => w.stored.Some? && Owns(w.stored.value, From(ending), lease)
  }

  function Next(w: World, step: Step): World {
    if !Applies(w, step) then w
    else
      match step
      case Insert(identity, lease, at) =>
        w.(stored := Some(NewSend(identity, lease, at)), issued := w.issued + {lease})
      case Observe => w.(snapshots := w.snapshots + {w.stored.value})
      case TryReclaim(_, lease, at) =>
        w.(stored := Some(Reclaimed(w.stored.value, lease, at)), issued := w.issued + {lease})
      case MarkInFlight(lease, at) =>
        w.(stored := Some(Attempted(w.stored.value, at)),
           attempts := w.attempts + [Attempt(lease, at, w.failedSince, w.deferredSince)],
           failedSince := false, deferredSince := false)
      case MarkEnded(_, ending, at) =>
        w.(stored := Some(Ended(w.stored.value, ending, at)),
           acceptances := w.acceptances + if ending.AcceptedAs? then 1 else 0,
           failedSince := w.failedSince || ending.FailedWith?,
           deferredSince := w.deferredSince || ending.DeferredForDay?)
  }

  function Run(w: World, steps: seq<Step>): World {
    if steps == [] then w else Next(Run(w, steps[..|steps| - 1]), steps[|steps| - 1])
  }

  // ----- what every interleaving keeps -----

  ghost predicate LeaseStored(d: Send) {
    d.activeLease.Some? <==> d.status == Reserved || d.status == InFlight
  }

  function Last(attempts: seq<Attempt>): Attempt
    requires attempts != []
  {
    attempts[|attempts| - 1]
  }

  /** The stored fields are exactly the record of the authorised attempts. */
  ghost predicate Recorded(d: Send, attempts: seq<Attempt>) {
    && d.attemptCount == |attempts|
    && d.firstProviderAttemptAt == (if attempts == [] then None else Some(attempts[0].at))
    && d.lastProviderAttemptAt == (if attempts == [] then None else Some(Last(attempts).at))
    && (forall a <- attempts :: attempts[0].at <= a.at <= attempts[0].at + SAFETY_WINDOW_MS)
  }

  /** No lease is used for two attempts, and the lease of a reservation has not been used yet. */
  ghost predicate LeasesOnce(d: Send, issued: set<Lease>, attempts: seq<Attempt>) {
    && (forall i, j :: 0 <= i < j < |attempts| ==> attempts[i].lease != attempts[j].lease)
    && (forall a <- attempts :: a.lease in issued)
    && (d.activeLease.Some? ==> d.activeLease.value in issued)
    && (d.status == Reserved ==> forall a <- attempts :: Some(a.lease) != d.activeLease)
    && (d.status == InFlight ==> attempts != [] && d.activeLease == Some(Last(attempts).lease))
  }

  /** Why a send ended is stored with it; an acceptance and a block reason stand exactly while their status does. */
  ghost predicate Explained(d: Send) {
    && (d.status == Accepted <==> d.providerEmailId.Some?)
    && (d.status == Accepted <==> d.acceptedAt.Some?)
    && (d.status == Accepted ==> d.acceptedAt == Some(d.updatedAt))
    && (d.status == Blocked <==> d.lastBlockReason.Some?)
    && (d.status == Failed ==> d.lastFailureCode.Some?)
    && (d.status == DeferredDailyLimit ==> d.deferredForDailyLimit)
  }

  /** How far the row has moved on since the last attempt, unless it failed or was deferred meanwhile. */
  ghost predicate Spaced(w: World, d: Send) {
    && (d.status == InFlight ==> w.attempts != [] && d.updatedAt == Last(w.attempts).at && !w.failedSince && !w.deferredSince)
    && (d.status == Failed ==> w.failedSince)
    && (d.status == DeferredDailyLimit ==> w.deferredSince)
    && (d.status == Reserved && w.attempts != [] && !w.failedSince && !w.deferredSince ==>
          d.updatedAt > Last(w.attempts).at + LEASE_MS)
    && (forall i :: 1 <= i < |w.attempts| && !w.attempts[i].afterFailure && !w.attempts[i].afterDeferral ==>
          w.attempts[i].at > w.attempts[i - 1].at + LEASE_MS)
  }

  ghost predicate Valid(w: World) {
    match w.stored
    case None => w.issued == {} && w.attempts == [] && w.acceptances == 0 && !w.failedSince && !w.deferredSince
    case Some(d) =>
      && LeaseStored(d)
      && Explained(d)
      && Recorded(d, w.attempts)
      && LeasesOnce(d, w.issued, w.attempts)
      && Spaced(w, d)
      && w.acceptances == if d.status == Accepted then 1 else 0
  }

  lemma StepIsValid(w: World, step: Step)
    requires Valid(w)
    ensures Valid(Next(w, step))
  {
    if Applies(w, step) {
      match step
      case MarkInFlight(lease, at) => AttemptIsValid(w, lease, at);
      case _ =>
    }
  }

  lemma AttemptIsRecorded(w: World, lease: Lease, at: Instant)
    requires Valid(w) && Applies(w, MarkInFlight(lease, at))
    ensures var t := Next(w, MarkInFlight(lease, at));
            Recorded(t.stored.value, t.attempts) && LeaseStored(t.stored.value) && Explained(t.stored.value)
  {}

  lemma AttemptUsesItsLease(w: World, lease: Lease, at: Instant)
    requires Valid(w) && Applies(w, MarkInFlight(lease, at))
    ensures var t := Next(w, MarkInFlight(lease, at));
            LeasesOnce(t.stored.value, t.issued, t.attempts)
  {
    hide Recorded, Spaced;
    var d := w.stored.value;
    var attempts := w.attempts + [Attempt(lease, at, w.failedSince, w.deferredSince)];
    assert forall i :: 0 <= i < |w.attempts| ==> w.attempts[i] in w.attempts && w.attempts[i].lease != lease;
  }

  lemma AttemptIsValid(w: World, lease: Lease, at: Instant)
    requires Valid(w) && Applies(w, MarkInFlight(lease, at))
    ensures Valid(Next(w, MarkInFlight(lease, at)))
  {
    hide LeasesOnce, Recorded;
    AttemptIsRecorded(w, lease, at);
    AttemptUsesItsLease(w, lease, at);
    assert Spaced(w, w.stored.value);
  }

  lemma {:induction false} RunIsValid(w: World, steps: seq<Step>)
    requires Valid(w)
    ensures Valid(Run(w, steps))
  {
    if steps != [] {
      RunIsValid(w, steps[..|steps| - 1]);
      StepIsValid(Run(w, steps[..|steps| - 1]), steps[|steps| - 1]);
    }
  }

  // ----- what each operation decides and does -----

  const FIVE_MINUTES := 300_000
  const TWENTY_THREE_HOURS := 82_800_000

  /** The provider would still collapse a repetition of the first attempt. */
  predicate Repeatable(first: Option<Instant>, at: Instant) {
    first.Some? && 0 <= at - first.value <= TWENTY_THREE_HOURS
  }

  /** A send that another reservation may take over: its lease is stale or given up, and it may still be sent. */
  predicate Retriable(d: Send, at: Instant) {
    match d.status
    case Failed => Repeatable(d.firstProviderAttemptAt, at)
    case DeferredDailyLimit => d.firstProviderAttemptAt.None? || Repeatable(d.firstProviderAttemptAt, at)
    case Reserved =>
      at - d.updatedAt > FIVE_MINUTES && (d.firstProviderAttemptAt.None? || Repeatable(d.firstProviderAttemptAt, at))
    case InFlight => at - d.updatedAt > FIVE_MINUTES && Repeatable(d.firstProviderAttemptAt, at)
    case Accepted => false
    case Blocked => false
  }

  /** A send that somebody else holds, or that is over. */
  predicate Taken(d: Send, at: Instant) {
    d.status == Accepted || d.status == Blocked
    || ((d.status == Reserved || d.status == InFlight) && at - d.updatedAt <= FIVE_MINUTES)
  }

  /** A reservation is refused as a duplicate of a taken send and, when it cannot be retried any more, as expired. */
  lemma VerdictIsExact(d: Send, at: Instant)
    ensures Judge(d, at) == if Taken(d, at) then KeepDuplicate else if Retriable(d, at) then Reclaim else KeepExpired
  {}

  /** On the send as it is stored, a worker with a new lease takes it over exactly when it may be retried. */
  lemma ReservingTakesOver(w: World, lease: Lease, at: Instant)
    requires w.stored.Some? && w.stored.value in w.snapshots && lease !in w.issued
    ensures var d, t := w.stored.value, Next(w, TryReclaim(w.stored.value, lease, at));
            && (Retriable(d, at) ==>
                  && t.stored == Some(d.(status := Reserved, activeLease := Some(lease), updatedAt := at))
                  && lease in t.issued)
            && (!Retriable(d, at) ==> t == w)
  {}

  /** A snapshot that the stored send has left behind takes nothing over. */
  lemma StaleSnapshotsTakeNothing(w: World, existing: Send, lease: Lease, at: Instant)
    requires w.stored.Some?
    requires existing.status != w.stored.value.status
             || ((existing.status == Reserved || existing.status == InFlight) && existing.updatedAt != w.stored.value.updatedAt)
    ensures Next(w, TryReclaim(existing, lease, at)) == w
  {}

  /** The first reservation of a key succeeds, with a fresh lease and nothing attempted. */
  lemma FirstReservation(identity: Identity, lease: Lease, at: Instant)
    ensures var t := Next(EMPTY, Insert(identity, lease, at));
            && t.stored.Some? && t.issued == {lease}
            && var d := t.stored.value;
               && d.identity == identity && d.status == Reserved && d.activeLease == Some(lease) && d.updatedAt == at
               && d.attemptCount == 0 && d.firstProviderAttemptAt.None? && d.lastProviderAttemptAt.None?
               && d.providerEmailId.None? && d.acceptedAt.None? && d.lastFailureCode.None? && d.lastBlockReason.None?
               && !d.deferredForDailyLimit
  {}

  /** An attempt is authorised exactly for the stored lease of a reservation at most five minutes old whose send may still go out. */
  lemma AttemptIsAuthorised(w: World, lease: Lease, at: Instant)
    requires w.stored.Some?
    ensures var d, t := w.stored.value, Next(w, MarkInFlight(lease, at));
            if d.status == Reserved && d.activeLease == Some(lease) && 0 <= at - d.updatedAt <= FIVE_MINUTES
               && (d.firstProviderAttemptAt.None? || Repeatable(d.firstProviderAttemptAt, at))
            then
              && t.stored.Some? && t.stored.value.status == InFlight && t.stored.value.activeLease == Some(lease)
              && t.stored.value.attemptCount == d.attemptCount + 1
              && t.stored.value.lastProviderAttemptAt == Some(at) && t.stored.value.updatedAt == at
              && t.stored.value.firstProviderAttemptAt == (if d.firstProviderAttemptAt.Some? then d.firstProviderAttemptAt else Some(at))
              && t.stored.value.identity == d.identity
            else t == w
  {}

  /** Acceptance and failure end an attempt in flight, blocking and deferral a reservation; each only for its own lease. */
  lemma EndingsLand(w: World, lease: Lease, ending: Ending, at: Instant)
    requires w.stored.Some?
    ensures var d, t := w.stored.value, Next(w, MarkEnded(lease, ending, at));
            if d.activeLease == Some(lease) && d.status == (match ending
                                                            case AcceptedAs(_) => InFlight
                                                            case FailedWith(_) => InFlight
                                                            case BlockedFor(_) => Reserved
                                                            case DeferredForDay => Reserved)
            then
              && t.stored.Some? && t.stored.value.activeLease.None? && t.stored.value.updatedAt == at
              && t.stored.value.identity == d.identity && t.stored.value.attemptCount == d.attemptCount
              && t.stored.value.firstProviderAttemptAt == d.firstProviderAttemptAt
              && t.stored.value.lastProviderAttemptAt == d.lastProviderAttemptAt
              && match ending
                 case AcceptedAs(emailId) =>
                   t.stored.value.status == Accepted && t.stored.value.providerEmailId == Some(emailId) && t.stored.value.acceptedAt == Some(at)
                 case FailedWith(code) => t.stored.value.status == Failed && t.stored.value.lastFailureCode == Some(code)
                 case BlockedFor(reason) => t.stored.value.status == Blocked && t.stored.value.lastBlockReason == Some(reason)
                 case DeferredForDay => t.stored.value.status == DeferredDailyLimit && t.stored.value.deferredForDailyLimit
            else t == w
  {}

  /** A send that failed within the window is retried: reserved again, attempted again, and possibly accepted after all. */
  lemma FailedSendIsRetried(w: World, lease: Lease, emailId: string, at: Instant)
    requires w.stored.Some? && w.stored.value.status == Failed && w.stored.value in w.snapshots && lease !in w.issued
    requires Repeatable(w.stored.value.firstProviderAttemptAt, at)
    ensures var reserved := Next(w, TryReclaim(w.stored.value, lease, at));
            var attempted := Next(reserved, MarkInFlight(lease, at));
            var ended := Next(attempted, MarkEnded(lease, AcceptedAs(emailId), at));
            && |attempted.attempts| == |w.attempts| + 1
            && ended.stored.Some? && ended.stored.value.status == Accepted && ended.acceptances == w.acceptances + 1
  {
    ReservingTakesOver(w, lease, at);
  }

  // ----- fencing -----

  ghost predicate Superseded(w: World, lease: Lease) {
    lease in w.issued && (w.stored.None? || w.stored.value.activeLease != Some(lease))
  }

  function LeaseOf(step: Step): Option<Lease> {
    match step
    case MarkInFlight(lease, _) => Some(lease)
    case MarkEnded(lease, _, _) => Some(lease)
    case _ => None
  }

  /**
   * Once a lease is superseded, no continuation by any workers makes it current again, so every later
   * mark that carries it is refused.
   */
  lemma {:induction false} SupersededForever(w: World, steps: seq<Step>, lease: Lease)
    requires Superseded(w, lease)
    ensures Superseded(Run(w, steps), lease)
    ensures forall mark :: LeaseOf(mark) == Some(lease) ==> !Applies(Run(w, steps), mark)
  {
    if steps != [] {
      SupersededForever(w, steps[..|steps| - 1], lease);
    }
  }

  /** Every reclaim supersedes the lease it takes over, and every final mark gives its lease up. */
  lemma TakingOverSupersedes(w: World, step: Step, lease: Lease)
    requires Valid(w) && w.stored.Some? && w.stored.value.activeLease == Some(lease) && Applies(w, step)
    ensures Superseded(Next(w, step), lease) <==> !step.Observe? && !step.MarkInFlight?
  {}

  /** Accepted and blocked sends never change again, so at most one acceptance ever succeeds. */
  lemma {:induction false} FinalSendsStay(w: World, steps: seq<Step>)
    requires Valid(w) && w.stored.Some? && (w.stored.value.status == Accepted || w.stored.value.status == Blocked)
    ensures var t := Run(w, steps);
            t.stored == w.stored && t.attempts == w.attempts && t.acceptances == w.acceptances <= 1
  {
    if steps != [] {
      FinalSendsStay(w, steps[..|steps| - 1]);
    }
  }

  /**
   * For any clocks and any interleaving: every attempt falls within the safety window that starts at the
   * first, each used its own lease, they are counted, and two in a row are more than a lease apart
   * unless the send was marked failed or deferred between them.
   */
  lemma ProviderAttempts(steps: seq<Step>)
    ensures var w := Run(EMPTY, steps);
            var attempts := w.attempts;
            && (forall i :: 0 <= i < |attempts| ==> attempts[0].at <= attempts[i].at <= attempts[0].at + SAFETY_WINDOW_MS)
            && (forall i, j :: 0 <= i < j < |attempts| ==> attempts[i].lease != attempts[j].lease)
            && (forall i :: 1 <= i < |attempts| && !attempts[i].afterFailure && !attempts[i].afterDeferral ==>
                  attempts[i].at > attempts[i - 1].at + LEASE_MS)
            && (w.stored.Some? ==>
                  && LeaseStored(w.stored.value)
                  && Explained(w.stored.value)
                  && w.stored.value.attemptCount == |attempts|
                  && (attempts != [] ==> w.stored.value.firstProviderAttemptAt == Some(attempts[0].at)))
            && w.acceptances <= 1
  {
    RunIsValid(EMPTY, steps);
  }

  /** The first attempt time is written once. */
  lemma FirstAttemptIsWrittenOnce(w: World, step: Step)
    requires Valid(w) && w.stored.Some? && w.stored.value.firstProviderAttemptAt.Some?
    ensures Next(w, step).stored.Some?
    ensures Next(w, step).stored.value.firstProviderAttemptAt == w.stored.value.firstProviderAttemptAt
  {}

  // ----- clocks that never run backwards -----

  function TimeOf(step: Step): Option<Instant> {
    match step
    case Observe => None
    case Insert(_, _, at) => Some(at)
    case TryReclaim(_, _, at) => Some(at)
    case MarkInFlight(_, at) => Some(at)
    case MarkEnded(_, _, at) => Some(at)
  }

  /** The timestamps of the steps never decrease. */
  ghost predicate Forward(steps: seq<Step>) {
    forall i, j :: 0 <= i < j < |steps| && TimeOf(steps[i]).Some? && TimeOf(steps[j]).Some? ==>
      TimeOf(steps[i]).value <= TimeOf(steps[j]).value
  }

  ghost predicate SpacedForward(w: World, now: Instant) {
    && (w.stored.Some? ==> w.stored.value.updatedAt <= now)
    && (w.stored.Some? && w.attempts != [] && !w.failedSince
        && (w.stored.value.status == Reserved || w.stored.value.status == DeferredDailyLimit) ==>
          w.stored.value.updatedAt > Last(w.attempts).at + LEASE_MS)
    && (forall i :: 1 <= i < |w.attempts| && !w.attempts[i].afterFailure ==>
          w.attempts[i].at > w.attempts[i - 1].at + LEASE_MS)
  }

  lemma StepStaysSpaced(w: World, step: Step, now: Instant, later: Instant)
    requires Valid(w) && SpacedForward(w, now) && now <= later && TimeOf(step) in {None, Some(later)}
    ensures SpacedForward(Next(w, step), later)
  {}

  /** With clocks that never run backwards, deferral gives no shortcut: only a failure can bring two attempts close. */
  lemma {:induction false} AttemptsSpacedForward(steps: seq<Step>, now: Instant)
    requires Forward(steps)
    requires forall step <- steps :: TimeOf(step).Some? ==> TimeOf(step).value <= now
    ensures var attempts := Run(EMPTY, steps).attempts;
            forall i :: 1 <= i < |attempts| && !attempts[i].afterFailure ==> attempts[i].at > attempts[i - 1].at + LEASE_MS
    ensures SpacedForward(Run(EMPTY, steps), now)
  {
    if steps != [] {
      var n := |steps| - 1;
      var at := TimeOf(steps[n]).GetOr(now);
      assert forall step <- steps[..n] :: TimeOf(step).Some? ==> TimeOf(step).value <= at;
      AttemptsSpacedForward(steps[..n], at);
      RunIsValid(EMPTY, steps[..n]);
      StepStaysSpaced(Run(EMPTY, steps[..n]), steps[n], at, at);
      assert SpacedForward(Run(EMPTY, steps), at);
    }
  }

  lemma Extend(steps: seq<Step>, w: World, step: Step) returns (longer: seq<Step>)
    requires Run(EMPTY, steps) == w
    ensures Run(EMPTY, longer) == Next(w, step)
  {
    longer := steps + [step];
    assert longer[..|steps|] == steps;
  }

  const WHO := Identity(1, "c", 0)
  const FIRST := Attempted(NewSend(WHO, 1, 0), 0)
  const DEFERRED := Ended(Reclaimed(FIRST, 2, LEASE_MS + 1), DeferredForDay, 0)

  lemma DeferredBehindItsAttempt() returns (steps: seq<Step>)
    ensures Run(EMPTY, steps) == World(Some(DEFERRED), {1, 2}, {FIRST}, [Attempt(1, 0, false, false)], 0, false, true)
  {
    var late := LEASE_MS + 1;
    assert Run(EMPTY, []) == EMPTY;
    hide Run;
    steps := Extend([], EMPTY, Insert(WHO, 1, 0));
    var w := World(Some(NewSend(WHO, 1, 0)), {1}, {}, [], 0, false, false);
    steps := Extend(steps, w, MarkInFlight(1, 0));
    w := World(Some(FIRST), {1}, {}, [Attempt(1, 0, false, false)], 0, false, false);
    steps := Extend(steps, w, Observe);
    w := w.(snapshots := {FIRST});
    steps := Extend(steps, w, TryReclaim(FIRST, 2, late));
    w := w.(stored := Some(Reclaimed(FIRST, 2, late)), issued := {1, 2});
    steps := Extend(steps, w, MarkEnded(2, DeferredForDay, 0));
  }

  /** A deferral stamped by a clock that runs behind lets a second attempt follow at the same instant as the first. */
  lemma BackwardClockDeferralBringsAttemptsTogether() returns (steps: seq<Step>)
    ensures var attempts := Run(EMPTY, steps).attempts;
            |attempts| == 2 && attempts[1].at == attempts[0].at && !attempts[1].afterFailure
  {
    steps := DeferredBehindItsAttempt();
    hide Run;
    var w := World(Some(DEFERRED), {1, 2}, {FIRST}, [Attempt(1, 0, false, false)], 0, false, true);
    steps := Extend(steps, w, Observe);
    w := w.(snapshots := {FIRST} + {DEFERRED});
    steps := Extend(steps, w, TryReclaim(DEFERRED, 3, 0));
    w := w.(stored := Some(Reclaimed(DEFERRED, 3, 0)), issued := {1, 2} + {3});
    steps := Extend(steps, w, MarkInFlight(3, 0));
  }

  // ----- the repository -----

  datatype Reservation =
    | ReservedBy(send: Send, lease: Lease)
    | Duplicate(send: Send)
    | RetryExpired(send: Send)
    | IdentityMismatch

  predicate ValidKey(key: string) {
    0 < |key| <= 256
  }

  predicate ValidEnding(ending: Ending) {
    match ending
    case AcceptedAs(emailId) => ValidKey(emailId)
    case FailedWith(code) => 1 <= |code| <= 64 && forall c <- code :: 'a' <= c <= 'z' || '0' <= c <= '9' || c == '_'
    case _ => true
  }

  /** The collection of sends by send key. An absent lease or instant stands for one that does not parse. */
  class OptionalEmailSendRepository {
    var sends: map<string, Send>

    constructor ()
      ensures sends == map[]
    {
      sends := map[];
    }

    /** The unique-key insert of `reserve`. */
    method Insert(key: string, identity: Identity, lease: Lease, at: Instant) returns (inserted: bool)
      modifies this
      ensures inserted == (key !in old(sends))
      ensures sends == if inserted then old(sends)[key := NewSend(identity, lease, at)] else old(sends)
    {
      if key in sends {
        return false;
      }
      sends := sends[key := NewSend(identity, lease, at)];
      return true;
    }

    /** The rest of `reserve` after a collision, acting on a snapshot that other workers may have overtaken. */
    method ReserveExisting(key: string, existing: Send, identity: Identity, lease: Lease, at: Instant)
      returns (r: Reservation)
      requires key in sends
      modifies this
      ensures var stored := old(sends)[key];
              if existing.identity != identity then r == IdentityMismatch && sends == old(sends)
              else match Judge(existing, at)
                case KeepDuplicate => r == Duplicate(existing) && sends == old(sends)
                case KeepExpired => r == RetryExpired(existing) && sends == old(sends)
                case Reclaim =>
                  if StillAs(stored, existing) then
                    && r == ReservedBy(Reclaimed(stored, lease, at), lease)
                    && sends == old(sends)[key := Reclaimed(stored, lease, at)]
                  else r == Duplicate(stored) && sends == old(sends)
      ensures existing == old(sends)[key] && existing.identity == identity ==>
                && (r.ReservedBy? <==> Retriable(existing, at))
                && (r.Duplicate? <==> Taken(existing, at))
                && (r.ReservedBy? ==> sends[key].status == Reserved && sends[key].activeLease == Some(lease))
    {
      VerdictIsExact(existing, at);
      if existing.identity != identity {
        return IdentityMismatch;
      }
      match existing.status {
        case Reserved =>
          var reservationAge := at - existing.updatedAt;
          if reservationAge < 0 || reservationAge <= LEASE_MS {
            return Duplicate(existing);
          }
          if ProviderRetryExpired(existing, at) {
            return RetryExpired(existing);
          }
        case InFlight =>
          var leaseAge := at - existing.updatedAt;
          if leaseAge < 0 || leaseAge <= LEASE_MS {
            return Duplicate(existing);
          }
          if existing.firstProviderAttemptAt.None? || ProviderRetryExpired(existing, at) {
            return RetryExpired(existing);
          }
        case Failed =>
          if existing.firstProviderAttemptAt.None? || ProviderRetryExpired(existing, at) {
            return RetryExpired(existing);
          }
        case DeferredDailyLimit =>
          if ProviderRetryExpired(existing, at) {
            return RetryExpired(existing);
          }
        case Accepted => return Duplicate(existing);
        case Blocked => return Duplicate(existing);
      }
      var reclaimed := FindOneAndReclaim(key, existing, lease, at);
      if reclaimed {
        return ReservedBy(sends[key], lease);
      }
      return Duplicate(sends[key]);
    }

    method FindOneAndReclaim(key: string, existing: Send, lease: Lease, at: Instant) returns (reclaimed: bool)
      requires key in sends
      modifies this
      ensures reclaimed == StillAs(old(sends)[key], existing)
      ensures sends == if reclaimed then old(sends)[key := Reclaimed(old(sends)[key], lease, at)] else old(sends)
    {
      var stored := sends[key];
      if stored.status != existing.status {
        return false;
      }
      if (existing.status == Reserved || existing.status == InFlight) && stored.updatedAt != existing.updatedAt {
        return false;
      }
      sends := sends[key := Reclaimed(stored, lease, at)];
      return true;
    }

    method SetInFlight(key: string, lease: Option<Lease>, at: Option<Instant>) returns (marked: bool)
      modifies this
      ensures marked == (0 < |key| <= 256 && lease.Some? && at.Some? && key in old(sends)
                         && MayAttempt(old(sends)[key], lease.value, at.value))
      ensures sends == if marked then old(sends)[key := Attempted(old(sends)[key], at.value)] else old(sends)
    {
      if !ValidKey(key) || lease.None? || at.None? || key !in sends {
        return false;
      }
      var stored, now := sends[key], at.value;
      var earliestLeaseAt, earliestProviderAttemptAt := now - LEASE_MS, now - SAFETY_WINDOW_MS;
      if stored.status != Reserved || stored.activeLease != lease || !(earliestLeaseAt <= stored.updatedAt <= now) {
        return false;
      }
      if stored.firstProviderAttemptAt.Some? && !(earliestProviderAttemptAt <= stored.firstProviderAttemptAt.value <= now) {
        return false;
      }
      sends := sends[key := Attempted(stored, now)];
      return true;
    }

    method SetAccepted(key: string, lease: Option<Lease>, providerEmailId: string, at: Option<Instant>) returns (marked: bool)
      modifies this
      ensures marked == (0 < |key| <= 256 && lease.Some? && at.Some? && 0 < |providerEmailId| <= 256 && key in old(sends)
                         && Owns(old(sends)[key], InFlight, lease.value))
      ensures sends == if marked then old(sends)[key := Ended(old(sends)[key], AcceptedAs(providerEmailId), at.value)] else old(sends)
    {
      marked := End(key, AcceptedAs(providerEmailId), lease, at);
    }

    /** The marks that end a lease, each from its own status. */
    method End(key: string, ending: Ending, lease: Option<Lease>, at: Option<Instant>) returns (marked: bool)
      modifies this
      ensures marked == (0 < |key| <= 256 && lease.Some? && at.Some? && key in old(sends)
                         && (ending.AcceptedAs? ==> 0 < |ending.providerEmailId| <= 256)
                         && (ending.FailedWith? ==>
                               && 0 < |ending.code| <= 64
                               && forall c <- ending.code :: 'a' <= c <= 'z' || '0' <= c <= '9' || c == '_')
                         && Owns(old(sends)[key], From(ending), lease.value))
      ensures sends == if marked then old(sends)[key := Ended(old(sends)[key], ending, at.value)] else old(sends)
    {
      if !ValidKey(key) || lease.None? || !ValidEnding(ending) || at.None? || key !in sends {
        return false;
      }
      var stored := sends[key];
      if stored.status != From(ending) || stored.activeLease != lease {
        return false;
      }
      stored := stored.(activeLease := None, updatedAt := at.value);
      match ending {
        case AcceptedAs(emailId) =>
          stored := stored.(status := Accepted, providerEmailId := Some(emailId), acceptedAt := at);
        case FailedWith(code) => stored := stored.(status := Failed, lastFailureCode := Some(code));
        case BlockedFor(reason) => stored := stored.(status := Blocked, lastBlockReason := Some(reason));
        case DeferredForDay => stored := stored.(status := DeferredDailyLimit, deferredForDailyLimit := true);
      }
      sends := sends[key := stored];
      return true;
    }
  }
}
