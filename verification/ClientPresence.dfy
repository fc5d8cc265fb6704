/**
 * Long polls that wait for a user's first registered device: the race between the initial database read,
 * the stored waiter, its recheck, a registration, the timer, an abort and shutdown.
 */
module ClientPresence {
  import opened Prelude

  type UserId = nat
  type CallId = nat

  datatype Outcome = Registered | NotRegistered | ClientGone | ShuttingDown

  /** The waiter book-keeping of the service; `settled` holds the single settlement of each waiter. */
  datatype Registry = Registry(waiters: map<UserId, set<CallId>>, settled: map<CallId, Outcome>, released: bool)

  const NO_WAITERS := Registry(map[], map[], false)

  function WaitersOf(r: Registry, u: UserId): set<CallId> {
    if u in r.waiters then r.waiters[u] else {}
  }

  function AddWaiter(r: Registry, u: UserId, x: CallId): Registry {
    r.(waiters := r.waiters[u := WaitersOf(r, u) + {x}])
  }

  function Unlink(r: Registry, u: UserId, x: CallId): Registry {
    if u !in r.waiters then r
    else r.(waiters := if r.waiters[u] - {x} == {} then r.waiters - {u} else r.waiters[u := r.waiters[u] - {x}])
  }

  /** Only the first settlement of a waiter counts; it also takes the waiter out of its user's set. */
  function Settle(r: Registry, u: UserId, x: CallId, outcome: Outcome): Registry {
    if x in r.settled then r else Unlink(r, u, x).(settled := r.settled[x := outcome])
  }

  function SettleAll(r: Registry, u: UserId, outcome: Outcome): Registry {
    r.(waiters := r.waiters - {u}, settled := r.settled + map x | x in WaitersOf(r, u) :: outcome)
  }

  function Everyone(r: Registry): set<CallId> {
    set u, x | u in r.waiters && x in r.waiters[u] :: x
  }

  function Release(r: Registry): Registry {
    if r.released then r
    else Registry(map[], r.settled + map x | x in Everyone(r) :: ShuttingDown, true)
  }

  // ----- calls of waitForRegistration -----

  datatype Recheck = Unread | Saw(registered: bool) | Failed

  datatype Answer = Returned(outcome: Outcome) | InitialReadTimeout | ReadError

  /** `ReadingOnce` is a call without wait budget: one read, and no waiting. */
  datatype Call =
    | ReadingOnce(user: UserId)
    | Reading(user: UserId)
    | Read(user: UserId, registered: bool)
    | Waiting(user: UserId, recheck: Recheck)
    | Done(answer: Answer)

  /**
   * `present` are the users with a stored device token, `upserting` the registrations whose write has
   * committed but which have not yet woken anybody, and `announced` the users who were present when a
   * registration finished and have stayed so.
   */
  datatype Service = Service(
    present: set<UserId>,
    upserting: multiset<UserId>,
    announced: set<UserId>,
    registry: Registry,
    calls: map<CallId, Call>)

  const IDLE := Service({}, multiset{}, {}, NO_WAITERS, map[])

  datatype Step =
    | StartCall(call: CallId, user: UserId, aborted: bool, hasBudget: bool)
    | ReadSamples(call: CallId)
    | ReadFails(call: CallId)
    | ReadDeadline(call: CallId)
    | ReadAborted(call: CallId)
    | ReadResumes(call: CallId, aborted: bool, budgetLeft: bool)
    | RecheckSamples(call: CallId)
    | RecheckFails(call: CallId)
    | RecheckResumes(call: CallId)
    | TimerFires(call: CallId)
    | AbortFires(call: CallId)
    | TokenUpserted(user: UserId)
    | RegistrationWakes(user: UserId)
    | TokensRemoved(user: UserId)
    | Shutdown

  function Finish(s: Service, x: CallId, answer: Answer): Service {
    s.(calls := s.calls[x := Done(answer)])
  }

  function SettleCall(s: Service, x: CallId, outcome: Outcome): Service
    requires x in s.calls && s.calls[x].Waiting?
  {
    s.(registry := Settle(s.registry, s.calls[x].user, x, outcome))
  }

  /** Storing a waiter; a signal that aborted just before settles it at once. */
  function StoreWaiter(s: Service, x: CallId, u: UserId): Service {
    s.(registry := AddWaiter(s.registry, u, x), calls := s.calls[x := Waiting(u, Unread)])
  }

  function Next(s: Service, step: Step): Service {
    match step
    case StartCall(x, u, aborted, hasBudget) =>
      if x in s.calls then s
      else if aborted then Finish(s, x, Returned(ClientGone))
      else if s.registry.released then Finish(s, x, Returned(ShuttingDown))
      else s.(calls := s.calls[x := if hasBudget then Reading(u) else ReadingOnce(u)])
    case ReadSamples(x) =>
      if x in s.calls && s.calls[x].Reading? then
        s.(calls := s.calls[x := Read(s.calls[x].user, s.calls[x].user in s.present)])
      else if x in s.calls && s.calls[x].ReadingOnce? then
        Finish(s, x, Returned(if s.calls[x].user in s.present then Registered else NotRegistered))
      else s
    case ReadFails(x) =>
      if x in s.calls && (s.calls[x].Reading? || s.calls[x].ReadingOnce?) then Finish(s, x, ReadError) else s
    case ReadDeadline(x) => if x in s.calls && s.calls[x].Reading? then Finish(s, x, InitialReadTimeout) else s
    case ReadAborted(x) => if x in s.calls && s.calls[x].Reading? then Finish(s, x, Returned(ClientGone)) else s
    case ReadResumes(x, aborted, budgetLeft) =>
      if x !in s.calls || !s.calls[x].Read? then s
      else if s.calls[x].registered then Finish(s, x, Returned(Registered))
      else if s.registry.released then Finish(s, x, Returned(NotRegistered))
      else if aborted then Finish(s, x, Returned(ClientGone))
      else if !budgetLeft then Finish(s, x, Returned(NotRegistered))
      else StoreWaiter(s, x, s.calls[x].user)
    case RecheckSamples(x) =>
      if x in s.calls && s.calls[x].Waiting? && s.calls[x].recheck.Unread? then
        s.(calls := s.calls[x := s.calls[x].(recheck := Saw(s.calls[x].user in s.present))])
      else s
    case RecheckFails(x) =>
      if x in s.calls && s.calls[x].Waiting? && s.calls[x].recheck.Unread? then
        s.(calls := s.calls[x := s.calls[x].(recheck := Failed)])
      else s
    case RecheckResumes(x) =>
      if x in s.calls && s.calls[x].Waiting? && s.calls[x].recheck == Saw(true) then SettleCall(s, x, Registered)
      else if x in s.calls && s.calls[x].Waiting? && s.calls[x].recheck == Failed then SettleCall(s, x, ClientGone)
      else s
    case TimerFires(x) => if x in s.calls && s.calls[x].Waiting? then SettleCall(s, x, NotRegistered) else s
    case AbortFires(x) => if x in s.calls && s.calls[x].Waiting? then SettleCall(s, x, ClientGone) else s
    case TokenUpserted(u) => s.(present := s.present + {u}, upserting := s.upserting + multiset{u})
    case RegistrationWakes(u) =>
      if u in s.upserting then
        s.(upserting := s.upserting - multiset{u},
           announced := if u in s.present then s.announced + {u} else s.announced,
           registry := SettleAll(s.registry, u, Registered))
      else s
    case TokensRemoved(u) => s.(present := s.present - {u}, announced := s.announced - {u})
    case Shutdown => s.(registry := Release(s.registry))
  }

  function Run(steps: seq<Step>): Service {
    if steps == [] then IDLE else Next(Run(steps[..|steps| - 1]), steps[|steps| - 1])
  }

  // ----- what every run keeps -----

  /** The stored waiters are exactly the calls that wait and are not settled yet. */
  ghost predicate WaitersExact(r: Registry, calls: map<CallId, Call>) {
    && (forall u <- r.waiters :: r.waiters[u] != {})
    && (forall u, x :: x in WaitersOf(r, u) ==> x in calls && calls[x].Waiting? && calls[x].user == u && x !in r.settled)
    && (forall x <- calls :: calls[x].Waiting? && x !in r.settled ==> x in WaitersOf(r, calls[x].user))
    && (forall x <- r.settled :: x in calls && calls[x].Waiting?)
  }

  /** The recheck of a waiting call is still to come, or will end the call. */
  predicate MayStillAnswer(s: Service, x: CallId) {
    x in s.calls && s.calls[x].Waiting? && s.calls[x].recheck != Saw(false)
  }

  /** Whoever still waits for an announced user has a recheck to come that will see the registration. */
  ghost predicate NobodyMissedIt(s: Service) {
    && s.announced <= s.present
    && (forall u, x :: u in s.announced && x in WaitersOf(s.registry, u) && x in s.calls && s.calls[x].Waiting? ==> MayStillAnswer(s, x))
  }

  ghost predicate Valid(s: Service) {
    && WaitersExact(s.registry, s.calls)
    && NobodyMissedIt(s)
    && (s.registry.released ==> s.registry.waiters == map[])
  }

  /** Calls that are not waiting may change as they like. */
  lemma PhaseChangeKeepsWaiters(r: Registry, calls: map<CallId, Call>, x: CallId, next: Call)
    requires WaitersExact(r, calls) && (x in calls ==> !calls[x].Waiting?) && !next.Waiting?
    ensures WaitersExact(r, calls[x := next])
  {}

  lemma SettlingKeepsWaiters(r: Registry, calls: map<CallId, Call>, x: CallId, outcome: Outcome)
    requires WaitersExact(r, calls) && x in calls && calls[x].Waiting?
    ensures WaitersExact(Settle(r, calls[x].user, x, outcome), calls)
    ensures forall u :: WaitersOf(Settle(r, calls[x].user, x, outcome), u) == WaitersOf(r, u) - {x}
  {
    var t := Settle(r, calls[x].user, x, outcome);
    forall u ensures WaitersOf(t, u) == WaitersOf(r, u) - {x} {}
    hide Settle;
    assert x in t.settled && t.settled.Keys == r.settled.Keys + {x} by { SettledKeys(r, calls[x].user, x, outcome); }
    assert forall u <- t.waiters :: t.waiters[u] != {} by { SettleLeavesNoEmptySet(r, calls[x].user, x, outcome); }
  }

  lemma SettledKeys(r: Registry, u: UserId, x: CallId, outcome: Outcome)
    ensures Settle(r, u, x, outcome).settled.Keys == r.settled.Keys + {x}
  {}

  lemma SettleLeavesNoEmptySet(r: Registry, u: UserId, x: CallId, outcome: Outcome)
    requires forall v <- r.waiters :: r.waiters[v] != {}
    ensures forall v <- Settle(r, u, x, outcome).waiters :: Settle(r, u, x, outcome).waiters[v] != {}
  {}

  lemma StoringKeepsWaiters(r: Registry, calls: map<CallId, Call>, x: CallId, u: UserId)
    requires WaitersExact(r, calls) && (x in calls ==> !calls[x].Waiting?)
    ensures WaitersExact(AddWaiter(r, u, x), calls[x := Waiting(u, Unread)])
    ensures forall v :: WaitersOf(AddWaiter(r, u, x), v) == WaitersOf(r, v) + if v == u then {x} else {}
  {
    var t := AddWaiter(r, u, x);
    forall v ensures WaitersOf(t, v) == WaitersOf(r, v) + if v == u then {x} else {} {}
    assert forall v <- t.waiters :: t.waiters[v] != {};
    hide AddWaiter;
  }

  lemma WakingKeepsWaiters(r: Registry, calls: map<CallId, Call>, u: UserId, outcome: Outcome)
    requires WaitersExact(r, calls)
    ensures WaitersExact(SettleAll(r, u, outcome), calls)
    ensures forall v :: WaitersOf(SettleAll(r, u, outcome), v) == if v == u then {} else WaitersOf(r, v)
  {
    forall v ensures WaitersOf(SettleAll(r, u, outcome), v) == if v == u then {} else WaitersOf(r, v) {}
  }

  lemma ReleaseKeepsWaiters(r: Registry, calls: map<CallId, Call>)
    requires WaitersExact(r, calls)
    ensures WaitersExact(Release(r), calls)
  {
    if !r.released {
      forall x | x in calls && calls[x].Waiting? ensures x in Release(r).settled {
        if x !in r.settled {
          assert x in WaitersOf(r, calls[x].user);
          assert x in Everyone(r);
        }
      }
      forall x | x in Everyone(r) ensures x in calls && calls[x].Waiting? {
        var u :| u in r.waiters && x in r.waiters[u];
        assert x in WaitersOf(r, u);
      }
    }
  }

  lemma RecheckKeepsWaiters(r: Registry, calls: map<CallId, Call>, x: CallId, recheck: Recheck)
    requires WaitersExact(r, calls) && x in calls && calls[x].Waiting?
    ensures WaitersExact(r, calls[x := calls[x].(recheck := recheck)])
  {}

  lemma StartIsValid(s: Service, x: CallId, u: UserId)
    requires Valid(s) && x !in s.calls
    ensures Valid(s.(calls := s.calls[x := Reading(u)])) && Valid(s.(calls := s.calls[x := ReadingOnce(u)]))
  {
    PhaseChangeKeepsWaiters(s.registry, s.calls, x, Reading(u));
    PhaseChangeKeepsWaiters(s.registry, s.calls, x, ReadingOnce(u));
    hide WaitersExact;
  }

  lemma ReadIsValid(s: Service, x: CallId)
    requires Valid(s) && x in s.calls && s.calls[x].Reading?
    ensures Valid(Next(s, ReadSamples(x)))
  {
    PhaseChangeKeepsWaiters(s.registry, s.calls, x, Read(s.calls[x].user, s.calls[x].user in s.present));
    hide WaitersExact;
  }

  lemma RecheckIsValid(s: Service, x: CallId)
    requires Valid(s) && x in s.calls && s.calls[x].Waiting?
    ensures Valid(Next(s, RecheckSamples(x))) && Valid(Next(s, RecheckFails(x)))
  {
    RecheckKeepsWaiters(s.registry, s.calls, x, Saw(s.calls[x].user in s.present));
    RecheckKeepsWaiters(s.registry, s.calls, x, Failed);
    assert forall u :: x in WaitersOf(s.registry, u) ==> u == s.calls[x].user;
    hide WaitersExact;
  }

  lemma RegistrationIsValid(s: Service, u: UserId)
    requires Valid(s)
    ensures Valid(Next(s, TokenUpserted(u))) && Valid(Next(s, RegistrationWakes(u))) && Valid(Next(s, TokensRemoved(u)))
  {
    WakingKeepsWaiters(s.registry, s.calls, u, Registered);
    hide WaitersExact;
  }

  lemma ShutdownIsValid(s: Service)
    requires Valid(s)
    ensures Valid(Next(s, Shutdown))
  {
    ReleaseKeepsWaiters(s.registry, s.calls);
    hide WaitersExact;
  }

  lemma StepIsValid(s: Service, step: Step)
    requires Valid(s)
    ensures Valid(Next(s, step))
  {
    hide Valid, SettleCall;
    match step
    case StartCall(x, u, _, _) =>
      FinishIsValid(s, x, Returned(ClientGone));
      FinishIsValid(s, x, Returned(ShuttingDown));
      if x !in s.calls { StartIsValid(s, x, u); }
    case ReadSamples(x) =>
      FinishIsValid(s, x, Returned(Registered));
      FinishIsValid(s, x, Returned(NotRegistered));
      if x in s.calls && s.calls[x].Reading? { ReadIsValid(s, x); }
    case ReadFails(x) => FinishIsValid(s, x, ReadError);
    case ReadDeadline(x) => FinishIsValid(s, x, InitialReadTimeout);
    case ReadAborted(x) => FinishIsValid(s, x, Returned(ClientGone));
    case ReadResumes(x, _, _) => ReadResumesIsValid(s, step);
    case RecheckSamples(x) => if x in s.calls && s.calls[x].Waiting? { RecheckIsValid(s, x); }
    case RecheckFails(x) => if x in s.calls && s.calls[x].Waiting? { RecheckIsValid(s, x); }
    case RecheckResumes(x) => SettleIsValid(s, x, Registered); SettleIsValid(s, x, ClientGone);
    case TimerFires(x) => SettleIsValid(s, x, NotRegistered);
    case AbortFires(x) => SettleIsValid(s, x, ClientGone);
    case TokenUpserted(u) => RegistrationIsValid(s, u);
    case RegistrationWakes(u) => RegistrationIsValid(s, u);
    case TokensRemoved(u) => RegistrationIsValid(s, u);
    case Shutdown => ShutdownIsValid(s);
  }

  lemma FinishIsValid(s: Service, x: CallId, answer: Answer)
    requires Valid(s)
    ensures x !in s.calls || !s.calls[x].Waiting? ==> Valid(Finish(s, x, answer))
  {
    if x !in s.calls || !s.calls[x].Waiting? {
      PhaseChangeKeepsWaiters(s.registry, s.calls, x, Done(answer));
      hide WaitersExact;
    }
  }

  lemma SettleIsValid(s: Service, x: CallId, outcome: Outcome)
    requires Valid(s)
    ensures x in s.calls && s.calls[x].Waiting? ==> Valid(SettleCall(s, x, outcome))
  {
    if x in s.calls && s.calls[x].Waiting? {
      SettlingKeepsWaiters(s.registry, s.calls, x, outcome);
      hide WaitersExact;
      assert s.registry.waiters == map[] ==> Settle(s.registry, s.calls[x].user, x, outcome).waiters == map[];
    }
  }

  lemma StoredIsValid(s: Service, x: CallId, u: UserId)
    requires Valid(s) && !s.registry.released && (x in s.calls ==> !s.calls[x].Waiting?)
    ensures Valid(StoreWaiter(s, x, u))
  {
    StoringKeepsWaiters(s.registry, s.calls, x, u);
    hide WaitersExact, AddWaiter;
  }

  lemma ReadResumesIsValid(s: Service, step: Step)
    requires Valid(s) && step.ReadResumes?
    ensures Valid(Next(s, step))
  {
    hide Valid, StoreWaiter, Finish;
    var x := step.call;
    if x in s.calls && s.calls[x].Read? {
      FinishIsValid(s, x, Returned(Registered));
      FinishIsValid(s, x, Returned(NotRegistered));
      FinishIsValid(s, x, Returned(ClientGone));
      if !s.registry.released { StoredIsValid(s, x, s.calls[x].user); }
    }
  }

  lemma {:induction false} RunIsValid(steps: seq<Step>)
    ensures Valid(Run(steps))
  {
    if steps != [] {
      RunIsValid(steps[..|steps| - 1]);
      StepIsValid(Run(steps[..|steps| - 1]), steps[|steps| - 1]);
      hide Valid, Next;
    }
  }

  /** In every reachable state a call waits in exactly one place, once, until its single settlement. */
  lemma StoredOnceUntilSettled(steps: seq<Step>, x: CallId, u: UserId)
    ensures var s := Run(steps);
            x in WaitersOf(s.registry, u) <==> x in s.calls && s.calls[x].Waiting? && s.calls[x].user == u && x !in s.registry.settled
  {
    RunIsValid(steps);
    hide Run;
    assert WaitersExact(Run(steps).registry, Run(steps).calls);
  }

  lemma StepKeepsSettlements(s: Service, step: Step, x: CallId)
    requires Valid(s) && x in s.registry.settled
    ensures x in Next(s, step).registry.settled && Next(s, step).registry.settled[x] == s.registry.settled[x]
  {
    assert forall u :: x !in WaitersOf(s.registry, u);
    forall u | u in s.registry.waiters ensures x !in s.registry.waiters[u] {
      assert s.registry.waiters[u] == WaitersOf(s.registry, u);
    }
    hide Valid, WaitersExact, NobodyMissedIt;
  }

  /** A waiter is settled once: the first of registration, recheck, timer, abort and shutdown decides. */
  lemma {:induction false} SettledOnce(steps: seq<Step>, i: nat, x: CallId)
    requires i <= |steps| && x in Run(steps[..i]).registry.settled
    ensures x in Run(steps).registry.settled && Run(steps).registry.settled[x] == Run(steps[..i]).registry.settled[x]
    decreases |steps| - i
  {
    if i == |steps| {
      assert steps[..i] == steps;
    } else {
      RunIsValid(steps[..i]);
      assert steps[..i + 1][..i] == steps[..i];
      assert Run(steps[..i + 1]) == Next(Run(steps[..i]), steps[i]);
      StepKeepsSettlements(Run(steps[..i]), steps[i], x);
      hide Run, Next, Valid;
      SettledOnce(steps, i + 1, x);
    }
  }

  lemma StepStaysReleased(s: Service, step: Step)
    requires s.registry.released
    ensures Next(s, step).registry.released
  {}

  /** Once shutdown has released the waiters, none is stored ever again. */
  lemma {:induction false} NobodyWaitsAfterRelease(steps: seq<Step>, i: nat)
    requires i <= |steps| && Run(steps[..i]).registry.released
    ensures Run(steps).registry.released && Run(steps).registry.waiters == map[]
    decreases |steps| - i
  {
    RunIsValid(steps);
    if i == |steps| {
      assert steps[..i] == steps;
    } else {
      assert steps[..i + 1][..i] == steps[..i];
      assert Run(steps[..i + 1]) == Next(Run(steps[..i]), steps[i]);
      StepStaysReleased(Run(steps[..i]), steps[i]);
      hide Run, Next, Valid;
      NobodyWaitsAfterRelease(steps, i + 1);
    }
  }

  lemma WaitersMayAnswer(s: Service, u: UserId, x: CallId)
    requires Valid(s) && u in s.announced
    ensures x in WaitersOf(s.registry, u) ==>
              && x in s.calls && s.calls[x].Waiting? && s.calls[x].user == u && x !in s.registry.settled
              && MayStillAnswer(s, x)
  {}

  /** Every unsettled call of the user has run its recheck, and it did not end the call. */
  ghost predicate AllRechecked(s: Service, u: UserId) {
    forall x <- s.calls :: s.calls[x].Waiting? && s.calls[x].user == u && x !in s.registry.settled ==> !MayStillAnswer(s, x)
  }

  /**
   * No missed registration: when a registration of `u` has finished and the device is still there, anybody
   * still waiting for `u` has a recheck that is yet to run, or that will answer: once every recheck has run
   * its course, nobody waits.
   */
  lemma NoMissedRegistration(steps: seq<Step>, u: UserId)
    requires u in Run(steps).announced
    requires AllRechecked(Run(steps), u)
    ensures u !in Run(steps).registry.waiters
  {
    RunIsValid(steps);
    var s := Run(steps);
    hide Run;
    forall x ensures x !in WaitersOf(s.registry, u) { WaitersMayAnswer(s, u, x); }
    assert WaitersOf(s.registry, u) == {};
  }

  // ----- what each call is told -----

  predicate Answered(s: Service, x: CallId, answer: Answer) {
    x in s.calls && s.calls[x] == Done(answer)
  }

  /** A new call is turned away if its client is gone or the service is shutting down; otherwise it reads. */
  lemma CallsStart(s: Service, x: CallId, u: UserId, aborted: bool, hasBudget: bool)
    ensures var t := Next(s, StartCall(x, u, aborted, hasBudget));
            if x in s.calls then t == s
            else
              && t == s.(calls := s.calls[x := t.calls[x]])
              && t.calls[x] == if aborted then Done(Returned(ClientGone))
                               else if s.registry.released then Done(Returned(ShuttingDown))
                               else if hasBudget then Reading(u) else ReadingOnce(u)
  {}

  /** The first read finds the device or not; it may fail, and for a call that can wait also run out of time or be aborted. */
  lemma FirstReadDecides(s: Service, x: CallId, u: UserId)
    requires x in s.calls && (s.calls[x] == Reading(u) || s.calls[x] == ReadingOnce(u))
    ensures Answered(Next(s, ReadFails(x)), x, ReadError)
    ensures s.calls[x].Reading? ==>
              && Next(s, ReadSamples(x)).calls[x] == Read(u, u in s.present)
              && Answered(Next(s, ReadDeadline(x)), x, InitialReadTimeout)
              && Answered(Next(s, ReadAborted(x)), x, Returned(ClientGone))
    ensures s.calls[x].ReadingOnce? ==>
              && Answered(Next(s, ReadSamples(x)), x, Returned(if u in s.present then Registered else NotRegistered))
              && Next(s, ReadDeadline(x)) == s && Next(s, ReadAborted(x)) == s
  {}

  /** After a first read without a device the call waits, unless the service is released, the client gone or the time up. */
  lemma AbsentCallsWait(s: Service, x: CallId, u: UserId, registered: bool, aborted: bool, budgetLeft: bool)
    requires x in s.calls && s.calls[x] == Read(u, registered)
    ensures var t := Next(s, ReadResumes(x, aborted, budgetLeft));
            if registered then Answered(t, x, Returned(Registered))
            else if s.registry.released then Answered(t, x, Returned(NotRegistered))
            else if aborted then Answered(t, x, Returned(ClientGone))
            else if !budgetLeft then Answered(t, x, Returned(NotRegistered))
            else t.calls[x] == Waiting(u, Unread) && x in WaitersOf(t.registry, u) && t.registry.settled == s.registry.settled
  {}

  ghost predicate StillWaits(s: Service, x: CallId) {
    x in s.calls && s.calls[x].Waiting? && x !in s.registry.settled
  }

  ghost predicate Settles(s: Service, t: Service, x: CallId, outcome: Outcome)
    requires StillWaits(s, x)
  {
    && t.registry.settled == s.registry.settled[x := outcome]
    && x !in WaitersOf(t.registry, s.calls[x].user)
    && (forall y <- s.calls :: y != x && StillWaits(s, y) ==> StillWaits(t, y))
  }

  lemma SettlingIsSeen(s: Service, x: CallId, outcome: Outcome)
    requires Valid(s) && StillWaits(s, x)
    ensures Settles(s, SettleCall(s, x, outcome), x, outcome)
  {
    SettlingKeepsWaiters(s.registry, s.calls, x, outcome);
    hide WaitersExact, NobodyMissedIt;
  }

  /** Whoever waits is told once: nothing came by the timer, a device by the recheck, or that the client left. */
  lemma WaitersAreTold(s: Service, x: CallId)
    requires Valid(s) && StillWaits(s, x)
    ensures Settles(s, Next(s, TimerFires(x)), x, NotRegistered)
    ensures Settles(s, Next(s, AbortFires(x)), x, ClientGone)
    ensures match s.calls[x].recheck
            case Unread =>
              && Next(s, RecheckSamples(x)).calls[x] == Waiting(s.calls[x].user, Saw(s.calls[x].user in s.present))
              && Next(s, RecheckFails(x)).calls[x] == Waiting(s.calls[x].user, Failed)
              && Next(s, RecheckResumes(x)) == s
            case Saw(true) => Settles(s, Next(s, RecheckResumes(x)), x, Registered)
            case Saw(false) => Next(s, RecheckResumes(x)) == s
            case Failed => Settles(s, Next(s, RecheckResumes(x)), x, ClientGone)
    ensures s.calls[x].recheck != Unread ==> Next(s, RecheckSamples(x)) == s && Next(s, RecheckFails(x)) == s
  {
    SettlingIsSeen(s, x, NotRegistered);
    SettlingIsSeen(s, x, ClientGone);
    SettlingIsSeen(s, x, Registered);
    hide Valid, Settles, SettleCall;
  }

  /** A registration that has been written wakes everyone waiting for its user, with the device, and nobody else. */
  lemma RegistrationWakesItsUser(s: Service, u: UserId, x: CallId)
    requires Valid(s) && StillWaits(s, x)
    ensures var written := Next(s, TokenUpserted(u));
            var t := Next(written, RegistrationWakes(u));
            && u in t.present && t.calls == s.calls
            && if s.calls[x].user == u then x in t.registry.settled && t.registry.settled[x] == Registered else StillWaits(t, x)
    ensures u !in s.upserting ==> Next(s, RegistrationWakes(u)) == s
  {
    assert x in WaitersOf(s.registry, s.calls[x].user);
    if x in WaitersOf(s.registry, u) { assert s.calls[x].user == u; }
    hide Valid, WaitersExact, NobodyMissedIt;
  }

  lemma RunThen(steps: seq<Step>, step: Step)
    ensures Run(steps + [step]) == Next(Run(steps), step)
  {
    assert (steps + [step])[..|steps|] == steps;
  }

  /** A call that finds no device and waits is told of the first registration that comes. */
  lemma RegistrationEndsTheWait(x: CallId, u: UserId) returns (steps: seq<Step>)
    ensures var s := Run(steps);
            x in s.calls && s.calls[x].Waiting? && x in s.registry.settled && s.registry.settled[x] == Registered && u in s.present
  {
    steps := [];
    RunThen(steps, StartCall(x, u, false, true));
    steps := steps + [StartCall(x, u, false, true)];
    RunThen(steps, ReadSamples(x));
    steps := steps + [ReadSamples(x)];
    RunThen(steps, ReadResumes(x, false, true));
    steps := steps + [ReadResumes(x, false, true)];
    var s := Run(steps);
    assert StillWaits(s, x) && s.calls[x].user == u;
    RunIsValid(steps);
    RegistrationWakesItsUser(s, u, x);
    RunThen(steps, TokenUpserted(u));
    steps := steps + [TokenUpserted(u)];
    RunThen(steps, RegistrationWakes(u));
    steps := steps + [RegistrationWakes(u)];
    hide Run, Next, Valid;
  }

  /** The written token is there for every read until the user's tokens are removed. */
  lemma TokensAreSeen(s: Service, u: UserId)
    ensures var t := Next(s, TokenUpserted(u)); t.present == s.present + {u} && t.registry == s.registry && t.calls == s.calls
    ensures var t := Next(s, TokensRemoved(u)); t.present == s.present - {u} && t.registry == s.registry && t.calls == s.calls
    ensures u in s.upserting ==> (u in Next(s, RegistrationWakes(u)).announced <==> u in s.present || u in s.announced)
    ensures Next(s, TokenUpserted(u)).upserting == s.upserting + multiset{u}
    ensures u in s.upserting ==> Next(s, RegistrationWakes(u)).upserting == s.upserting - multiset{u}
  {}

  /** Shutdown tells everyone who waits, once; later shutdowns tell nobody. */
  lemma ShutdownTellsEveryone(s: Service, x: CallId)
    requires Valid(s) && StillWaits(s, x)
    ensures !s.registry.released ==>
              var t := Next(s, Shutdown);
              t.registry.released && x in t.registry.settled && t.registry.settled[x] == ShuttingDown
    ensures s.registry.released ==> Next(s, Shutdown) == s
  {
    assert x in WaitersOf(s.registry, s.calls[x].user);
    assert x in Everyone(s.registry);
  }

  // ----- the service object -----

  lemma SettlesOne(r: Registry, u: UserId, x: CallId, outcome: Outcome)
    requires u in r.waiters && x in r.waiters[u] && x !in r.settled
    ensures var t := Settle(r, u, x, outcome);
            && t.settled == r.settled[x := outcome] && t.released == r.released
            && t.waiters - {u} == r.waiters - {u}
            && WaitersOf(t, u) == r.waiters[u] - {x} && (u in t.waiters ==> WaitersOf(t, u) != {})
  {}

  class AppClientPresenceService {
    var waitersByUserId: map<UserId, set<CallId>>
    var settled: map<CallId, Outcome>
    var released: bool

    function View(): Registry
      reads this
    {
      Registry(waitersByUserId, settled, released)
    }

    constructor ()
      ensures View() == NO_WAITERS
    {
      waitersByUserId, settled, released := map[], map[], false;
    }

    method CreateWaiter(u: UserId, x: CallId)
      modifies `waitersByUserId
      ensures View() == AddWaiter(old(View()), u, x)
    {
      var waiters := if u in waitersByUserId then waitersByUserId[u] else {};
      waitersByUserId := waitersByUserId[u := waiters + {x}];
    }

    /** The single-settlement gate: false, and nothing changes, when the waiter was settled before. */
    method SettleWaiter(u: UserId, x: CallId, outcome: Outcome) returns (first: bool)
      modifies `waitersByUserId, `settled
      ensures View() == Settle(old(View()), u, x, outcome)
      ensures first <==> x !in old(settled)
    {
      if x in settled { return false; }
      settled := settled[x := outcome];
      if u in waitersByUserId {
        waitersByUserId := waitersByUserId[u := waitersByUserId[u] - {x}];
        if waitersByUserId[u] == {} {
          waitersByUserId := waitersByUserId - {u};
        }
      }
      first := true;
    }

    /** Settles a snapshot of one user's waiters, one after the other. */
    method SettleSnapshot(u: UserId, outcome: Outcome)
      requires u in waitersByUserId ==> waitersByUserId[u] != {}
      requires forall x <- WaitersOf(View(), u) :: x !in settled
      modifies `waitersByUserId, `settled
      ensures View() == SettleAll(old(View()), u, outcome)
    {
      if u !in waitersByUserId {
        assert waitersByUserId - {u} == waitersByUserId;
        return;
      }
      hide Settle, Unlink;
      ghost var was := View();
      var snapshot := waitersByUserId[u];
      var rest := snapshot;
      while rest != {}
        invariant rest <= snapshot
        invariant released == was.released
        invariant rest == WaitersOf(View(), u) && (u in waitersByUserId ==> rest != {})
        invariant waitersByUserId - {u} == was.waiters - {u}
        invariant settled == was.settled + map x | x in snapshot - rest :: outcome
      {
        var x :| x in rest;
        assert x !in settled;
        var left := rest - {x};
        assert snapshot - left == snapshot - rest + {x};
        SettlesOne(View(), u, x, outcome);
        var _ := SettleWaiter(u, x, outcome);
        rest := left;
      }
      assert snapshot - rest == WaitersOf(was, u);
      assert waitersByUserId == waitersByUserId - {u};
    }

    /** What a registration does once its write has committed. */
    method RegistrationCommitted(u: UserId)
      requires u in waitersByUserId ==> waitersByUserId[u] != {}
      requires forall x <- WaitersOf(View(), u) :: x !in settled
      modifies `waitersByUserId, `settled
      ensures View() == SettleAll(old(View()), u, Registered)
    {
      SettleSnapshot(u, Registered);
    }

    method ReleaseWaiters(ghost calls: map<CallId, Call>)
      requires WaitersExact(View(), calls)
      modifies this
      ensures View() == Release(old(View()))
    {
      if released { return; }
      ghost var was := View();
      released := true;
      assert forall u :: WaitersOf(View(), u) == WaitersOf(was, u);
      var users := waitersByUserId.Keys;
      while users != {}
        invariant released && WaitersExact(View(), calls)
        invariant users == waitersByUserId.Keys
        invariant forall u <- waitersByUserId :: u in was.waiters && waitersByUserId[u] == was.waiters[u]
        invariant was.settled.Keys <= settled.Keys && settled.Keys <= was.settled.Keys + Everyone(was)
        invariant forall x <- settled :: settled[x] == if x in was.settled then was.settled[x] else ShuttingDown
        decreases users
      {
        var u :| u in users;
        WakingKeepsWaiters(View(), calls, u, ShuttingDown);
        assert forall x <- WaitersOf(View(), u) :: x in Everyone(was) && x !in settled;
        SettleSnapshot(u, ShuttingDown);
        users := users - {u};
      }
      ReleasedEveryone(was, View(), calls);
    }
  }

  lemma ReleasedEveryone(was: Registry, now: Registry, calls: map<CallId, Call>)
    requires WaitersExact(was, calls) && WaitersExact(now, calls) && !was.released && now.released && now.waiters == map[]
    requires now.settled.Keys <= was.settled.Keys + Everyone(was) && was.settled.Keys <= now.settled.Keys
    requires forall x <- now.settled :: now.settled[x] == if x in was.settled then was.settled[x] else ShuttingDown
    ensures now == Release(was)
  {
    forall x | x in Everyone(was) ensures x in now.settled && x !in was.settled {
      var u :| u in was.waiters && x in was.waiters[u];
      assert x in WaitersOf(was, u);
      assert WaitersOf(now, u) == {};
    }
    assert now.settled == Release(was).settled;
  }
}
