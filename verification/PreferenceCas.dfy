/**
 * The export preference of one user: a compare-and-set on a revision, made safe to retry by an operation
 * id, and a permanent tombstone. Each database operation is one atomic step, in any order and any number.
 */
module PreferenceCas {
  import opened Prelude

  type OperationId = nat
  type Instant = int

  const MAX_SAFE_INTEGER := 9007199254740991

  datatype Preference = Enabled | Disabled

  datatype User = User(
    preference: Preference,
    updatedAt: Instant,
    revision: int,
    lastOperation: Option<OperationId>,
    suppressedAt: Option<Instant>)

  function Created(now: Instant): User {
    User(Enabled, now, 1, None, None)
  }

  /** What readers are shown: a suppressed account reads as disabled. */
  datatype Record = Record(preference: Preference, updatedAt: Instant, revision: int)

  function RecordOf(u: User): Record {
    Record(if u.suppressedAt.Some? then Disabled else u.preference, u.updatedAt, u.revision)
  }

  datatype Update = Update(operation: OperationId, preference: Preference, expectedRevision: int)

  predicate WellFormed(r: Update) {
    1 <= r.expectedRevision <= MAX_SAFE_INTEGER - 1
  }

  predicate IsDuplicate(u: User, r: Update) {
    u.lastOperation == Some(r.operation) && u.preference == r.preference && u.revision == r.expectedRevision + 1
  }

  predicate IsNewAtExpected(u: User, r: Update) {
    u.lastOperation != Some(r.operation) && u.revision == r.expectedRevision
  }

  predicate Allowed(u: User, r: Update) {
    r.preference == Enabled ==> u.suppressedAt.None?
  }

  predicate Applies(u: User, r: Update) {
    WellFormed(r) && Allowed(u, r) && IsNewAtExpected(u, r)
  }

  /** The conditional update accepts a new operation and the repetition of the last one. */
  predicate Accepts(u: User, r: Update) {
    WellFormed(r) && Allowed(u, r) && (IsDuplicate(u, r) || IsNewAtExpected(u, r))
  }

  function Updated(u: User, r: Update, now: Instant): User {
    if Applies(u, r) then u.(preference := r.preference, updatedAt := now, revision := u.revision + 1, lastOperation := Some(r.operation))
    else u
  }

  function Suppressed(u: User, at: Instant): User {
    if u.suppressedAt.Some? then u
    else User(Disabled, at, if u.revision < MAX_SAFE_INTEGER then u.revision + 1 else u.revision, None, Some(at))
  }

  datatype Step = DoUpdate(request: Update, now: Instant) | DoSuppress(at: Instant)

  function Next(u: User, step: Step): User {
    match step
    case DoUpdate(r, now) => Updated(u, r, now)
    case DoSuppress(at) => Suppressed(u, at)
  }

  function Run(created: Instant, steps: seq<Step>): User {
    if steps == [] then Created(created) else Next(Run(created, steps[..|steps| - 1]), steps[|steps| - 1])
  }

  /** Step `i` of the run is an update that takes effect. */
  predicate TakesEffect(created: Instant, steps: seq<Step>, i: nat)
    requires i < |steps|
  {
    steps[i].DoUpdate? && Applies(Run(created, steps[..i]), steps[i].request)
  }

  ghost function Effects(created: Instant, steps: seq<Step>): nat {
    if steps == [] then 0
    else Effects(created, steps[..|steps| - 1]) + if TakesEffect(created, steps, |steps| - 1) then 1 else 0
  }

  /** What every reachable document looks like. */
  ghost predicate Valid(u: User) {
    1 <= u.revision <= MAX_SAFE_INTEGER && (u.suppressedAt.Some? ==> u.preference == Disabled)
  }

  lemma StepIsValid(u: User, step: Step)
    requires Valid(u)
    ensures Valid(Next(u, step)) && u.revision <= Next(u, step).revision <= u.revision + 1
    ensures u.suppressedAt.Some? ==> Next(u, step).suppressedAt == u.suppressedAt
  {}

  lemma {:induction false} RunIsValid(created: Instant, steps: seq<Step>)
    ensures Valid(Run(created, steps))
  {
    if steps != [] {
      RunIsValid(created, steps[..|steps| - 1]);
      StepIsValid(Run(created, steps[..|steps| - 1]), steps[|steps| - 1]);
    }
  }

  /** From any point of a run on, the revision never falls and a tombstone never goes away or changes. */
  lemma {:induction false} NeverBackwards(created: Instant, steps: seq<Step>, i: nat)
    requires i <= |steps|
    ensures Run(created, steps[..i]).revision <= Run(created, steps).revision
    ensures Run(created, steps[..i]).suppressedAt.Some? ==> Run(created, steps).suppressedAt == Run(created, steps[..i]).suppressedAt
    decreases |steps|
  {
    if i == |steps| {
      assert steps[..i] == steps;
    } else {
      var n := |steps| - 1;
      assert steps[..n][..i] == steps[..i];
      NeverBackwards(created, steps[..n], i);
      RunIsValid(created, steps[..n]);
      StepIsValid(Run(created, steps[..n]), steps[n]);
      assert Run(created, steps) == Next(Run(created, steps[..n]), steps[n]);
      hide Run, Next;
    }
  }

  /** After the tombstone the stored preference, and what readers see, is disabled for good. */
  lemma DisabledForever(created: Instant, steps: seq<Step>, i: nat)
    requires i <= |steps| && Run(created, steps[..i]).suppressedAt.Some?
    ensures Run(created, steps).preference == Disabled && RecordOf(Run(created, steps)).preference == Disabled
  {
    NeverBackwards(created, steps, i);
    RunIsValid(created, steps);
    hide Run;
  }

  /** Among the updates that take effect, expected revisions strictly increase: nothing takes effect twice. */
  lemma TakesEffectOnce(created: Instant, steps: seq<Step>, i: nat, j: nat)
    requires i < j < |steps| && TakesEffect(created, steps, i) && TakesEffect(created, steps, j)
    ensures steps[i].request.expectedRevision < steps[j].request.expectedRevision
  {
    assert steps[..j][..i + 1] == steps[..i + 1] && steps[..i + 1][..i] == steps[..i];
    assert Run(created, steps[..i + 1]) == Next(Run(created, steps[..i]), steps[i]);
    NeverBackwards(created, steps[..j], i + 1);
    hide Run;
  }

  /** The revision counts the updates that took effect, and the one suppression unless the counter was full. */
  lemma {:induction false} RevisionCounts(created: Instant, steps: seq<Step>)
    ensures var u, bump := Run(created, steps), Run(created, steps).revision - 1 - Effects(created, steps);
            && 0 <= bump <= 1
            && (bump == 1 ==> u.suppressedAt.Some?)
            && (bump == 0 && u.suppressedAt.Some? ==> u.revision == MAX_SAFE_INTEGER)
  {
    if steps != [] {
      var n := |steps| - 1;
      RevisionCounts(created, steps[..n]);
      RunIsValid(created, steps[..n]);
      assert Run(created, steps) == Next(Run(created, steps[..n]), steps[n]);
      hide Run;
    }
  }

  /**
   * What becomes of a request: a new operation at the current revision takes effect unless it opts a
   * suppressed account in; the repetition of the last operation is accepted as it stands; anything else is refused.
   */
  lemma UpdateDecides(u: User, r: Update, now: Instant)
    ensures var inRange := 1 <= r.expectedRevision <= 9_007_199_254_740_990;
            var optsIn := r.preference == Enabled && u.suppressedAt.Some?;
            var isNew := u.lastOperation != Some(r.operation) && r.expectedRevision == u.revision;
            var isRepeated := u.lastOperation == Some(r.operation) && r.expectedRevision + 1 == u.revision && r.preference == u.preference;
            && (Accepts(u, r) <==> inRange && !optsIn && (isNew || isRepeated))
            && (if inRange && !optsIn && isNew
                then Next(u, DoUpdate(r, now)) == User(r.preference, now, u.revision + 1, Some(r.operation), u.suppressedAt)
                else Next(u, DoUpdate(r, now)) == u)
  {}

  /** Readers are shown the stored preference, its time and its revision, but of a suppressed account never that it is enabled. */
  lemma ReadersSee(u: User)
    ensures RecordOf(u).updatedAt == u.updatedAt && RecordOf(u).revision == u.revision
    ensures RecordOf(u).preference == Enabled <==> u.preference == Enabled && u.suppressedAt.None?
  {}

  /** A new user is enabled; a reader who sends back the revision just read can always opt out, and opt in until the tombstone. */
  lemma OptingOutIsAccepted(created: Instant, steps: seq<Step>, operation: OperationId, now: Instant)
    requires var u := Run(created, steps); u.revision < MAX_SAFE_INTEGER && u.lastOperation != Some(operation)
    ensures Run(created, []) == User(Enabled, created, 1, None, None)
    ensures var u := Run(created, steps);
            var t := Next(u, DoUpdate(Update(operation, Disabled, RecordOf(u).revision), now));
            RecordOf(t) == Record(Disabled, now, u.revision + 1)
    ensures var u := Run(created, steps);
            var t := Next(u, DoUpdate(Update(operation, Enabled, RecordOf(u).revision), now));
            RecordOf(t).preference == Enabled <==> u.suppressedAt.None?
  {
    RunIsValid(created, steps);
    UpdateDecides(Run(created, steps), Update(operation, Disabled, Run(created, steps).revision), now);
    UpdateDecides(Run(created, steps), Update(operation, Enabled, Run(created, steps).revision), now);
    assert Run(created, []) == Created(created);
    hide Run, Next, Valid;
    assert Valid(Run(created, steps));
  }

  /** The first suppression disables the account, dates it, forgets the last operation and raises the revision if there is room. */
  lemma SuppressionLands(u: User, at: Instant)
    requires Valid(u)
    ensures var t := Next(u, DoSuppress(at));
            if u.suppressedAt.Some? then t == u
            else t == User(Disabled, at, Min(u.revision + 1, 9_007_199_254_740_991), None, Some(at))
  {}

  /** An immediate retry of an update that took effect is accepted and returns the committed record unchanged. */
  lemma RetryIsIdempotent(u: User, r: Update, now: Instant, later: Instant)
    requires Applies(u, r)
    ensures var committed := Updated(u, r, now);
            && Accepts(committed, r) && Updated(committed, r, later) == committed
            && RecordOf(Updated(committed, r, later)) == Record(r.preference, now, u.revision + 1)
  {}

  /** Later, a retry is accepted exactly while the document still is the one the update committed. */
  lemma RetryIsAcceptedWhileCommitted(created: Instant, steps: seq<Step>, i: nat)
    requires i < |steps| && TakesEffect(created, steps, i)
    ensures Accepts(Run(created, steps), steps[i].request) <==> Run(created, steps) == Run(created, steps[..i + 1])
  {
    var committed := Run(created, steps[..i + 1]);
    assert steps[..i + 1][..i] == steps[..i];
    assert committed == Next(Run(created, steps[..i]), steps[i]);
    RunIsValid(created, steps[..i]);
    SameRevisionSameDocument(created, steps, i + 1);
    NeverBackwards(created, steps, i + 1);
    hide Run;
    assert committed.revision == steps[i].request.expectedRevision + 1;
    assert steps[i].request.preference == committed.preference && committed.lastOperation == Some(steps[i].request.operation);
  }

  /** While the revision stands still the document does, unless a suppression found the counter full. */
  lemma {:induction false} SameRevisionSameDocument(created: Instant, steps: seq<Step>, i: nat)
    requires i <= |steps|
    ensures var u, v := Run(created, steps[..i]), Run(created, steps);
            u.revision == v.revision && v.lastOperation.Some? ==> u == v
    decreases |steps|
  {
    if i == |steps| {
      assert steps[..i] == steps;
    } else {
      var n := |steps| - 1;
      assert steps[..n][..i] == steps[..i];
      SameRevisionSameDocument(created, steps[..n], i);
      NeverBackwards(created, steps[..n], i);
      RunIsValid(created, steps[..n]);
      StepIsValid(Run(created, steps[..n]), steps[n]);
      assert Run(created, steps) == Next(Run(created, steps[..n]), steps[n]);
      hide Run;
    }
  }

  /**
   * The record of a conflict is read at `k`, after the update was refused at `i`: it is no older than the document
   * that refused, and newer than every update that took effect in between.
   */
  lemma ConflictIsReadLater(created: Instant, steps: seq<Step>, i: nat, k: nat)
    requires i <= k <= |steps|
    ensures RecordOf(Run(created, steps[..i])).revision <= RecordOf(Run(created, steps[..k])).revision
    ensures Run(created, steps[..i]).suppressedAt.Some? ==> RecordOf(Run(created, steps[..k])).preference == Disabled
    ensures forall j :: i <= j < k && TakesEffect(created, steps, j) ==>
              RecordOf(Run(created, steps[..k])).revision > steps[j].request.expectedRevision >= Run(created, steps[..i]).revision
  {
    assert steps[..k][..i] == steps[..i];
    NeverBackwards(created, steps[..k], i);
    RunIsValid(created, steps[..k]);
    forall j | i <= j < k && TakesEffect(created, steps, j)
      ensures RecordOf(Run(created, steps[..k])).revision > steps[j].request.expectedRevision >= Run(created, steps[..i]).revision
    {
      EffectRaises(created, steps, i, j, k);
    }
  }

  lemma EffectRaises(created: Instant, steps: seq<Step>, i: nat, j: nat, k: nat)
    requires i <= j < k <= |steps| && TakesEffect(created, steps, j)
    ensures Run(created, steps[..i]).revision <= steps[j].request.expectedRevision < Run(created, steps[..k]).revision
  {
    assert steps[..j][..i] == steps[..i] && steps[..k][..j + 1] == steps[..j + 1] && steps[..j + 1][..j] == steps[..j];
    assert Run(created, steps[..j + 1]) == Next(Run(created, steps[..j]), steps[j]);
    NeverBackwards(created, steps[..j], i);
    NeverBackwards(created, steps[..k], j + 1);
    hide Run;
  }

  // ----- the stored user -----

  /** The answer of the conditional update; a mismatch is reported with the record of a second read. */
  datatype UpdateResult = Accepted(record: Record) | NotMatched | Malformed

  class UserRepository {
    var preference: Preference
    var updatedAt: Instant
    var revision: int
    var lastOperation: Option<OperationId>
    var suppressedAt: Option<Instant>

    function View(): User
      reads this
    {
      User(preference, updatedAt, revision, lastOperation, suppressedAt)
    }

    constructor (now: Instant)
      ensures View() == Created(now)
    {
      preference, updatedAt, revision, lastOperation, suppressedAt := Enabled, now, 1, None, None;
    }

    method UpdateProductAnalyticsPreference(r: Update, now: Instant) returns (result: UpdateResult)
      modifies this
      ensures View() == Next(old(View()), DoUpdate(r, now))
      ensures result == if !WellFormed(r) then Malformed
                        else if Accepts(old(View()), r) then Accepted(RecordOf(View()))
                        else NotMatched
    {
      if r.expectedRevision < 1 || r.expectedRevision > MAX_SAFE_INTEGER - 1 { return Malformed; }
      var sameOperation := lastOperation == Some(r.operation);
      var matchingDuplicate := sameOperation && preference == r.preference && revision == r.expectedRevision + 1;
      var newAtExpected := !sameOperation && revision == r.expectedRevision;
      var matches := (r.preference == Disabled || suppressedAt.None?) && (matchingDuplicate || newAtExpected);
      if matches && !matchingDuplicate {
        preference, updatedAt, revision, lastOperation := r.preference, now, revision + 1, Some(r.operation);
      }
      result := if matches then Accepted(RecordOf(View())) else NotMatched;
    }

    /** The second query of a conflict; any operations may have come in between. */
    method ReadForConflict() returns (record: Record)
      ensures record == RecordOf(View())
    {
      record := Record(if suppressedAt.Some? then Disabled else preference, updatedAt, revision);
    }

    /** The first suppression wins; a repetition reports the first one. */
    method SuppressProductAnalyticsExport(at: Instant) returns (record: Record, since: Instant)
      modifies this
      ensures View() == Next(old(View()), DoSuppress(at))
      ensures record == RecordOf(View()) && record.preference == Disabled && suppressedAt == Some(since)
      ensures since == old(suppressedAt).GetOr(at)
    {
      if suppressedAt.None? {
        preference, updatedAt, lastOperation, suppressedAt := Disabled, at, None, Some(at);
        if revision < MAX_SAFE_INTEGER { revision := revision + 1; }
      }
      record, since := RecordOf(View()), suppressedAt.value;
    }
  }
}
