/**
 * Recording a product-analytics event races with the suppression of its account. A record call inserts
 * and then looks for the tombstone; a suppression commits the tombstone and then deletes. One account;
 * any number of calls of either kind; every database operation is one atomic step; any call may crash.
 */
module EventSuppression {
  import opened Prelude

  type CallId = nat

  const MICROS_PER_MILLISECOND := 1_000
  const MAX_EVENT_AGE_MICROS := 72 * 60 * 60 * 1_000_000
  const MAX_EVENT_FUTURE_MICROS := 300 * 1_000_000

  datatype Event = Event(occurredAtMicros: int, receivedAtMs: int)

  predicate InWindow(e: Event) {
    var receivedAtMicros := e.receivedAtMs * MICROS_PER_MILLISECOND;
    receivedAtMicros - MAX_EVENT_AGE_MICROS <= e.occurredAtMicros <= receivedAtMicros + MAX_EVENT_FUTURE_MICROS
  }

  /** `FailedEarly` is a call that ended in an error before it had inserted anything. */
  datatype RecordOutcome = OutOfRange | NotEnabled | FailedEarly | Recorded | Withdrawn

  datatype Recording =
    | ReadingPreference(event: Event)
    | Inserting(event: Event)
    | Rechecking
    | Withdrawing
    | RecordDone(outcome: RecordOutcome)
    | RecordCrashed

  datatype Suppressing = Committing | Deleting | HandingOff | HandedOff | SuppressCrashed

  datatype Account = Account(
    enabled: bool,
    tombstone: bool,
    rows: map<CallId, Event>,
    records: map<CallId, Recording>,
    suppressions: map<CallId, Suppressing>)

  const NEW_ACCOUNT := Account(true, false, map[], map[], map[])

  datatype Step =
    | Record(call: CallId, event: Event)
    | ReadPreference(call: CallId)
    | Insert(call: CallId)
    | Recheck(call: CallId)
    | Withdraw(call: CallId)
    | CrashRecord(call: CallId)
    | Suppress(call: CallId)
    | CommitTombstone(call: CallId)
    | DeleteRows(call: CallId)
    | HandOff(call: CallId)
    | CrashSuppress(call: CallId)
    | SetPreference(enabled: bool)

  predicate RecordIs(a: Account, x: CallId, phase: Recording) {
    x in a.records && a.records[x] == phase
  }

  predicate SuppressIs(a: Account, x: CallId, phase: Suppressing) {
    x in a.suppressions && a.suppressions[x] == phase
  }

  function Moved(a: Account, x: CallId, phase: Recording): Account {
    a.(records := a.records[x := phase])
  }

  function Next(a: Account, step: Step): Account {
    match step
    case Record(x, e) =>
      if x in a.records then a else Moved(a, x, if InWindow(e) then ReadingPreference(e) else RecordDone(OutOfRange))
    case ReadPreference(x) =>
      if x in a.records && a.records[x].ReadingPreference? then
        Moved(a, x, if a.enabled && !a.tombstone then Inserting(a.records[x].event) else RecordDone(NotEnabled))
      else a
    case Insert(x) =>
      if x in a.records && a.records[x].Inserting? then
        Moved(a, x, Rechecking).(rows := a.rows[x := a.records[x].event])
      else a
    case Recheck(x) =>
      if RecordIs(a, x, Rechecking) then Moved(a, x, if a.tombstone then Withdrawing else RecordDone(Recorded)) else a
    case Withdraw(x) => if RecordIs(a, x, Withdrawing) then Moved(a, x, RecordDone(Withdrawn)).(rows := map[]) else a
    case CrashRecord(x) =>
      if x !in a.records || a.records[x].RecordDone? then a
      else if a.records[x].ReadingPreference? || a.records[x].Inserting? then Moved(a, x, RecordDone(FailedEarly))
      else Moved(a, x, RecordCrashed)
    case Suppress(x) => if x in a.suppressions then a else a.(suppressions := a.suppressions[x := Committing])
    case CommitTombstone(x) =>
      if SuppressIs(a, x, Committing) then a.(tombstone := true, suppressions := a.suppressions[x := Deleting]) else a
    case DeleteRows(x) =>
      if SuppressIs(a, x, Deleting) then a.(rows := map[], suppressions := a.suppressions[x := HandingOff]) else a
    case HandOff(x) =>
      if SuppressIs(a, x, HandingOff) then a.(suppressions := a.suppressions[x := HandedOff]) else a
    case CrashSuppress(x) =>
      if x in a.suppressions && a.suppressions[x] != HandedOff then a.(suppressions := a.suppressions[x := SuppressCrashed]) else a
    case SetPreference(enabled) => a.(enabled := enabled)
  }

  function Run(steps: seq<Step>): Account {
    if steps == [] then NEW_ACCOUNT else Next(Run(steps[..|steps| - 1]), steps[|steps| - 1])
  }

  // ----- what every interleaving keeps -----

  /** Some suppression has committed its tombstone and finished its delete (it may have crashed afterwards). */
  ghost predicate Deleted(steps: seq<Step>) {
    exists i :: 0 <= i < |steps| && DeletesAt(steps, i)
  }

  ghost predicate DeletesAt(steps: seq<Step>, i: nat)
    requires i < |steps|
  {
    steps[i].DeleteRows? && SuppressIs(Run(steps[..i]), steps[i].call, Deleting)
  }

  /** A call that has inserted its row and has not yet acted on what its re-check finds. */
  predicate Unchecked(a: Account, x: CallId) {
    RecordIs(a, x, Rechecking) || RecordIs(a, x, Withdrawing) || RecordIs(a, x, RecordCrashed)
  }

  ghost predicate InsertsInWindow(a: Account) {
    forall x <- a.records :: a.records[x].Inserting? || a.records[x].ReadingPreference? ==> InWindow(a.records[x].event)
  }

  ghost predicate RowsExplained(a: Account) {
    forall x <- a.rows :: InWindow(a.rows[x]) && x in a.records && !a.records[x].ReadingPreference? && !a.records[x].Inserting?
  }

  ghost predicate RecordedKept(a: Account) {
    forall x <- a.records :: a.records[x] == Rechecking || a.records[x] == RecordDone(Recorded) ==> x in a.rows || a.tombstone
  }

  ghost predicate TombstoneSeen(a: Account) {
    && (forall x <- a.records :: a.records[x] == Withdrawing || a.records[x] == RecordDone(Withdrawn) ==> a.tombstone)
    && (forall x <- a.suppressions :: a.suppressions[x] in {Deleting, HandingOff, HandedOff} ==> a.tombstone)
  }

  ghost predicate Accounted(a: Account) {
    InsertsInWindow(a) && RowsExplained(a) && RecordedKept(a) && TombstoneSeen(a)
  }

  ghost predicate OnlyUncheckedRows(a: Account) {
    a.tombstone && forall x <- a.rows :: Unchecked(a, x)
  }

  lemma StepStaysInWindow(a: Account, step: Step)
    requires InsertsInWindow(a) && RowsExplained(a)
    ensures InsertsInWindow(Next(a, step)) && RowsExplained(Next(a, step))
  {
    hide InWindow;
  }

  lemma StepKeepsRecorded(a: Account, step: Step)
    requires RecordedKept(a) && TombstoneSeen(a)
    ensures RecordedKept(Next(a, step)) && TombstoneSeen(Next(a, step))
  {
    hide InWindow;
  }

  lemma StepIsAccounted(a: Account, step: Step)
    requires Accounted(a)
    ensures Accounted(Next(a, step))
  {
    hide Next, InsertsInWindow, RowsExplained, RecordedKept, TombstoneSeen;
    StepStaysInWindow(a, step);
    StepKeepsRecorded(a, step);
  }

  lemma StepKeepsUnchecked(a: Account, step: Step)
    requires OnlyUncheckedRows(a)
    ensures OnlyUncheckedRows(Next(a, step))
  {}

  lemma {:induction false} RunIsAccounted(steps: seq<Step>)
    ensures Accounted(Run(steps))
  {
    if steps != [] {
      RunIsAccounted(steps[..|steps| - 1]);
      StepIsAccounted(Run(steps[..|steps| - 1]), steps[|steps| - 1]);
      hide Next, Accounted;
    }
  }

  lemma DeletedInPrefix(steps: seq<Step>)
    requires steps != [] && Deleted(steps)
    ensures Deleted(steps[..|steps| - 1]) || DeletesAt(steps, |steps| - 1)
  {
    var n := |steps| - 1;
    var i :| 0 <= i < |steps| && DeletesAt(steps, i);
    if i < n {
      assert steps[..n][..i] == steps[..i];
      assert DeletesAt(steps[..n], i);
    }
  }

  /**
   * From the moment one suppression has finished its delete, the only rows are those of record calls that
   * are still between their insert and the end of their re-check, or crashed there.
   */
  lemma {:induction false} OnlyUncheckedRowsSurvive(steps: seq<Step>)
    requires Deleted(steps)
    ensures OnlyUncheckedRows(Run(steps))
  {
    var n := |steps| - 1;
    RunIsAccounted(steps[..n]);
    DeletedInPrefix(steps);
    assert Run(steps) == Next(Run(steps[..n]), steps[n]);
    if Deleted(steps[..n]) {
      OnlyUncheckedRowsSurvive(steps[..n]);
      hide Run, Next, OnlyUncheckedRows, Deleted;
      StepKeepsUnchecked(Run(steps[..n]), steps[n]);
    } else {
      hide Run, Deleted;
      assert DeletesAt(steps, n);
    }
  }

  /**
   * No event row of a suppressed account survives: once a suppression has finished its delete and every
   * record call has ended, none of them by a crash between its insert and the end of its re-check, the
   * account has no row, in any interleaving.
   */
  lemma NoRowSurvivesSuppression(steps: seq<Step>)
    requires Deleted(steps)
    requires forall x <- Run(steps).records :: Run(steps).records[x].RecordDone?
    ensures Run(steps).rows == map[]
  {
    OnlyUncheckedRowsSurvive(steps);
    var a := Run(steps);
    hide Run;
    forall x ensures x !in a.rows {
      assert x in a.rows ==> Unchecked(a, x);
    }
  }

  /** Nothing recorded is lost while the account is not suppressed, and no row lies outside the time window. */
  lemma RecordedStays(steps: seq<Step>, x: CallId)
    ensures RecordIs(Run(steps), x, RecordDone(Recorded)) && !Run(steps).tombstone ==> x in Run(steps).rows
    ensures x in Run(steps).rows ==> InWindow(Run(steps).rows[x])
  {
    RunIsAccounted(steps);
    hide Run;
  }

  // ----- what the operations do when nothing interferes -----

  /** An event is in range when it is at most 72 hours old and at most 300 seconds ahead of its receipt. */
  lemma RangeIsExact(e: Event)
    ensures InWindow(e) <==> -259_200_000_000 <= e.occurredAtMicros - e.receivedAtMs * 1_000 <= 300_000_000
  {}

  /** Out of range nothing is even looked up; a disabled or suppressed account stores nothing. */
  lemma RefusedEvents(a: Account, x: CallId, e: Event)
    requires x !in a.records
    ensures !InWindow(e) ==> Next(a, Record(x, e)) == a.(records := a.records[x := RecordDone(OutOfRange)])
    ensures InWindow(e) && (!a.enabled || a.tombstone) ==>
              Next(Next(a, Record(x, e)), ReadPreference(x)) == a.(records := a.records[x := RecordDone(NotEnabled)])
  {
    hide InWindow;
    assert a.records[x := ReadingPreference(e)][x := RecordDone(NotEnabled)] == a.records[x := RecordDone(NotEnabled)];
  }

  /** An event of an enabled account is stored, and recorded if no tombstone has come by its re-check; otherwise all rows go. */
  lemma EnabledEventsAreStored(a: Account, x: CallId, e: Event)
    requires x !in a.records && InWindow(e) && a.enabled && !a.tombstone
    ensures var inserted := Next(Next(Next(a, Record(x, e)), ReadPreference(x)), Insert(x));
            && inserted == a.(rows := a.rows[x := e], records := a.records[x := Rechecking])
            && Next(inserted, Recheck(x)) == a.(rows := a.rows[x := e], records := a.records[x := RecordDone(Recorded)])
  {
    hide InWindow;
    var read := Next(a, Record(x, e));
    assert read.records == a.records[x := ReadingPreference(e)];
    var checked := Next(read, ReadPreference(x));
    assert checked.records == a.records[x := Inserting(e)];
    assert a.records[x := Inserting(e)][x := Rechecking] == a.records[x := Rechecking];
    assert a.records[x := Rechecking][x := RecordDone(Recorded)] == a.records[x := RecordDone(Recorded)];
  }

  lemma TombstonedEventsAreWithdrawn(a: Account, x: CallId)
    requires RecordIs(a, x, Rechecking) && a.tombstone
    ensures var t := Next(Next(a, Recheck(x)), Withdraw(x)); t.rows == map[] && RecordIs(t, x, RecordDone(Withdrawn))
    ensures Next(a, Recheck(x)).rows == a.rows
  {}

  /** A suppression commits its tombstone, then deletes every row, then hands off; the tombstone stays. */
  lemma SuppressionProceeds(a: Account, x: CallId)
    requires x !in a.suppressions
    ensures var begun := Next(a, Suppress(x));
            var committed := Next(begun, CommitTombstone(x));
            var deleted := Next(committed, DeleteRows(x));
            var handedOff := Next(deleted, HandOff(x));
            && begun.tombstone == a.tombstone && begun.rows == a.rows
            && committed.tombstone && committed.rows == a.rows
            && deleted.tombstone && deleted.rows == map[] && SuppressIs(deleted, x, HandingOff)
            && handedOff.tombstone && SuppressIs(handedOff, x, HandedOff)
  {}

  /** No operation is repeated or skipped: each acts only in its own phase of its own call. */
  lemma PhasesInOrder(a: Account, x: CallId, e: Event)
    ensures x in a.records ==> Next(a, Record(x, e)) == a
    ensures x !in a.records || !a.records[x].ReadingPreference? ==> Next(a, ReadPreference(x)) == a
    ensures x !in a.records || !a.records[x].Inserting? ==> Next(a, Insert(x)) == a
    ensures x !in a.records || !a.records[x].Rechecking? ==> Next(a, Recheck(x)) == a
    ensures x !in a.records || !a.records[x].Withdrawing? ==> Next(a, Withdraw(x)) == a
    ensures x in a.suppressions ==> Next(a, Suppress(x)) == a
    ensures x !in a.suppressions || !a.suppressions[x].Committing? ==> Next(a, CommitTombstone(x)) == a
    ensures x !in a.suppressions || !a.suppressions[x].Deleting? ==> Next(a, DeleteRows(x)) == a
    ensures x !in a.suppressions || !a.suppressions[x].HandingOff? ==> Next(a, HandOff(x)) == a
  {
    hide InWindow;
  }

  lemma TombstoneStays(a: Account, step: Step)
    ensures a.tombstone ==> Next(a, step).tombstone
    ensures Next(a, step).tombstone && !a.tombstone ==> step.CommitTombstone?
    ensures !step.SetPreference? ==> Next(a, step).enabled == a.enabled
    ensures step.SetPreference? ==> Next(a, step) == a.(enabled := step.enabled)
  {}

  /** A crash ends a call where it stands: before its insert nothing was stored, and a finished call cannot crash. */
  lemma CrashesStop(a: Account, x: CallId)
    ensures Next(a, CrashRecord(x)).rows == a.rows && Next(a, CrashSuppress(x)).rows == a.rows
    ensures x in a.records ==>
              var phase := Next(a, CrashRecord(x)).records[x];
              match a.records[x]
              case ReadingPreference(_) => phase == RecordDone(FailedEarly)
              case Inserting(_) => phase == RecordDone(FailedEarly)
              case RecordDone(outcome) => phase == RecordDone(outcome)
              case _ => phase == RecordCrashed
    ensures x in a.suppressions ==>
              Next(a, CrashSuppress(x)).suppressions[x] == if a.suppressions[x] == HandedOff then HandedOff else SuppressCrashed
  {}

  lemma DeletedStays(steps: seq<Step>)
    requires steps != [] && Deleted(steps[..|steps| - 1])
    ensures Deleted(steps)
  {
    var n := |steps| - 1;
    var i :| 0 <= i < n && DeletesAt(steps[..n], i);
    assert steps[..n][..i] == steps[..i];
    assert DeletesAt(steps, i);
  }

  predicate PastDelete(a: Account, x: CallId) {
    SuppressIs(a, x, HandingOff) || SuppressIs(a, x, HandedOff)
  }

  lemma DeleteComesFirst(a: Account, step: Step, x: CallId)
    requires !PastDelete(a, x) && PastDelete(Next(a, step), x)
    ensures step == DeleteRows(x) && SuppressIs(a, x, Deleting)
  {
    hide InWindow;
  }

  /** The order of a suppression is load-bearing: whatever was handed off, the rows were deleted after a tombstone before. */
  lemma {:induction false} HandedOffMeansDeleted(steps: seq<Step>, x: CallId)
    requires PastDelete(Run(steps), x)
    ensures Deleted(steps) && Run(steps).tombstone
  {
    var n := |steps| - 1;
    RunIsAccounted(steps);
    hide Next, Deleted, InsertsInWindow, RowsExplained, RecordedKept;
    if PastDelete(Run(steps[..n]), x) {
      HandedOffMeansDeleted(steps[..n], x);
      DeletedStays(steps);
    } else {
      DeleteComesFirst(Run(steps[..n]), steps[n], x);
      DeletesNow(steps);
    }
  }

  lemma DeletesNow(steps: seq<Step>)
    requires steps != [] && DeletesAt(steps, |steps| - 1)
    ensures Deleted(steps)
  {}

  lemma RunSnoc(steps: seq<Step>, step: Step)
    ensures Run(steps + [step]) == Next(Run(steps), step)
  {
    assert (steps + [step])[..|steps|] == steps;
  }

  /** The crash the guarantee excludes: a call that dies between its insert and its re-check leaves its row. */
  lemma CrashLeavesRow(e: Event) returns (steps: seq<Step>)
    requires InWindow(e)
    ensures Deleted(steps) && Run(steps).rows == map[0 := e] && Run(steps).records == map[0 := RecordCrashed]
  {
    steps := [];
    RunSnoc(steps, Record(0, e));
    steps := steps + [Record(0, e)];
    RunSnoc(steps, ReadPreference(0));
    steps := steps + [ReadPreference(0)];
    RunSnoc(steps, Suppress(1));
    steps := steps + [Suppress(1)];
    RunSnoc(steps, CommitTombstone(1));
    steps := steps + [CommitTombstone(1)];
    assert SuppressIs(Run(steps), 1, Deleting);
    ghost var before := steps;
    RunSnoc(steps, DeleteRows(1));
    steps := steps + [DeleteRows(1)];
    RunSnoc(steps, Insert(0));
    steps := steps + [Insert(0)];
    RunSnoc(steps, CrashRecord(0));
    steps := steps + [CrashRecord(0)];
    assert steps == before + [DeleteRows(1), Insert(0), CrashRecord(0)];
    assert |before| == 4 && steps[..4] == before && steps[4] == DeleteRows(1);
    assert DeletesAt(steps, 4);
  }

  // ----- the services over the stored account -----

  class AnalyticsStore {
    var enabled: bool
    var tombstone: bool
    var rows: map<CallId, Event>
    var records: map<CallId, Recording>
    var suppressions: map<CallId, Suppressing>

    function View(): Account
      reads this
    {
      Account(enabled, tombstone, rows, records, suppressions)
    }

    constructor ()
      ensures View() == NEW_ACCOUNT
    {
      enabled, tombstone, rows, records, suppressions := true, false, map[], map[], map[];
    }

    method DeleteForUserKey()
      modifies `rows
      ensures rows == map[]
    {
      rows := map[];
    }

    /** The stretch of `record` before its first database read. */
    method BeginRecord(x: CallId, e: Event)
      requires x !in records
      modifies this
      ensures View() == Next(old(View()), Record(x, e))
    {
      var receivedAtMicros := e.receivedAtMs * MICROS_PER_MILLISECOND;
      if e.occurredAtMicros < receivedAtMicros - MAX_EVENT_AGE_MICROS
        || e.occurredAtMicros > receivedAtMicros + MAX_EVENT_FUTURE_MICROS {
        records := records[x := RecordDone(OutOfRange)];
      } else {
        records := records[x := ReadingPreference(e)];
      }
    }

    method GetPreference(x: CallId)
      requires x in records && records[x].ReadingPreference?
      modifies this
      ensures View() == Next(old(View()), ReadPreference(x))
    {
      if tombstone || !enabled {
        records := records[x := RecordDone(NotEnabled)];
      } else {
        records := records[x := Inserting(records[x].event)];
      }
    }

    method InsertEvent(x: CallId)
      requires x in records && records[x].Inserting?
      modifies this
      ensures View() == Next(old(View()), Insert(x))
    {
      rows := rows[x := records[x].event];
      records := records[x := Rechecking];
    }

    method IsExportSuppressed(x: CallId) returns (suppressed: bool)
      requires RecordIs(View(), x, Rechecking)
      modifies this
      ensures View() == Next(old(View()), Recheck(x)) && suppressed == tombstone
    {
      suppressed := tombstone;
      records := records[x := if suppressed then Withdrawing else RecordDone(Recorded)];
    }

    method WithdrawEvent(x: CallId)
      requires RecordIs(View(), x, Withdrawing)
      modifies this
      ensures View() == Next(old(View()), Withdraw(x))
    {
      DeleteForUserKey();
      records := records[x := RecordDone(Withdrawn)];
    }

    method SuppressExport(x: CallId)
      requires SuppressIs(View(), x, Committing)
      modifies this
      ensures View() == Next(old(View()), CommitTombstone(x))
    {
      tombstone := true;
      suppressions := suppressions[x := Deleting];
    }

    method DeleteSuppressed(x: CallId)
      requires SuppressIs(View(), x, Deleting)
      modifies this
      ensures View() == Next(old(View()), DeleteRows(x))
    {
      DeleteForUserKey();
      suppressions := suppressions[x := HandingOff];
    }

    method HandOffTarget(x: CallId)
      requires SuppressIs(View(), x, HandingOff)
      modifies this
      ensures View() == Next(old(View()), HandOff(x))
    {
      suppressions := suppressions[x := HandedOff];
    }

    /** A suppression that nobody interrupts: tombstone, then delete, then hand-off. */
    method SuppressAndHandoff(x: CallId)
      requires SuppressIs(View(), x, Committing)
      modifies this
      ensures View() == Next(Next(Next(old(View()), CommitTombstone(x)), DeleteRows(x)), HandOff(x))
      ensures tombstone && rows == map[] && SuppressIs(View(), x, HandedOff)
    {
      SuppressExport(x);
      DeleteSuppressed(x);
      HandOffTarget(x);
    }
  }
}
