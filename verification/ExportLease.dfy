/**
 * The lease and the publication transaction of the product-analytics export. Any number of exporters run
 * at once, each with a fresh run id; each BigQuery script is one atomic step and either commits or leaves
 * everything as it was; the server's clock never runs backwards.
 */
module ExportLease {
  import opened Prelude

  type RunId = nat
  type Instant = int

  type Day = int

  const MILLISECONDS_PER_DAY := 24 * 60 * 60 * 1_000
  const DESKTOP_EVENT_WINDOW_DAYS := 7

  /** The rows of the staged, later published, tables; desktop events are kept by day. */
  datatype Tables = Tables(milestones: seq<nat>, cohorts: seq<nat>, desktop: map<Day, seq<nat>>)

  const NO_ROWS := Tables([], [], map[])

  /** The closed UTC days whose desktop events a run with this cutoff replaces. */
  predicate InDesktopWindow(day: Day, cutoff: Instant) {
    cutoff / MILLISECONDS_PER_DAY - DESKTOP_EVENT_WINDOW_DAYS <= day < cutoff / MILLISECONDS_PER_DAY
  }

  function EventsOn(desktop: map<Day, seq<nat>>, day: Day): seq<nat> {
    if day in desktop then desktop[day] else []
  }

  /** Milestones and cohorts are replaced as a whole, desktop events only within the window. */
  function Merged(before: Tables, staged: Tables, cutoff: Instant): Tables {
    Tables(
      staged.milestones,
      staged.cohorts,
      (map day | day in before.desktop && !InDesktopWindow(day, cutoff) :: before.desktop[day]) + staged.desktop)
  }

  /** The singleton state row. */
  datatype State = State(
    activeRun: Option<RunId>,
    leaseExpiresAt: Option<Instant>,
    lastPublishedRun: Option<RunId>,
    lastPublishedCutoff: Option<Instant>)

  const NO_STATE := State(None, None, None, None)

  /** What an exporter knows of its own run. */
  datatype Run = Run(cutoff: Instant, expiresAt: Instant, granted: bool, ended: bool)

  datatype Publication = Publication(run: RunId, cutoff: Instant, tables: Tables)

  datatype Warehouse = Warehouse(
    now: Instant,
    state: Option<State>,
    runs: map<RunId, Run>,
    staging: map<RunId, Tables>,
    published: Tables,
    history: seq<Publication>)

  const NEW_WAREHOUSE := Warehouse(0, None, map[], map[], NO_ROWS, [])

  function StateOf(w: Warehouse): State {
    w.state.GetOr(NO_STATE)
  }

  predicate IsNewer(cutoff: Instant, s: State) {
    s.lastPublishedCutoff.None? || s.lastPublishedCutoff.value < cutoff
  }

  predicate CanAcquire(s: State, cutoff: Instant, now: Instant) {
    && (s.activeRun.None? || (s.leaseExpiresAt.Some? && s.leaseExpiresAt.value <= now))
    && IsNewer(cutoff, s)
  }

  /** The row is created if it is missing; the script aborts, and creates nothing, unless it takes the lease. */
  function Acquire(w: Warehouse, r: RunId, cutoff: Instant, expiresAt: Instant): Warehouse {
    if r in w.runs || cutoff >= expiresAt then w
    else if !CanAcquire(StateOf(w), cutoff, w.now) then w.(runs := w.runs[r := Run(cutoff, expiresAt, false, true)])
    else
      w.(state := Some(StateOf(w).(activeRun := Some(r), leaseExpiresAt := Some(expiresAt))),
         runs := w.runs[r := Run(cutoff, expiresAt, true, false)],
         staging := w.staging[r := NO_ROWS])
  }

  /** The first assertion of the publication script. */
  predicate LeaseHeld(w: Warehouse, r: RunId, cutoff: Instant) {
    && w.state.Some?
    && w.state.value.activeRun == Some(r)
    && w.state.value.leaseExpiresAt.Some? && w.state.value.leaseExpiresAt.value > w.now
    && IsNewer(cutoff, w.state.value)
  }

  /** The number of rows the script's final update changes. */
  function RowsUpdated(w: Warehouse, r: RunId): nat {
    if w.state.Some? && w.state.value.activeRun == Some(r) then 1 else 0
  }

  function Promote(w: Warehouse, r: RunId): Warehouse {
    if r !in w.runs || !w.runs[r].granted || w.runs[r].ended || r !in w.staging then w
    else if !LeaseHeld(w, r, w.runs[r].cutoff) then w
    else if RowsUpdated(w, r) != 1 then w
    else
      w.(published := Merged(w.published, w.staging[r], w.runs[r].cutoff),
         history := w.history + [Publication(r, w.runs[r].cutoff, w.staging[r])],
         state := Some(State(None, None, Some(r), Some(w.runs[r].cutoff))),
         runs := w.runs[r := w.runs[r].(ended := true)])
  }

  function ReleaseLease(w: Warehouse, r: RunId): Warehouse {
    if r !in w.runs then w
    else
      var released := w.(runs := w.runs[r := w.runs[r].(ended := true)]);
      if w.state.Some? && w.state.value.activeRun == Some(r) then
        released.(state := Some(w.state.value.(activeRun := None, leaseExpiresAt := None)))
      else released
  }

  datatype Step =
    | TimePasses(now: Instant)
    | AcquireLease(run: RunId, cutoff: Instant, expiresAt: Instant)
    | Stage(run: RunId, tables: Tables)
    | DropStaging(run: RunId)
    | PromoteRun(run: RunId)
    | Release(run: RunId)

  /** Events are read by the window, so only its days are ever staged. */
  predicate StaysInWindow(tables: Tables, cutoff: Instant) {
    forall day <- tables.desktop :: InDesktopWindow(day, cutoff)
  }

  function Next(w: Warehouse, step: Step): Warehouse {
    match step
    case TimePasses(now) => if now < w.now then w else w.(now := now)
    case AcquireLease(r, cutoff, expiresAt) => Acquire(w, r, cutoff, expiresAt)
    case Stage(r, tables) =>
      if r in w.staging && r in w.runs && StaysInWindow(tables, w.runs[r].cutoff) then w.(staging := w.staging[r := tables])
      else w
    case DropStaging(r) => w.(staging := w.staging - {r})
    case PromoteRun(r) => Promote(w, r)
    case Release(r) => ReleaseLease(w, r)
  }

  function After(steps: seq<Step>): Warehouse {
    if steps == [] then NEW_WAREHOUSE else Next(After(steps[..|steps| - 1]), steps[|steps| - 1])
  }

  // ----- what every run of any number of exporters keeps -----

  /** An exporter that was granted the lease, has not ended, and whose lease has not run out. */
  predicate Holds(w: Warehouse, r: RunId) {
    r in w.runs && w.runs[r].granted && !w.runs[r].ended && w.runs[r].expiresAt > w.now
  }

  ghost predicate LeaseExact(w: Warehouse) {
    && (forall r <- w.runs :: Holds(w, r) ==> StateOf(w).activeRun == Some(r))
    && (StateOf(w).activeRun.Some? ==>
          var r := StateOf(w).activeRun.value;
          && r in w.runs && w.runs[r].granted && !w.runs[r].ended
          && StateOf(w).leaseExpiresAt == Some(w.runs[r].expiresAt)
          && IsNewer(w.runs[r].cutoff, StateOf(w)))
    && (forall r <- w.runs :: !w.runs[r].granted ==> w.runs[r].ended)
  }

  ghost predicate Ascending(history: seq<Publication>) {
    forall i, j :: 0 <= i < j < |history| ==> history[i].cutoff < history[j].cutoff
  }

  ghost predicate LastIsPublished(w: Warehouse) {
    if w.history == [] then
      w.published == NO_ROWS && StateOf(w).lastPublishedRun.None? && StateOf(w).lastPublishedCutoff.None?
    else
      var last := w.history[|w.history| - 1];
      && w.published.milestones == last.tables.milestones && w.published.cohorts == last.tables.cohorts
      && StateOf(w).lastPublishedRun == Some(last.run) && StateOf(w).lastPublishedCutoff == Some(last.cutoff)
  }

  ghost predicate HistoryExact(w: Warehouse) {
    Ascending(w.history) && LastIsPublished(w)
  }

  /** The events of a day as the last publication whose window covered the day staged them. */
  ghost function LastStaged(history: seq<Publication>, day: Day): seq<nat> {
    if history == [] then []
    else
      var last := history[|history| - 1];
      if InDesktopWindow(day, last.cutoff) then EventsOn(last.tables.desktop, day) else LastStaged(history[..|history| - 1], day)
  }

  ghost predicate StagingInWindow(w: Warehouse) {
    forall r <- w.staging :: r in w.runs && StaysInWindow(w.staging[r], w.runs[r].cutoff)
  }

  ghost predicate DesktopExact(w: Warehouse) {
    StagingInWindow(w) && forall day :: EventsOn(w.published.desktop, day) == LastStaged(w.history, day)
  }

  ghost predicate Valid(w: Warehouse) {
    LeaseExact(w) && HistoryExact(w) && DesktopExact(w)
  }

  lemma DesktopStaysExact(w: Warehouse, step: Step)
    requires DesktopExact(w)
    ensures DesktopExact(Next(w, step))
  {
    var v := Next(w, step);
    hide InDesktopWindow;
    if v.history != w.history {
      var p := v.history[|w.history|];
      assert v.history == w.history + [p] && v.history[..|w.history|] == w.history;
      forall day ensures EventsOn(v.published.desktop, day) == LastStaged(v.history, day) {
        assert EventsOn(w.published.desktop, day) == LastStaged(w.history, day);
        assert day in p.tables.desktop ==> InDesktopWindow(day, p.cutoff);
      }
    }
  }

  lemma LeaseStaysExact(w: Warehouse, step: Step)
    requires LeaseExact(w)
    ensures LeaseExact(Next(w, step))
  {
    var v := Next(w, step);
    forall r | Holds(v, r) ensures StateOf(v).activeRun == Some(r) {
      assert r in w.runs && w.runs[r].granted && !w.runs[r].ended ==> Holds(w, r);
    }
  }

  lemma NewerExtends(history: seq<Publication>, p: Publication)
    requires Ascending(history) && (history != [] ==> history[|history| - 1].cutoff < p.cutoff)
    ensures Ascending(history + [p])
  {
    forall i | 0 <= i < |history| ensures history[i].cutoff < p.cutoff {
      if i < |history| - 1 { assert history[i].cutoff < history[|history| - 1].cutoff; }
    }
  }

  lemma HistoryStaysExact(w: Warehouse, step: Step)
    requires Valid(w)
    ensures HistoryExact(Next(w, step))
  {
    if step.PromoteRun? && Next(w, step) != w {
      var r := step.run;
      assert IsNewer(w.runs[r].cutoff, StateOf(w));
      NewerExtends(w.history, Publication(r, w.runs[r].cutoff, w.staging[r]));
      hide Ascending, LeaseExact, DesktopExact;
    } else {
      hide Ascending, LeaseExact, DesktopExact;
    }
  }

  lemma {:induction false} AlwaysValid(steps: seq<Step>)
    ensures Valid(After(steps))
  {
    if steps != [] {
      AlwaysValid(steps[..|steps| - 1]);
      LeaseStaysExact(After(steps[..|steps| - 1]), steps[|steps| - 1]);
      HistoryStaysExact(After(steps[..|steps| - 1]), steps[|steps| - 1]);
      DesktopStaysExact(After(steps[..|steps| - 1]), steps[|steps| - 1]);
      hide Next, LeaseExact, HistoryExact, DesktopExact;
    }
  }

  /** There is never more than one exporter with an unexpired lease. */
  lemma OneHolder(steps: seq<Step>, r: RunId, q: RunId)
    requires Holds(After(steps), r) && Holds(After(steps), q)
    ensures r == q
  {
    AlwaysValid(steps);
    hide After, HistoryExact, DesktopExact;
    assert LeaseExact(After(steps));
  }

  /** Published cutoffs strictly increase, and milestones and cohorts are the staging of the last published run. */
  lemma PublishedIsLastPublication(steps: seq<Step>)
    ensures var w := After(steps);
            var last := if w.history == [] then NO_ROWS else w.history[|w.history| - 1].tables;
            && (forall i, j :: 0 <= i < j < |w.history| ==> w.history[i].cutoff < w.history[j].cutoff)
            && w.published.milestones == last.milestones && w.published.cohorts == last.cohorts
  {
    AlwaysValid(steps);
    hide After, LeaseExact, DesktopExact;
    assert HistoryExact(After(steps));
  }

  /** The desktop events of each day are those staged by the last published run whose window covered the day. */
  lemma DesktopDaysAreLastStaged(steps: seq<Step>, day: Day)
    ensures EventsOn(After(steps).published.desktop, day) == LastStaged(After(steps).history, day)
  {
    AlwaysValid(steps);
    hide After, LeaseExact, HistoryExact;
    assert DesktopExact(After(steps));
  }

  /** A publication happens exactly when the run still holds the lease and its staging is there. */
  lemma PublishesExactlyWhenHeld(w: Warehouse, r: RunId)
    requires Valid(w)
    ensures var v := Next(w, PromoteRun(r));
            if Holds(w, r) && r in w.staging then
              && v.history == w.history + [Publication(r, w.runs[r].cutoff, w.staging[r])]
              && v.published == Merged(w.published, w.staging[r], w.runs[r].cutoff)
            else v == w
  {}

  /** Only a publication changes what is published. */
  lemma OnlyPublicationsPublish(w: Warehouse, step: Step)
    ensures !step.PromoteRun? ==> Next(w, step).published == w.published && Next(w, step).history == w.history
    ensures Next(w, step).history == w.history ==> Next(w, step).published == w.published
  {}

  /** The days whose desktop events a run replaces: the seven whole UTC days before the day of its cutoff. */
  lemma WindowIsSevenClosedDays(day: Day, cutoff: Instant)
    ensures InDesktopWindow(day, cutoff) <==> (day + 1) * 86_400_000 <= cutoff < (day + 8) * 86_400_000
  {}

  /**
   * A new run takes the lease exactly when nobody holds it and every publication so far has an earlier
   * cutoff; then it holds the lease until it expires, with nothing staged. Otherwise its run is over, and
   * nothing else changes.
   */
  lemma AcquisitionDecides(w: Warehouse, r: RunId, cutoff: Instant, expiresAt: Instant)
    requires Valid(w) && r !in w.runs && cutoff < expiresAt
    ensures var v := Next(w, AcquireLease(r, cutoff, expiresAt));
            && r in v.runs && v.published == w.published && v.history == w.history && v.now == w.now
            && v.runs == w.runs[r := v.runs[r]] && v.runs[r].cutoff == cutoff && v.runs[r].expiresAt == expiresAt
            && if (forall q <- w.runs :: !Holds(w, q)) && (forall p <- w.history :: p.cutoff < cutoff)
               then v.runs[r].granted && !v.runs[r].ended && v.staging == w.staging[r := NO_ROWS] && v.state.Some?
               else !v.runs[r].granted && v.runs[r].ended && v.staging == w.staging && v.state == w.state
    ensures var v := Next(w, AcquireLease(r, cutoff, expiresAt));
            v.runs[r].granted && w.now < expiresAt ==> Holds(v, r)
  {
    var s := StateOf(w);
    NewerThanAll(w, cutoff);
    if s.activeRun.Some? {
      var q := s.activeRun.value;
      assert q in w.runs && (Holds(w, q) <==> s.leaseExpiresAt.value > w.now);
    }
    hide HistoryExact, DesktopExact;
  }

  lemma NewerThanAll(w: Warehouse, cutoff: Instant)
    requires HistoryExact(w)
    ensures IsNewer(cutoff, StateOf(w)) <==> forall p <- w.history :: p.cutoff < cutoff
  {
    if w.history != [] {
      var n := |w.history| - 1;
      forall p | p in w.history ensures p.cutoff <= w.history[n].cutoff {
        var i :| 0 <= i < |w.history| && w.history[i] == p;
        if i < n { assert w.history[i].cutoff < w.history[n].cutoff; }
      }
    }
  }

  /** A run id that is known, or a lease that would end before its cutoff, acquires nothing. */
  lemma BadAcquisition(w: Warehouse, r: RunId, cutoff: Instant, expiresAt: Instant)
    requires r in w.runs || cutoff >= expiresAt
    ensures Next(w, AcquireLease(r, cutoff, expiresAt)) == w
  {}

  /** Releasing ends the run; if it had the lease, the lease is free again for any newer run. */
  lemma ReleasingFrees(w: Warehouse, r: RunId)
    requires Valid(w) && r in w.runs
    ensures var v := Next(w, Release(r));
            && v.runs == w.runs[r := w.runs[r].(ended := true)] && !Holds(v, r)
            && v.published == w.published && v.history == w.history && v.staging == w.staging
            && (Holds(w, r) ==> v.state.value.activeRun.None? && v.state.value.leaseExpiresAt.None? && forall q <- v.runs :: !Holds(v, q))
            && (forall q <- w.runs :: q != r ==> (Holds(v, q) <==> Holds(w, q)))
  {
    hide HistoryExact, DesktopExact;
  }

  /** Staging is kept per run, as long as it stays within the days of the run; time only passes. */
  lemma StagingIsKept(w: Warehouse, r: RunId, tables: Tables, now: Instant)
    ensures Next(w, Stage(r, tables)) ==
            if r in w.staging && r in w.runs && (forall day <- tables.desktop :: InDesktopWindow(day, w.runs[r].cutoff))
            then w.(staging := w.staging[r := tables]) else w
    ensures Next(w, DropStaging(r)) == w.(staging := w.staging - {r})
    ensures now >= w.now ==> Next(w, TimePasses(now)) == w.(now := now)
  {}

  /**
   * A whole export: the lease is acquired, tables within the window are staged, and the publication
   * replaces milestones and cohorts as a whole and every day of the window, be it staged or not.
   */
  lemma ExportPublishes(w: Warehouse, r: RunId, cutoff: Instant, expiresAt: Instant, tables: Tables, day: Day)
    requires Valid(w) && r !in w.runs && cutoff < expiresAt && w.now < expiresAt
    requires (forall q <- w.runs :: !Holds(w, q)) && (forall p <- w.history :: p.cutoff < cutoff)
    requires forall d <- tables.desktop :: InDesktopWindow(d, cutoff)
    ensures var v := Next(Next(Next(w, AcquireLease(r, cutoff, expiresAt)), Stage(r, tables)), PromoteRun(r));
            && v.published.milestones == tables.milestones && v.published.cohorts == tables.cohorts
            && v.history == w.history + [Publication(r, cutoff, tables)]
            && (day in tables.desktop ==> day in v.published.desktop && v.published.desktop[day] == tables.desktop[day])
            && (InDesktopWindow(day, cutoff) && day !in tables.desktop ==> day !in v.published.desktop)
            && (!InDesktopWindow(day, cutoff) ==>
                  (day in v.published.desktop <==> day in w.published.desktop)
                  && (day in w.published.desktop ==> v.published.desktop[day] == w.published.desktop[day]))
            && !Holds(v, r)
  {
    AcquisitionDecides(w, r, cutoff, expiresAt);
    var acquired := Next(w, AcquireLease(r, cutoff, expiresAt));
    LeaseStaysExact(w, AcquireLease(r, cutoff, expiresAt));
    var staged := Next(acquired, Stage(r, tables));
    LeaseStaysExact(acquired, Stage(r, tables));
    assert Holds(staged, r) && staged.staging[r] == tables && staged.runs == acquired.runs;
    hide HistoryExact, DesktopExact, InDesktopWindow, Acquire;
  }

  /** From a new warehouse the run of an export is the export itself. */
  lemma FirstExport(r: RunId, cutoff: Instant, expiresAt: Instant, tables: Tables)
    requires 0 < expiresAt && cutoff < expiresAt && forall d <- tables.desktop :: InDesktopWindow(d, cutoff)
    ensures After([AcquireLease(r, cutoff, expiresAt), Stage(r, tables), PromoteRun(r)]).published == tables
    ensures forall day :: EventsOn(tables.desktop, day) == if day in tables.desktop then tables.desktop[day] else []
  {
    var steps := [AcquireLease(r, cutoff, expiresAt), Stage(r, tables), PromoteRun(r)];
    assert steps[..2] == [steps[0], steps[1]] && steps[..2][..1] == [steps[0]] && [steps[0]][..0] == [];
    assert After([]) == NEW_WAREHOUSE;
    assert After([steps[0]]) == Next(NEW_WAREHOUSE, steps[0]);
    assert After(steps[..2]) == Next(After([steps[0]]), steps[1]);
    assert After(steps) == Next(After(steps[..2]), steps[2]);
    AlwaysValid([]);
    forall day: Day { ExportPublishes(NEW_WAREHOUSE, r, cutoff, expiresAt, tables, day); }
    hide After, Next, Valid, InDesktopWindow;
    var w := Next(Next(Next(NEW_WAREHOUSE, steps[0]), steps[1]), steps[2]);
    assert forall day :: day in w.published.desktop <==> day in tables.desktop;
    assert w.published.desktop == tables.desktop;
  }

  /** With the lease held, the cutoff condition of the first assertion holds too, and the second assertion cannot fail. */
  lemma LaterGuardsNeverFire(steps: seq<Step>, r: RunId)
    requires var w := After(steps); w.state.Some? && w.state.value.activeRun == Some(r)
    ensures var w := After(steps); r in w.runs && IsNewer(w.runs[r].cutoff, w.state.value) && RowsUpdated(w, r) == 1
  {
    AlwaysValid(steps);
    hide After, HistoryExact, DesktopExact;
    assert LeaseExact(After(steps));
  }

  /** A run that is known, and does not have the lease now, will never have it again. */
  lemma NeverRegained(w: Warehouse, step: Step, r: RunId)
    requires r in w.runs && StateOf(w).activeRun != Some(r)
    ensures r in Next(w, step).runs && StateOf(Next(w, step)).activeRun != Some(r)
    ensures forall i :: |w.history| <= i < |Next(w, step).history| ==> Next(w, step).history[i].run != r
    ensures w.history <= Next(w, step).history
  {}

  /** A run that has been overtaken, has released its lease, or has published, never publishes (again). */
  lemma {:induction false} OvertakenForever(steps: seq<Step>, i: nat, r: RunId)
    requires i <= |steps| && r in After(steps[..i]).runs && StateOf(After(steps[..i])).activeRun != Some(r)
    ensures After(steps[..i]).history <= After(steps).history
    ensures forall p :: |After(steps[..i]).history| <= p < |After(steps).history| ==> After(steps).history[p].run != r
    decreases |steps| - i
  {
    if i == |steps| {
      assert steps[..i] == steps;
    } else {
      assert steps[..i + 1][..i] == steps[..i];
      assert After(steps[..i + 1]) == Next(After(steps[..i]), steps[i]);
      NeverRegained(After(steps[..i]), steps[i], r);
      hide After, Next;
      OvertakenForever(steps, i + 1, r);
    }
  }

  // ----- the repository over the warehouse -----

  class ProductAnalyticsExportRepository {
    var now: Instant
    var state: Option<State>
    var runs: map<RunId, Run>
    var staging: map<RunId, Tables>
    var published: Tables
    var history: seq<Publication>

    function View(): Warehouse
      reads this
    {
      Warehouse(now, state, runs, staging, published, history)
    }

    constructor ()
      ensures View() == NEW_WAREHOUSE
    {
      now, state, runs, staging, published, history := 0, None, map[], map[], NO_ROWS, [];
    }

    method BeginRun(r: RunId, cutoff: Instant, expiresAt: Instant) returns (begun: bool)
      requires r !in runs
      modifies this
      ensures View() == Acquire(old(View()), r, cutoff, expiresAt)
      ensures begun <==> cutoff < expiresAt && CanAcquire(StateOf(old(View())), cutoff, now)
    {
      if cutoff >= expiresAt { return false; }
      var row := state.GetOr(NO_STATE);
      var updated := 0;
      if (row.activeRun.None? || (row.leaseExpiresAt.Some? && row.leaseExpiresAt.value <= now))
        && (row.lastPublishedCutoff.None? || row.lastPublishedCutoff.value < cutoff) {
        row := row.(activeRun := Some(r), leaseExpiresAt := Some(expiresAt));
        updated := 1;
      }
      begun := updated == 1;
      if begun {
        state := Some(row);
        staging := staging[r := NO_ROWS];
      }
      runs := runs[r := Run(cutoff, expiresAt, begun, !begun)];
    }

    /** The publication script: both assertions abort it, and an aborted script leaves everything as it was. */
    method ValidateAndPromote(r: RunId) returns (done: bool)
      requires r in runs && runs[r].granted && !runs[r].ended && r in staging
      modifies this
      ensures View() == Promote(old(View()), r)
      ensures done <==> LeaseHeld(old(View()), r, old(runs)[r].cutoff)
    {
      var cutoff := runs[r].cutoff;
      if state.None? || state.value.activeRun != Some(r)
        || state.value.leaseExpiresAt.None? || state.value.leaseExpiresAt.value <= now
        || (state.value.lastPublishedCutoff.Some? && state.value.lastPublishedCutoff.value >= cutoff) {
        return false;
      }
      var kept := map day | day in published.desktop && !InDesktopWindow(day, cutoff) :: published.desktop[day];
      published := Tables(staging[r].milestones, staging[r].cohorts, kept + staging[r].desktop);
      history := history + [Publication(r, cutoff, staging[r])];
      var rowCount := 0;
      if state.value.activeRun == Some(r) {
        state := Some(State(None, None, Some(r), Some(cutoff)));
        rowCount := 1;
      }
      assert rowCount == 1;
      runs := runs[r := runs[r].(ended := true)];
      done := true;
    }

    method ReleaseRun(r: RunId)
      requires r in runs
      modifies this
      ensures View() == ReleaseLease(old(View()), r)
    {
      if state.Some? && state.value.activeRun == Some(r) {
        state := Some(state.value.(activeRun := None, leaseExpiresAt := None));
      }
      runs := runs[r := runs[r].(ended := true)];
    }
  }
}
