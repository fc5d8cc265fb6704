/**
 * The book-keeping of one product-analytics export: users are scanned and classified, rows of enabled
 * accounts are staged, weekly cohorts are counted, and rows of accounts whose preference changed late are
 * taken out again before anything is published. User keys are an injective function of user ids, so the
 * ids stand for them; days are counted from 1970-01-01.
 */
module ExportAccounting {
  import opened Prelude

  type UserId = nat
  type Instant = int
  type Day = int

  const MILLISECONDS_PER_DAY := 24 * 60 * 60 * 1_000

  datatype Source = Notification | Bridge | Legacy

  datatype Milestones = Milestones(notification: Option<Instant>, bridge: Option<Instant>, legacy: Option<Instant>)

  function At(m: Milestones, source: Source): Option<Instant> {
    match source
    case Notification => m.notification
    case Bridge => m.bridge
    case Legacy => m.legacy
  }

  datatype User = User(
    id: UserId,
    createdAt: Instant,
    suppressed: bool,
    prefersExport: bool,
    preferenceUpdatedAt: Instant,
    evidence: Milestones)

  /** The cutoff of the run, and the internal accounts it excludes, as the control table stood at its start. */
  datatype Context = Context(cutoff: Instant, internal: set<UserId>, controlUpdatedAt: Instant)

  /** The clock readings of a run: at its start, before the reconciliation, and before the controls are read again. */
  datatype Clocks = Clocks(startedAt: Instant, preferenceScanAt: Instant, finalControlAt: Instant)

  datatype Windows = Windows(day1: int, day7: int, day30: int)

  datatype Cohort = Cohort(total: int, enabled: int, notification: Windows, bridge: Windows, legacy: Windows)

  const EMPTY_COHORT := Cohort(0, 0, Windows(0, 0, 0), Windows(0, 0, 0), Windows(0, 0, 0))

  datatype Row = Row(createdAt: Instant, milestones: Milestones)

  datatype Books = Books(
    usersScanned: int,
    sourceSuppressed: int,
    internalUsers: int,
    externalAccounts: int,
    enabledAccounts: int,
    optedOutAccounts: int,
    afterCutoffAccounts: int,
    lateRemoved: int,
    rowsStaged: int,
    milestonesDropped: int,
    cohorts: map<Day, Cohort>,
    staged: map<UserId, Row>)

  const NEW_BOOKS := Books(0, 0, 0, 0, 0, 0, 0, 0, 0, 0, map[], map[])

  // ----- weeks -----

  function DayOf(at: Instant): Day { at / MILLISECONDS_PER_DAY }

  /** JavaScript's getUTCDay: Sunday is 0, and day 0 was a Thursday. */
  function UtcDay(day: Day): nat { (day + 4) % 7 }

  function CohortWeekFor(createdAt: Instant): Day {
    var day := DayOf(createdAt);
    var daysSinceMonday := (UtcDay(day) + 6) % 7;
    day - daysSinceMonday
  }

  /** BigQuery's DATE_TRUNC to WEEK(MONDAY): the last Monday not after the day. */
  function DateTruncToMonday(day: Day): Day
    decreases (day + 3) % 7
  {
    if UtcDay(day) == 1 then day else DateTruncToMonday(day - 1)
  }

  /** The program and the warehouse put an account into the same cohort. */
  lemma {:induction false} WeeksAgree(day: Day)
    ensures DateTruncToMonday(day) == day - (UtcDay(day) + 6) % 7
    ensures UtcDay(DateTruncToMonday(day)) == 1 && DateTruncToMonday(day) <= day < DateTruncToMonday(day) + 7
    decreases (day + 3) % 7
  {
    if UtcDay(day) != 1 {
      WeeksAgree(day - 1);
    }
  }

  /** The week of an account starts on the Monday, counted from Monday 1970-01-05, on or before its UTC day of creation. */
  lemma WeeksStartOnMonday(createdAt: Instant)
    ensures var monday := CohortWeekFor(createdAt);
            (monday - 4) % 7 == 0 && monday * 86_400_000 <= createdAt < (monday + 7) * 86_400_000
  {}

  // ----- scanning one user -----

  function KnownBy(at: Option<Instant>, cutoff: Instant): Option<Instant> {
    if at.Some? && at.value <= cutoff then at else None
  }

  function Sanitized(at: Option<Instant>, createdAt: Instant): Option<Instant> {
    if at.Some? && at.value < createdAt then None else at
  }

  /** What the activation store reports for the cutoff, without timestamps that precede the account. */
  function MilestonesOf(ctx: Context, u: User): Milestones {
    Milestones(
      Sanitized(KnownBy(u.evidence.notification, ctx.cutoff), u.createdAt),
      Sanitized(KnownBy(u.evidence.bridge, ctx.cutoff), u.createdAt),
      Sanitized(KnownBy(u.evidence.legacy, ctx.cutoff), u.createdAt))
  }

  function DroppedOf(ctx: Context, u: User): int {
    (if KnownBy(u.evidence.notification, ctx.cutoff) != MilestonesOf(ctx, u).notification then 1 else 0)
    + (if KnownBy(u.evidence.bridge, ctx.cutoff) != MilestonesOf(ctx, u).bridge then 1 else 0)
    + (if KnownBy(u.evidence.legacy, ctx.cutoff) != MilestonesOf(ctx, u).legacy then 1 else 0)
  }

  function OccurredWithin(at: Option<Instant>, createdAt: Instant, days: nat): bool {
    at.Some? && 0 <= at.value - createdAt <= days * MILLISECONDS_PER_DAY
  }

  function One(b: bool): int { if b then 1 else 0 }

  function Incremented(w: Windows, at: Option<Instant>, createdAt: Instant): Windows {
    Windows(
      w.day1 + One(OccurredWithin(at, createdAt, 1)),
      w.day7 + One(OccurredWithin(at, createdAt, 7)),
      w.day30 + One(OccurredWithin(at, createdAt, 30)))
  }

  function IncrementCohort(c: Cohort, createdAt: Instant, m: Milestones, enabled: bool): Cohort {
    Cohort(
      c.total + 1,
      c.enabled + One(enabled),
      Incremented(c.notification, m.notification, createdAt),
      Incremented(c.bridge, m.bridge, createdAt),
      Incremented(c.legacy, m.legacy, createdAt))
  }

  function CohortAt(cohorts: map<Day, Cohort>, week: Day): Cohort {
    if week in cohorts then cohorts[week] else EMPTY_COHORT
  }

  function ScanUser(ctx: Context, b: Books, u: User): Books {
    var seen := b.(usersScanned := b.usersScanned + 1);
    if u.suppressed then seen.(sourceSuppressed := b.sourceSuppressed + 1)
    else if u.id in ctx.internal then seen.(internalUsers := b.internalUsers + 1)
    else
      var known := u.preferenceUpdatedAt <= ctx.cutoff;
      var enabled := known && u.prefersExport;
      var week := CohortWeekFor(u.createdAt);
      seen.(
        externalAccounts := b.externalAccounts + 1,
        milestonesDropped := b.milestonesDropped + DroppedOf(ctx, u),
        afterCutoffAccounts := b.afterCutoffAccounts + One(!known),
        optedOutAccounts := b.optedOutAccounts + One(known && !enabled),
        cohorts := b.cohorts[week := IncrementCohort(CohortAt(b.cohorts, week), u.createdAt, MilestonesOf(ctx, u), enabled)],
        enabledAccounts := b.enabledAccounts + One(enabled),
        rowsStaged := b.rowsStaged + One(enabled),
        staged := if enabled then b.staged[u.id := Row(u.createdAt, MilestonesOf(ctx, u))] else b.staged)
  }

  // ----- what the books say -----

  datatype Kind = Suppressed | Internal | AfterCutoff | OptedOut | Enabled

  function KindOf(ctx: Context, u: User): Kind {
    if u.suppressed then Suppressed
    else if u.id in ctx.internal then Internal
    else if u.preferenceUpdatedAt > ctx.cutoff then AfterCutoff
    else if u.prefersExport then Enabled
    else OptedOut
  }

  predicate External(ctx: Context, u: User) {
    KindOf(ctx, u) != Suppressed && KindOf(ctx, u) != Internal
  }

  predicate InCohort(ctx: Context, u: User, week: Day) {
    External(ctx, u) && CohortWeekFor(u.createdAt) == week
  }

  ghost function CountKind(ctx: Context, users: seq<User>, kind: Kind): nat {
    if users == [] then 0
    else CountKind(ctx, users[..|users| - 1], kind) + if KindOf(ctx, users[|users| - 1]) == kind then 1 else 0
  }

  ghost function CountExternal(ctx: Context, users: seq<User>): nat {
    if users == [] then 0
    else CountExternal(ctx, users[..|users| - 1]) + if External(ctx, users[|users| - 1]) then 1 else 0
  }

  ghost function CountIn(ctx: Context, users: seq<User>, week: Day): nat {
    if users == [] then 0
    else CountIn(ctx, users[..|users| - 1], week) + if InCohort(ctx, users[|users| - 1], week) then 1 else 0
  }

  /** The user's own evidence of a source, when the account already existed and the cutoff had not passed. */
  predicate InTime(ctx: Context, u: User, at: Option<Instant>) {
    at.Some? && u.createdAt <= at.value <= ctx.cutoff
  }

  predicate InWindow(ctx: Context, u: User, week: Day, source: Source, days: nat) {
    && InCohort(ctx, u, week)
    && var at := match source
                 case Notification => u.evidence.notification
                 case Bridge => u.evidence.bridge
                 case Legacy => u.evidence.legacy;
       InTime(ctx, u, at) && at.value <= u.createdAt + days * 86_400_000
  }

  /** A row shows the account's creation and, of each source, the evidence that is in time. */
  ghost predicate Shows(ctx: Context, u: User, row: Row) {
    && row.createdAt == u.createdAt
    && row.milestones.notification == (if InTime(ctx, u, u.evidence.notification) then u.evidence.notification else None)
    && row.milestones.bridge == (if InTime(ctx, u, u.evidence.bridge) then u.evidence.bridge else None)
    && row.milestones.legacy == (if InTime(ctx, u, u.evidence.legacy) then u.evidence.legacy else None)
  }

  predicate Premature(ctx: Context, u: User, at: Option<Instant>) {
    at.Some? && at.value <= ctx.cutoff && at.value < u.createdAt
  }

  /** Evidence that precedes its account is dropped, and counted. */
  ghost function CountPremature(ctx: Context, users: seq<User>): nat {
    if users == [] then 0
    else
      var u := users[|users| - 1];
      CountPremature(ctx, users[..|users| - 1])
      + (if External(ctx, u) && Premature(ctx, u, u.evidence.notification) then 1 else 0)
      + (if External(ctx, u) && Premature(ctx, u, u.evidence.bridge) then 1 else 0)
      + (if External(ctx, u) && Premature(ctx, u, u.evidence.legacy) then 1 else 0)
  }

  ghost function CountWithin(ctx: Context, users: seq<User>, week: Day, source: Source, days: nat): nat {
    if users == [] then 0
    else CountWithin(ctx, users[..|users| - 1], week, source, days) + if InWindow(ctx, users[|users| - 1], week, source, days) then 1 else 0
  }

  ghost function WindowsOf(ctx: Context, users: seq<User>, week: Day, source: Source): Windows {
    Windows(
      CountWithin(ctx, users, week, source, 1),
      CountWithin(ctx, users, week, source, 7),
      CountWithin(ctx, users, week, source, 30))
  }

  /** The cohort of a week, counted from the users themselves. */
  ghost function CohortOf(ctx: Context, users: seq<User>, week: Day, enabled: int): Cohort {
    Cohort(
      CountIn(ctx, users, week), enabled,
      WindowsOf(ctx, users, week, Notification), WindowsOf(ctx, users, week, Bridge), WindowsOf(ctx, users, week, Legacy))
  }

  function StagedIn(staged: map<UserId, Row>, week: Day): set<UserId> {
    set id | id in staged && CohortWeekFor(staged[id].createdAt) == week
  }

  ghost function Totals(cohorts: map<Day, Cohort>): map<Day, int> {
    map w | w in cohorts :: cohorts[w].total
  }

  ghost function Enableds(cohorts: map<Day, Cohort>): map<Day, int> {
    map w | w in cohorts :: cohorts[w].enabled
  }

  /** Every counter of the scan is the number of users of its kind. */
  ghost predicate CountersRight(ctx: Context, seen: seq<User>, b: Books) {
    && b.usersScanned == |seen|
    && b.sourceSuppressed == CountKind(ctx, seen, Suppressed)
    && b.internalUsers == CountKind(ctx, seen, Internal)
    && b.afterCutoffAccounts == CountKind(ctx, seen, AfterCutoff)
    && b.optedOutAccounts == CountKind(ctx, seen, OptedOut)
    && b.enabledAccounts + b.lateRemoved == CountKind(ctx, seen, Enabled)
    && b.externalAccounts == CountExternal(ctx, seen)
    && b.milestonesDropped == CountPremature(ctx, seen)
  }

  ghost predicate CohortsRight(ctx: Context, seen: seq<User>, cohorts: map<Day, Cohort>) {
    && (forall w :: w in cohorts <==> CountIn(ctx, seen, w) > 0)
    && (forall w <- cohorts :: cohorts[w] == CohortOf(ctx, seen, w, cohorts[w].enabled))
  }

  /** The staged rows are those of the enabled accounts, less the ones observed to have changed late. */
  ghost predicate StagedRight(ctx: Context, seen: seq<User>, changed: set<UserId>, staged: map<UserId, Row>) {
    && (forall u <- seen :: u.id in staged <==> KindOf(ctx, u) == Enabled && u.id !in changed)
    && (forall u <- seen :: u.id in staged ==> Shows(ctx, u, staged[u.id]))
    && (forall id <- staged :: exists u :: u in seen && u.id == id)
  }

  /** Each cohort's enabled accounts are the staged rows of its week, and every staged row is counted. */
  ghost predicate EnabledMatch(cohorts: map<Day, Cohort>, staged: map<UserId, Row>) {
    && (forall w <- cohorts :: cohorts[w].enabled == |StagedIn(staged, w)|)
    && (forall id <- staged :: CohortWeekFor(staged[id].createdAt) in cohorts)
    && Sum(Enableds(cohorts)) == |staged|
  }

  ghost predicate EnabledRight(b: Books) {
    EnabledMatch(b.cohorts, b.staged) && |b.staged| == b.enabledAccounts == b.rowsStaged
  }

  ghost predicate Accurate(ctx: Context, seen: seq<User>, changed: set<UserId>, b: Books) {
    && CountersRight(ctx, seen, b)
    && CohortsRight(ctx, seen, b.cohorts)
    && StagedRight(ctx, seen, changed, b.staged)
    && EnabledRight(b)
    && Sum(Totals(b.cohorts)) == b.externalAccounts
  }

  // ----- the scan keeps the books right -----

  lemma RowShows(ctx: Context, u: User)
    ensures Shows(ctx, u, Row(u.createdAt, MilestonesOf(ctx, u)))
    ensures DroppedOf(ctx, u) == (if Premature(ctx, u, u.evidence.notification) then 1 else 0)
                                 + (if Premature(ctx, u, u.evidence.bridge) then 1 else 0)
                                 + (if Premature(ctx, u, u.evidence.legacy) then 1 else 0)
  {}

  lemma WindowsAgree(ctx: Context, u: User, source: Source, days: nat)
    requires External(ctx, u)
    ensures InWindow(ctx, u, CohortWeekFor(u.createdAt), source, days) <==>
            OccurredWithin(At(MilestonesOf(ctx, u), source), u.createdAt, days)
  {
    hide CohortWeekFor, External;
  }

  lemma Snoc(ctx: Context, seen: seq<User>, u: User)
    ensures forall k :: CountKind(ctx, seen + [u], k) == CountKind(ctx, seen, k) + if KindOf(ctx, u) == k then 1 else 0
    ensures CountExternal(ctx, seen + [u]) == CountExternal(ctx, seen) + if External(ctx, u) then 1 else 0
    ensures CountPremature(ctx, seen + [u]) == CountPremature(ctx, seen) + if !External(ctx, u) then 0 else
              (if Premature(ctx, u, u.evidence.notification) then 1 else 0)
              + (if Premature(ctx, u, u.evidence.bridge) then 1 else 0)
              + (if Premature(ctx, u, u.evidence.legacy) then 1 else 0)
    ensures forall w :: CountIn(ctx, seen + [u], w) == CountIn(ctx, seen, w) + if InCohort(ctx, u, w) then 1 else 0
    ensures forall w, s, d :: CountWithin(ctx, seen + [u], w, s, d) == CountWithin(ctx, seen, w, s, d) + if InWindow(ctx, u, w, s, d) then 1 else 0
  {
    assert (seen + [u])[..|seen|] == seen;
    hide KindOf, External, InCohort, InWindow, Premature;
  }

  lemma ScanCounts(ctx: Context, seen: seq<User>, b: Books, u: User)
    requires CountersRight(ctx, seen, b)
    ensures CountersRight(ctx, seen + [u], ScanUser(ctx, b, u))
  {
    Snoc(ctx, seen, u);
    RowShows(ctx, u);
    hide CountKind, CountExternal, CountPremature, Premature, CountIn, CountWithin, InWindow, InCohort, IncrementCohort, CohortWeekFor, MilestonesOf, DroppedOf;
  }

  lemma NobodyCounted(ctx: Context, seen: seq<User>, w: Day)
    requires CountIn(ctx, seen, w) == 0
    ensures CohortOf(ctx, seen, w, 0) == EMPTY_COHORT
  {
    forall s: Source, d: nat ensures CountWithin(ctx, seen, w, s, d) == 0 { WithinIsIn(ctx, seen, w, s, d); }
  }

  lemma {:induction false} WithinIsIn(ctx: Context, seen: seq<User>, w: Day, s: Source, d: nat)
    ensures CountWithin(ctx, seen, w, s, d) <= CountIn(ctx, seen, w)
  {
    if seen != [] {
      WithinIsIn(ctx, seen[..|seen| - 1], w, s, d);
      hide InCohort;
    }
  }

  lemma ScanCohort(ctx: Context, seen: seq<User>, u: User, c: Cohort, enabled: bool)
    requires External(ctx, u) && c == CohortOf(ctx, seen, CohortWeekFor(u.createdAt), c.enabled)
    ensures var week := CohortWeekFor(u.createdAt);
            IncrementCohort(c, u.createdAt, MilestonesOf(ctx, u), enabled)
            == CohortOf(ctx, seen + [u], week, c.enabled + One(enabled))
  {
    Snoc(ctx, seen, u);
    forall source: Source, days: nat
      ensures InWindow(ctx, u, CohortWeekFor(u.createdAt), source, days) <==>
              OccurredWithin(At(MilestonesOf(ctx, u), source), u.createdAt, days)
    {
      WindowsAgree(ctx, u, source, days);
    }
    hide CountKind, CountIn, CountWithin, CohortWeekFor, External, MilestonesOf, OccurredWithin, InWindow;
  }

  lemma ScanCohorts(ctx: Context, seen: seq<User>, b: Books, u: User)
    requires CohortsRight(ctx, seen, b.cohorts)
    ensures CohortsRight(ctx, seen + [u], ScanUser(ctx, b, u).cohorts)
  {
    var t, week := ScanUser(ctx, b, u).cohorts, CohortWeekFor(u.createdAt);
    Snoc(ctx, seen, u);
    if External(ctx, u) {
      if week !in b.cohorts { NobodyCounted(ctx, seen, week); }
      ScanCohort(ctx, seen, u, CohortAt(b.cohorts, week), KindOf(ctx, u) == Enabled);
    }
    hide CountKind, CountIn, CountWithin, IncrementCohort, CohortWeekFor, MilestonesOf, DroppedOf;
  }

  predicate IsNew(seen: seq<User>, u: User) {
    forall v <- seen :: v.id != u.id
  }

  lemma ScanStages(ctx: Context, seen: seq<User>, b: Books, u: User)
    requires StagedRight(ctx, seen, {}, b.staged) && IsNew(seen, u)
    ensures StagedRight(ctx, seen + [u], {}, ScanUser(ctx, b, u).staged) && u.id !in b.staged
  {
    RowShows(ctx, u);
    hide IncrementCohort, CohortWeekFor, MilestonesOf, DroppedOf, Shows;
    var t := ScanUser(ctx, b, u).staged;
    forall id | id in t ensures exists v :: v in seen + [u] && v.id == id {
      if id in b.staged {
        var v :| v in seen && v.id == id;
        assert v in seen + [u];
      } else {
        assert u in seen + [u];
      }
    }
  }

  lemma StagedAfterPut(staged: map<UserId, Row>, id: UserId, row: Row, w: Day)
    requires id !in staged
    ensures StagedIn(staged[id := row], w) == StagedIn(staged, w) + if CohortWeekFor(row.createdAt) == w then {id} else {}
    ensures id !in StagedIn(staged, w)
  {
    hide CohortWeekFor;
  }

  /** A new row joins the cohort of its week and no other. */
  lemma StagedOneMore(staged: map<UserId, Row>, id: UserId, row: Row)
    requires id !in staged
    ensures forall w :: |StagedIn(staged[id := row], w)| == |StagedIn(staged, w)| + if CohortWeekFor(row.createdAt) == w then 1 else 0
    ensures |staged[id := row]| == |staged| + 1
  {
    hide CohortWeekFor, StagedIn;
    SizeAfterPut(staged, id, row);
    forall w ensures |StagedIn(staged[id := row], w)| == |StagedIn(staged, w)| + if CohortWeekFor(row.createdAt) == w then 1 else 0 {
      StagedAfterPut(staged, id, row, w);
    }
  }

  lemma SumsAfterPut(cohorts: map<Day, Cohort>, w: Day, c: Cohort)
    ensures Sum(Totals(cohorts[w := c])) == Sum(Totals(cohorts)) - CohortAt(cohorts, w).total + c.total
    ensures Sum(Enableds(cohorts[w := c])) == Sum(Enableds(cohorts)) - CohortAt(cohorts, w).enabled + c.enabled
  {
    assert Totals(cohorts[w := c]) == Totals(cohorts)[w := c.total];
    assert Enableds(cohorts[w := c]) == Enableds(cohorts)[w := c.enabled];
    SumUpdate(Totals(cohorts), w, c.total);
    SumUpdate(Enableds(cohorts), w, c.enabled);
  }

  lemma EmptyWeek(cohorts: map<Day, Cohort>, staged: map<UserId, Row>, w: Day)
    requires EnabledMatch(cohorts, staged)
    ensures CohortAt(cohorts, w).enabled == |StagedIn(staged, w)|
  {
    hide CohortWeekFor;
    if w !in cohorts {
      assert StagedIn(staged, w) == {};
    }
  }

  lemma PutEnabled(cohorts: map<Day, Cohort>, staged: map<UserId, Row>, c: Cohort, id: UserId, row: Row)
    requires EnabledMatch(cohorts, staged) && id !in staged
    requires c.enabled == CohortAt(cohorts, CohortWeekFor(row.createdAt)).enabled + 1
    ensures EnabledMatch(cohorts[CohortWeekFor(row.createdAt) := c], staged[id := row])
  {
    var week := CohortWeekFor(row.createdAt);
    EmptyWeek(cohorts, staged, week);
    StagedOneMore(staged, id, row);
    SumsAfterPut(cohorts, week, c);
    hide CohortWeekFor, StagedIn, Enableds, Sum;
  }

  lemma PutNotEnabled(cohorts: map<Day, Cohort>, staged: map<UserId, Row>, week: Day, c: Cohort)
    requires EnabledMatch(cohorts, staged) && c.enabled == CohortAt(cohorts, week).enabled
    ensures EnabledMatch(cohorts[week := c], staged)
  {
    EmptyWeek(cohorts, staged, week);
    SumsAfterPut(cohorts, week, c);
    hide CohortWeekFor, StagedIn, Enableds, Sum;
  }

  lemma ScanEnabled(ctx: Context, b: Books, u: User)
    requires EnabledRight(b) && u.id !in b.staged && Sum(Totals(b.cohorts)) == b.externalAccounts
    ensures var t := ScanUser(ctx, b, u); EnabledRight(t) && Sum(Totals(t.cohorts)) == t.externalAccounts
  {
    hide CohortWeekFor, MilestonesOf, DroppedOf, Incremented, EnabledMatch, Totals, Enableds, Sum;
    if External(ctx, u) { ScanExternal(ctx, b, u); }
  }

  lemma ScanExternal(ctx: Context, b: Books, u: User)
    requires External(ctx, u)
    requires EnabledRight(b) && u.id !in b.staged && Sum(Totals(b.cohorts)) == b.externalAccounts
    ensures var t := ScanUser(ctx, b, u); EnabledRight(t) && Sum(Totals(t.cohorts)) == t.externalAccounts
  {
    hide CohortWeekFor, MilestonesOf, DroppedOf, Incremented, EnabledMatch, Totals, Enableds, Sum;
    var t, week, row := ScanUser(ctx, b, u), CohortWeekFor(u.createdAt), Row(u.createdAt, MilestonesOf(ctx, u));
    SumsAfterPut(b.cohorts, week, t.cohorts[week]);
    if KindOf(ctx, u) == Enabled {
      PutEnabled(b.cohorts, b.staged, t.cohorts[week], u.id, row);
      SizeAfterPut(b.staged, u.id, row);
    } else {
      PutNotEnabled(b.cohorts, b.staged, week, t.cohorts[week]);
    }
  }

  lemma ScanKeepsBooks(ctx: Context, seen: seq<User>, b: Books, u: User)
    requires Accurate(ctx, seen, {}, b) && IsNew(seen, u)
    ensures Accurate(ctx, seen + [u], {}, ScanUser(ctx, b, u))
  {
    hide CountersRight, CohortsRight, StagedRight, EnabledRight, ScanUser;
    ScanCounts(ctx, seen, b, u);
    ScanCohorts(ctx, seen, b, u);
    ScanStages(ctx, seen, b, u);
    ScanEnabled(ctx, b, u);
  }

  // ----- taking late changes out again -----

  function WarehouseWeek(createdAt: Instant): Day {
    DateTruncToMonday(DayOf(createdAt))
  }

  function InWarehouseWeek(rows: map<UserId, Row>, week: Day): set<UserId> {
    set id | id in rows && WarehouseWeek(rows[id].createdAt) == week
  }

  /** The rows to be removed, counted by week as the warehouse groups them. */
  function GroupedByWarehouse(removed: map<UserId, Row>): map<Day, int> {
    map w | w in (set id | id in removed :: WarehouseWeek(removed[id].createdAt)) :: |InWarehouseWeek(removed, w)|
  }

  lemma WarehouseGroupsByCohort(removed: map<UserId, Row>)
    ensures GroupedByWarehouse(removed) == RemovedPerWeek(removed)
  {
    forall id | id in removed ensures WarehouseWeek(removed[id].createdAt) == CohortWeekFor(removed[id].createdAt) {
      WeeksAgree(DayOf(removed[id].createdAt));
    }
    hide WarehouseWeek, CohortWeekFor;
    assert (set id | id in removed :: WarehouseWeek(removed[id].createdAt)) == (set id | id in removed :: CohortWeekFor(removed[id].createdAt));
    forall w ensures StagedIn(removed, w) == InWarehouseWeek(removed, w) {}
  }

  /** The same rows, counted by the cohort week the program computes. */
  function RemovedPerWeek(removed: map<UserId, Row>): map<Day, int> {
    map w | w in (set id | id in removed :: CohortWeekFor(removed[id].createdAt)) :: |StagedIn(removed, w)|
  }

  function Without(staged: map<UserId, Row>, keys: set<UserId>): map<UserId, Row> {
    map id | id in staged && id !in keys :: staged[id]
  }

  function Only(staged: map<UserId, Row>, keys: set<UserId>): map<UserId, Row> {
    map id | id in staged && id in keys :: staged[id]
  }

  lemma SplitRows(staged: map<UserId, Row>, keys: set<UserId>)
    ensures |Without(staged, keys)| + |Only(staged, keys)| == |staged|
    ensures forall w :: |StagedIn(Without(staged, keys), w)| + |StagedIn(Only(staged, keys), w)| == |StagedIn(staged, w)|
  {
    hide CohortWeekFor;
    var kept, removed := Without(staged, keys), Only(staged, keys);
    assert kept.Keys + removed.Keys == staged.Keys && kept.Keys !! removed.Keys;
    assert |kept.Keys| + |removed.Keys| == |kept.Keys + removed.Keys|;
    forall w ensures |StagedIn(kept, w)| + |StagedIn(removed, w)| == |StagedIn(staged, w)| {
      assert StagedIn(kept, w) + StagedIn(removed, w) == StagedIn(staged, w);
      assert StagedIn(kept, w) !! StagedIn(removed, w);
    }
  }

  /** Rows removed from the staging table whose weeks are yet to be deducted from the cohorts. */
  ghost predicate Pending(cohorts: map<Day, Cohort>, staged: map<UserId, Row>, counts: map<Day, int>) {
    && (forall w <- cohorts :: cohorts[w].enabled == |StagedIn(staged, w)| + if w in counts then counts[w] else 0)
    && (forall id <- staged :: CohortWeekFor(staged[id].createdAt) in cohorts)
    && (forall w <- counts :: w in cohorts && counts[w] > 0)
    && Sum(Enableds(cohorts)) == |staged| + Sum(counts)
  }

  lemma CountedByWeek(rows: map<UserId, Row>, w: Day)
    ensures |StagedIn(rows, w)| == if w in RemovedPerWeek(rows) then RemovedPerWeek(rows)[w] else 0
    ensures w in RemovedPerWeek(rows) ==> RemovedPerWeek(rows)[w] > 0
  {
    hide CohortWeekFor;
    if w in RemovedPerWeek(rows) {
      var id :| id in rows && CohortWeekFor(rows[id].createdAt) == w;
      assert id in StagedIn(rows, w);
    } else {
      assert StagedIn(rows, w) == {};
    }
  }

  lemma PendingPerWeek(cohorts: map<Day, Cohort>, staged: map<UserId, Row>, keys: set<UserId>, w: Day)
    requires EnabledMatch(cohorts, staged)
    ensures var counts := RemovedPerWeek(Only(staged, keys));
            && (w in cohorts ==> cohorts[w].enabled == |StagedIn(Without(staged, keys), w)| + if w in counts then counts[w] else 0)
            && (w in counts ==> w in cohorts && counts[w] > 0)
  {
    hide CohortWeekFor, Sum, Enableds, StagedIn;
    var removed := Only(staged, keys);
    SplitRows(staged, keys);
    CountedByWeek(removed, w);
    if w in RemovedPerWeek(removed) {
      var id :| id in removed && CohortWeekFor(removed[id].createdAt) == w;
      assert staged[id] == removed[id];
    }
  }

  lemma PendingSums(cohorts: map<Day, Cohort>, staged: map<UserId, Row>, keys: set<UserId>)
    requires EnabledMatch(cohorts, staged)
    ensures forall id <- Without(staged, keys) :: CohortWeekFor(Without(staged, keys)[id].createdAt) in cohorts
    ensures Sum(RemovedPerWeek(Only(staged, keys))) == |Only(staged, keys)|
    ensures Sum(Enableds(cohorts)) == |Without(staged, keys)| + Sum(RemovedPerWeek(Only(staged, keys)))
  {
    hide CohortWeekFor, Sum, Enableds, StagedIn;
    SplitRows(staged, keys);
    RowsPerWeek(Only(staged, keys), RemovedPerWeek(Only(staged, keys)));
  }

  lemma RemovalIsPending(cohorts: map<Day, Cohort>, staged: map<UserId, Row>, keys: set<UserId>)
    requires EnabledMatch(cohorts, staged)
    ensures Pending(cohorts, Without(staged, keys), RemovedPerWeek(Only(staged, keys)))
    ensures Sum(RemovedPerWeek(Only(staged, keys))) == |Only(staged, keys)|
  {
    hide EnabledMatch, Without, Only, RemovedPerWeek, StagedIn, CohortWeekFor, Sum, Enableds;
    PendingSums(cohorts, staged, keys);
    forall w: Day
      ensures w in cohorts ==>
        cohorts[w].enabled == |StagedIn(Without(staged, keys), w)|
          + if w in RemovedPerWeek(Only(staged, keys)) then RemovedPerWeek(Only(staged, keys))[w] else 0
      ensures w in RemovedPerWeek(Only(staged, keys)) ==> w in cohorts && RemovedPerWeek(Only(staged, keys))[w] > 0
    {
      PendingPerWeek(cohorts, staged, keys, w);
    }
  }

  /** Rows counted week by week add up to the rows. */
  lemma {:induction false} RowsPerWeek(rows: map<UserId, Row>, counts: map<Day, int>)
    requires forall w <- counts :: counts[w] == |StagedIn(rows, w)|
    requires forall id <- rows :: CohortWeekFor(rows[id].createdAt) in counts
    ensures Sum(counts) == |rows|
    decreases |counts|
  {
    if counts == map[] {
      assert rows == map[];
    } else {
      var w := PickKey(counts);
      SumRemove(counts, w);
      hide Sum, CohortWeekFor;
      var others := Without(rows, StagedIn(rows, w));
      SplitRows(rows, StagedIn(rows, w));
      assert Only(rows, StagedIn(rows, w)).Keys == StagedIn(rows, w);
      forall v | v in counts - {w} ensures counts[v] == |StagedIn(others, v)| {
        assert StagedIn(others, v) == StagedIn(rows, v);
      }
      RowsPerWeek(others, counts - {w});
    }
  }

  function Deducted(c: Cohort, count: int): Cohort {
    c.(enabled := c.enabled - count)
  }

  /** The guard of the reconciliation holds for every pending week. */
  lemma DeductionFits(cohorts: map<Day, Cohort>, staged: map<UserId, Row>, counts: map<Day, int>, w: Day)
    requires Pending(cohorts, staged, counts) && w in counts
    ensures w in cohorts && counts[w] <= cohorts[w].enabled
  {
    hide CohortWeekFor, StagedIn, Enableds, Sum;
  }

  /** Deducting one week leaves the others pending. */
  lemma DeductWeek(cohorts: map<Day, Cohort>, staged: map<UserId, Row>, counts: map<Day, int>, w: Day)
    requires Pending(cohorts, staged, counts) && w in counts && w in cohorts
    ensures Pending(cohorts[w := Deducted(cohorts[w], counts[w])], staged, counts - {w})
    ensures Sum(Totals(cohorts[w := Deducted(cohorts[w], counts[w])])) == Sum(Totals(cohorts))
    ensures Sum(counts) == counts[w] + Sum(counts - {w})
  {
    hide CohortWeekFor, StagedIn, Totals, Enableds, Sum;
    SumsAfterPut(cohorts, w, Deducted(cohorts[w], counts[w]));
    SumRemove(counts, w);
  }

  lemma NothingPending(cohorts: map<Day, Cohort>, staged: map<UserId, Row>)
    requires Pending(cohorts, staged, map[])
    ensures EnabledMatch(cohorts, staged)
  {
    hide CohortWeekFor, StagedIn, Enableds;
    var none: map<Day, int> := map[];
    assert Sum(none) == 0;
  }

  lemma CohortsStayRight(ctx: Context, seen: seq<User>, cohorts: map<Day, Cohort>, w: Day, enabled: int)
    requires CohortsRight(ctx, seen, cohorts) && w in cohorts
    ensures CohortsRight(ctx, seen, cohorts[w := cohorts[w].(enabled := enabled)])
  {
    hide CountIn, WindowsOf;
  }

  lemma RemovalStages(ctx: Context, seen: seq<User>, changed: set<UserId>, staged: map<UserId, Row>, keys: set<UserId>)
    requires StagedRight(ctx, seen, changed, staged)
    ensures StagedRight(ctx, seen, changed + keys, Without(staged, keys))
  {
    hide KindOf, Shows;
  }

  function DeductBooks(b: Books, w: Day, count: int): Books
    requires w in b.cohorts
  {
    b.(cohorts := b.cohorts[w := Deducted(b.cohorts[w], count)],
       enabledAccounts := b.enabledAccounts - count,
       rowsStaged := b.rowsStaged - count,
       lateRemoved := b.lateRemoved + count)
  }

  /** The books while removed rows are being taken out of the cohorts week by week. */
  ghost predicate Reconciling(ctx: Context, seen: seq<User>, changed: set<UserId>, b: Books, counts: map<Day, int>) {
    && CountersRight(ctx, seen, b)
    && CohortsRight(ctx, seen, b.cohorts)
    && StagedRight(ctx, seen, changed, b.staged)
    && Pending(b.cohorts, b.staged, counts)
    && b.enabledAccounts == b.rowsStaged == |b.staged| + Sum(counts)
    && Sum(Totals(b.cohorts)) == b.externalAccounts
  }

  lemma RemovalStartsReconciling(ctx: Context, seen: seq<User>, changed: set<UserId>, b: Books, keys: set<UserId>)
    requires Accurate(ctx, seen, changed, b)
    ensures Reconciling(ctx, seen, changed + keys, b.(staged := Without(b.staged, keys)), RemovedPerWeek(Only(b.staged, keys)))
  {
    hide CohortsRight, StagedRight, Totals, Sum, Enableds, StagedIn;
    RemovalStages(ctx, seen, changed, b.staged, keys);
    RemovalIsPending(b.cohorts, b.staged, keys);
    SplitRows(b.staged, keys);
    hide EnabledMatch, Pending, Without, Only, RemovedPerWeek;
  }

  lemma DeductionReconciles(ctx: Context, seen: seq<User>, changed: set<UserId>, b: Books, counts: map<Day, int>, w: Day)
    requires Reconciling(ctx, seen, changed, b, counts) && w in counts && w in b.cohorts
    ensures Reconciling(ctx, seen, changed, DeductBooks(b, w, counts[w]), counts - {w})
  {
    hide CohortsRight, StagedRight, Pending, Totals, Sum, CountKind;
    DeductWeek(b.cohorts, b.staged, counts, w);
    CohortsStayRight(ctx, seen, b.cohorts, w, b.cohorts[w].enabled - counts[w]);
  }

  lemma ReconciliationEnds(ctx: Context, seen: seq<User>, changed: set<UserId>, b: Books)
    requires Reconciling(ctx, seen, changed, b, map[])
    ensures Accurate(ctx, seen, changed, b)
  {
    var none: map<Day, int> := map[];
    assert Sum(none) == 0;
    hide CohortsRight, StagedRight, Totals, Sum, CountKind, Pending;
    NothingPending(b.cohorts, b.staged);
  }

  // ----- what accurate books mean -----

  datatype Change = Change(id: UserId, suppressed: bool)

  function Ids(changes: seq<Change>): set<UserId> {
    set c | c in changes :: c.id
  }

  /** Every user is of exactly one kind, and external ones are of exactly three of them. */
  lemma {:induction false} KindsAddUp(ctx: Context, users: seq<User>)
    ensures CountExternal(ctx, users) == CountKind(ctx, users, AfterCutoff) + CountKind(ctx, users, OptedOut) + CountKind(ctx, users, Enabled)
    ensures |users| == CountKind(ctx, users, Suppressed) + CountKind(ctx, users, Internal) + CountExternal(ctx, users)
  {
    if users != [] {
      KindsAddUp(ctx, users[..|users| - 1]);
      hide KindOf;
    }
  }

  /** Nobody is lost and nobody is counted twice: each total splits into its parts, and each part reaches a total. */
  ghost predicate Conserved(users: int, b: Books) {
    && users == b.usersScanned == b.sourceSuppressed + b.internalUsers + b.externalAccounts
    && b.externalAccounts == b.enabledAccounts + b.optedOutAccounts + b.afterCutoffAccounts + b.lateRemoved
    && b.externalAccounts == Sum(Totals(b.cohorts))
    && |b.staged| == b.rowsStaged == b.enabledAccounts == Sum(Enableds(b.cohorts))
  }

  lemma AccountsAreConserved(ctx: Context, seen: seq<User>, changed: set<UserId>, b: Books)
    requires Accurate(ctx, seen, changed, b)
    ensures Conserved(|seen|, b)
  {
    KindsAddUp(ctx, seen);
    hide CohortsRight, StagedRight, Totals, Enableds, Sum, CountKind, CountExternal;
  }

  /** The published rows are those of the accounts that had opted in by the cutoff, less the ones seen to change late. */
  ghost predicate PublishesExactly(ctx: Context, users: seq<User>, changes: seq<Change>, staged: map<UserId, Row>) {
    && (forall u <- users :: u.id in staged <==>
          && !u.suppressed && u.id !in ctx.internal
          && u.prefersExport && u.preferenceUpdatedAt <= ctx.cutoff
          && forall c <- changes :: c.id != u.id)
    && (forall c <- changes :: c.id !in staged)
    && (forall id <- staged :: exists u :: u in users && u.id == id && Shows(ctx, u, staged[id]))
  }

  lemma AccurateBooksPublish(ctx: Context, seen: seq<User>, changes: seq<Change>, b: Books)
    requires Accurate(ctx, seen, Ids(changes), b)
    ensures PublishesExactly(ctx, seen, changes, b.staged)
  {
    hide CountersRight, CohortsRight, EnabledRight, Totals, Sum, Shows;
    var changed := Ids(changes);
    assert forall id :: id in changed <==> exists c :: c in changes && c.id == id;
    forall u | u in seen ensures u.id in changed <==> exists c :: c in changes && c.id == u.id {}
    forall id | id in b.staged
      ensures id !in changed && exists u :: u in seen && u.id == id && Shows(ctx, u, b.staged[id])
    {
      var u :| u in seen && u.id == id;
      assert u.id !in changed;
      assert Shows(ctx, u, b.staged[id]);
    }
    forall c | c in changes ensures c.id !in b.staged {
      assert c.id in changed;
    }
  }

  lemma LateChangesAreOut(ctx: Context, seen: seq<User>, changes: seq<Change>, staged: map<UserId, Row>)
    requires PublishesExactly(ctx, seen, changes, staged)
    ensures forall c <- changes :: c.id !in staged
  {}

  lemma AccurateBooksShow(ctx: Context, seen: seq<User>, changed: set<UserId>, b: Books)
    requires Accurate(ctx, seen, changed, b)
    ensures forall u, v: Instant :: u in seen && u.id in b.staged ==>
              var m := b.staged[u.id].milestones;
              && (m.notification == Some(v) <==> u.evidence.notification == Some(v) && u.createdAt <= v <= ctx.cutoff)
              && (m.bridge == Some(v) <==> u.evidence.bridge == Some(v) && u.createdAt <= v <= ctx.cutoff)
              && (m.legacy == Some(v) <==> u.evidence.legacy == Some(v) && u.createdAt <= v <= ctx.cutoff)
    ensures CohortsRight(ctx, seen, b.cohorts)
  {
    hide CountersRight, CohortsRight, EnabledRight, Totals, Sum, KindOf;
  }

  lemma {:induction false} WiderWindowsCountMore(ctx: Context, seen: seq<User>, w: Day, s: Source, d: nat, e: nat)
    requires d <= e
    ensures CountWithin(ctx, seen, w, s, d) <= CountWithin(ctx, seen, w, s, e) <= CountIn(ctx, seen, w)
  {
    if seen != [] {
      WiderWindowsCountMore(ctx, seen[..|seen| - 1], w, s, d, e);
      var u := seen[|seen| - 1];
      assert InWindow(ctx, u, w, s, d) ==> InWindow(ctx, u, w, s, e);
      hide InCohort, InTime;
    }
  }

  lemma {:induction false} CohortIsLargeEnough(ctx: Context, seen: seq<User>, w: Day, ids: set<UserId>)
    requires forall id <- ids :: exists u :: u in seen && u.id == id && InCohort(ctx, u, w)
    ensures |ids| <= CountIn(ctx, seen, w)
  {
    if seen == [] {
      assert ids == {};
    } else {
      var u, rest := seen[|seen| - 1], seen[..|seen| - 1];
      hide InCohort;
      var fewer := if InCohort(ctx, u, w) then ids - {u.id} else ids;
      forall id | id in fewer ensures exists v :: v in rest && v.id == id && InCohort(ctx, v, w) {
        var v :| v in seen && v.id == id && InCohort(ctx, v, w);
        assert v in rest || v == u;
      }
      CohortIsLargeEnough(ctx, rest, w, fewer);
      if u.id in ids { assert |ids - {u.id}| == |ids| - 1; } else { assert ids - {u.id} == ids; }
    }
  }

  predicate Nested(w: Windows, total: int) {
    0 <= w.day1 <= w.day7 <= w.day30 <= total
  }

  predicate CohortIsValid(c: Cohort) {
    0 <= c.enabled <= c.total && Nested(c.notification, c.total) && Nested(c.bridge, c.total) && Nested(c.legacy, c.total)
  }

  lemma CohortsAreValid(ctx: Context, seen: seq<User>, changed: set<UserId>, b: Books, w: Day)
    requires Accurate(ctx, seen, changed, b) && w in b.cohorts
    ensures CohortIsValid(b.cohorts[w])
  {
    assert b.cohorts[w] == CohortOf(ctx, seen, w, b.cohorts[w].enabled);
    assert b.cohorts[w].enabled == |StagedIn(b.staged, w)|;
    forall s: Source ensures Nested(WindowsOf(ctx, seen, w, s), CountIn(ctx, seen, w)) {
      WiderWindowsCountMore(ctx, seen, w, s, 1, 7);
      WiderWindowsCountMore(ctx, seen, w, s, 7, 30);
    }
    hide CountersRight, CohortsRight, EnabledRight, Totals, Sum, CountIn, CountWithin, CohortWeekFor;
    forall id | id in StagedIn(b.staged, w) ensures exists u :: u in seen && u.id == id && InCohort(ctx, u, w) {
      var u :| u in seen && u.id == id;
      assert Shows(ctx, u, b.staged[id]);
      assert InCohort(ctx, u, w);
    }
    CohortIsLargeEnough(ctx, seen, w, StagedIn(b.staged, w));
  }

  predicate InLifetime(at: Option<Instant>, createdAt: Instant, cutoff: Instant) {
    at.None? || createdAt <= at.value <= cutoff
  }

  predicate RowIsValid(row: Row, cutoff: Instant) {
    && row.createdAt <= cutoff
    && InLifetime(row.milestones.notification, row.createdAt, cutoff)
    && InLifetime(row.milestones.bridge, row.createdAt, cutoff)
    && InLifetime(row.milestones.legacy, row.createdAt, cutoff)
  }

  /** The validation query before publication, with the expectations the run passes to it. */
  ghost predicate Validates(ctx: Context, b: Books) {
    && |b.staged| == b.rowsStaged
    && (forall id <- b.staged :: RowIsValid(b.staged[id], ctx.cutoff))
    && Sum(Totals(b.cohorts)) == b.externalAccounts
    && Sum(Enableds(b.cohorts)) == b.enabledAccounts
    && (forall w <- b.cohorts :: CohortIsValid(b.cohorts[w]))
  }

  /** What the validation rejects: a milestone outside the life of its account, windows or opt-ins out of proportion, totals that do not add up. */
  lemma ValidationRejects(ctx: Context, b: Books, id: UserId, w: Day)
    ensures id in b.staged && Validates(ctx, b) ==>
              var row, m := b.staged[id], b.staged[id].milestones;
              && row.createdAt <= ctx.cutoff
              && (m.notification.Some? ==> row.createdAt <= m.notification.value <= ctx.cutoff)
              && (m.bridge.Some? ==> row.createdAt <= m.bridge.value <= ctx.cutoff)
              && (m.legacy.Some? ==> row.createdAt <= m.legacy.value <= ctx.cutoff)
    ensures w in b.cohorts && Validates(ctx, b) ==>
              var c := b.cohorts[w];
              && 0 <= c.enabled <= c.total
              && 0 <= c.notification.day1 <= c.notification.day7 <= c.notification.day30 <= c.total
              && 0 <= c.bridge.day1 <= c.bridge.day7 <= c.bridge.day30 <= c.total
              && 0 <= c.legacy.day1 <= c.legacy.day7 <= c.legacy.day30 <= c.total
    ensures Validates(ctx, b) ==>
              |b.staged| == b.rowsStaged && Sum(Totals(b.cohorts)) == b.externalAccounts && Sum(Enableds(b.cohorts)) == b.enabledAccounts
  {
    hide Totals, Enableds, Sum;
  }

  lemma RowsAreValid(ctx: Context, seen: seq<User>, changed: set<UserId>, b: Books, id: UserId)
    requires Accurate(ctx, seen, changed, b) && (forall u <- seen :: u.createdAt <= ctx.cutoff) && id in b.staged
    ensures RowIsValid(b.staged[id], ctx.cutoff)
  {
    hide CountersRight, CohortsRight, EnabledRight, Totals, Sum, KindOf;
    var u :| u in seen && u.id == id;
    assert Shows(ctx, u, b.staged[id]);
  }

  /** Accurate books always pass it. */
  lemma AccurateBooksValidate(ctx: Context, seen: seq<User>, changed: set<UserId>, b: Books)
    requires Accurate(ctx, seen, changed, b) && forall u <- seen :: u.createdAt <= ctx.cutoff
    ensures Validates(ctx, b)
  {
    AccountsAreConserved(ctx, seen, changed, b);
    hide Accurate, Totals, Enableds, Sum, CohortIsValid, RowIsValid;
    forall w | w in b.cohorts ensures CohortIsValid(b.cohorts[w]) { CohortsAreValid(ctx, seen, changed, b, w); }
    forall id | id in b.staged ensures RowIsValid(b.staged[id], ctx.cutoff) { RowsAreValid(ctx, seen, changed, b, id); }
  }

  // ----- the export run -----

  ghost function Flat<T>(pages: seq<seq<T>>): seq<T> {
    if pages == [] then [] else Flat(pages[..|pages| - 1]) + pages[|pages| - 1]
  }

  /** A cursor over user ids never reads the same user twice. */
  ghost predicate AllNew(users: seq<User>) {
    forall i, j :: 0 <= i < j < |users| ==> users[i].id != users[j].id
  }

  lemma NewBooksAreRight(ctx: Context)
    ensures Accurate(ctx, [], {}, NEW_BOOKS)
  {
    assert Totals(map[]) == map[] && Enableds(map[]) == map[];
    assert forall w :: StagedIn(map[], w) == {};
  }

  class ExportRun {
    const ctx: Context
    var books: Books
    ghost var seen: seq<User>
    ghost var changed: set<UserId>

    ghost predicate Valid()
      reads this
    {
      Accurate(ctx, seen, changed, books)
    }

    constructor (ctx: Context)
      ensures Valid() && this.ctx == ctx && seen == [] && changed == {} && books == NEW_BOOKS
    {
      this.ctx := ctx;
      books, seen, changed := NEW_BOOKS, [], {};
      new;
      NewBooksAreRight(ctx);
    }

    method ScanBatch(users: seq<User>)
      requires Valid() && changed == {} && AllNew(seen + users)
      modifies this
      ensures Valid() && seen == old(seen) + users && changed == {}
    {
      hide Accurate, ScanUser;
      var i := 0;
      while i < |users|
        invariant 0 <= i <= |users| && Valid() && changed == {}
        invariant seen == old(seen) + users[..i]
      {
        NotSeenYet(old(seen), users, i);
        ScanKeepsBooks(ctx, seen, books, users[i]);
        assert seen + [users[i]] == old(seen) + users[..i + 1];
        books := ScanUser(ctx, books, users[i]);
        seen := seen + [users[i]];
        i := i + 1;
      }
      assert users[..i] == users;
    }

    /** Deletes the rows of the keys from the staging table and reports how many there were in each week. */
    method RemoveUserKeys(keys: set<UserId>) returns (removedByCohort: map<Day, int>)
      modifies `books
      ensures books == old(books).(staged := Without(old(books).staged, keys))
      ensures removedByCohort == GroupedByWarehouse(Only(old(books).staged, keys))
    {
      removedByCohort := GroupedByWarehouse(Only(books.staged, keys));
      books := books.(staged := Without(books.staged, keys));
    }

    /**
     * One page of late preference changes. It fails only for an observed suppression: the guard on each
     * week's count holds whenever it is evaluated.
     */
    method ReconcileBatch(changes: seq<Change>) returns (ok: bool)
      requires Valid()
      modifies this
      ensures ok <==> forall c <- changes :: !c.suppressed
      ensures seen == old(seen)
      ensures ok ==> Valid() && changed == old(changed) + Ids(changes)
    {
      if exists c :: c in changes && c.suppressed { return false; }
      hide Accurate, Reconciling, RemovedPerWeek, GroupedByWarehouse, Without, Only, DeductBooks;
      var keys := Ids(changes);
      RemovalStartsReconciling(ctx, seen, changed, books, keys);
      WarehouseGroupsByCohort(Only(books.staged, keys));
      var rest := RemoveUserKeys(keys);
      changed := changed + keys;
      DeductRemoved(rest);
      ok := true;
    }

    /** Takes the removed rows out of their cohorts, week by week. */
    method DeductRemoved(removedByCohort: map<Day, int>)
      requires Reconciling(ctx, seen, changed, books, removedByCohort)
      modifies `books
      ensures Valid()
    {
      hide Accurate, Reconciling, DeductBooks;
      var rest := removedByCohort;
      while rest != map[]
        invariant Reconciling(ctx, seen, changed, books, rest)
        decreases |rest|
      {
        ghost var some := PickKey(rest);
        assert some in rest;
        var w :| w in rest;
        GuardHolds(ctx, seen, changed, books, rest, w);
        var withinCohort := w in books.cohorts && rest[w] <= books.cohorts[w].enabled;
        assert withinCohort;
        DeductionReconciles(ctx, seen, changed, books, rest, w);
        books := DeductBooks(books, w, rest[w]);
        SizeAfterDrop(rest, w);
        rest := rest - {w};
      }
      ReconciliationEnds(ctx, seen, changed, books);
    }
  }

  lemma GuardHolds(ctx: Context, seen: seq<User>, changed: set<UserId>, b: Books, counts: map<Day, int>, w: Day)
    requires Reconciling(ctx, seen, changed, b, counts) && w in counts
    ensures w in b.cohorts && counts[w] <= b.cohorts[w].enabled
  {
    DeductionFits(b.cohorts, b.staged, counts, w);
  }

  predicate ClocksInOrder(ctx: Context, clocks: Clocks) {
    ctx.cutoff <= clocks.startedAt && ctx.cutoff <= clocks.preferenceScanAt <= clocks.finalControlAt
  }

  /**
   * A whole run: scan every page, reconcile every page of late changes, compare the controls, publish. Its
   * own checks fail exactly when a clock reading is out of order, a late suppression is observed or the
   * controls changed meanwhile. In what it publishes every user of the scan is accounted for once, the rows
   * are those of the enabled accounts that did not change late, and the validation query passes.
   */
  method RunExport(ctx: Context, clocks: Clocks, pages: seq<seq<User>>, changePages: seq<seq<Change>>,
                   finalInternal: set<UserId>, finalUpdatedAt: Instant)
    returns (r: Option<Books>)
    requires AllNew(Flat(pages)) && forall u <- Flat(pages) :: u.createdAt <= ctx.cutoff
    ensures r.Some? <==>
              && ClocksInOrder(ctx, clocks)
              && (forall c <- Flat(changePages) :: !c.suppressed)
              && finalInternal == ctx.internal && finalUpdatedAt == ctx.controlUpdatedAt
    ensures r.Some? ==> Conserved(|Flat(pages)|, r.value)
    ensures r.Some? ==> forall c <- Flat(changePages) :: c.id !in r.value.staged
    ensures r.Some? ==> PublishesExactly(ctx, Flat(pages), Flat(changePages), r.value.staged)
    ensures r.Some? ==> forall u, v: Instant :: u in Flat(pages) && u.id in r.value.staged ==>
              var m := r.value.staged[u.id].milestones;
              && (m.notification == Some(v) <==> u.evidence.notification == Some(v) && u.createdAt <= v <= ctx.cutoff)
              && (m.bridge == Some(v) <==> u.evidence.bridge == Some(v) && u.createdAt <= v <= ctx.cutoff)
              && (m.legacy == Some(v) <==> u.evidence.legacy == Some(v) && u.createdAt <= v <= ctx.cutoff)
    ensures r.Some? ==> CohortsRight(ctx, Flat(pages), r.value.cohorts)
    ensures r.Some? ==> Accurate(ctx, Flat(pages), Ids(Flat(changePages)), r.value) && Validates(ctx, r.value)
  {
    hide Accurate, Validates, Conserved, PublishesExactly, CohortsRight;
    if ctx.cutoff > clocks.startedAt { return None; }
    var run := new ExportRun(ctx);
    var i := 0;
    while i < |pages|
      invariant 0 <= i <= |pages| && run.Valid() && run.seen == Flat(pages[..i]) && run.changed == {}
    {
      FlatPrefix(pages, i);
      AllNewPrefix(Flat(pages), Flat(pages[..i + 1]));
      run.ScanBatch(pages[i]);
      i := i + 1;
    }
    assert pages[..i] == pages;
    if clocks.preferenceScanAt < ctx.cutoff { return None; }
    var j := 0;
    while j < |changePages|
      invariant 0 <= j <= |changePages| && run.Valid() && run.seen == Flat(pages)
      invariant run.changed == Ids(Flat(changePages[..j]))
      invariant forall c <- Flat(changePages[..j]) :: !c.suppressed
    {
      FlatPrefix(changePages, j);
      var ok := run.ReconcileBatch(changePages[j]);
      if !ok {
        var c :| c in changePages[j] && c.suppressed;
        assert c in Flat(changePages[..j + 1]) && Flat(changePages[..j + 1]) <= Flat(changePages);
        return None;
      }
      assert Ids(Flat(changePages[..j + 1])) == Ids(Flat(changePages[..j])) + Ids(changePages[j]);
      j := j + 1;
    }
    assert changePages[..j] == changePages;
    if clocks.finalControlAt < clocks.preferenceScanAt { return None; }
    if finalUpdatedAt != ctx.controlUpdatedAt || finalInternal != ctx.internal { return None; }
    AccurateBooksValidate(ctx, run.seen, run.changed, run.books);
    AccountsAreConserved(ctx, run.seen, run.changed, run.books);
    AccurateBooksPublish(ctx, run.seen, Flat(changePages), run.books);
    LateChangesAreOut(ctx, run.seen, Flat(changePages), run.books.staged);
    AccurateBooksShow(ctx, run.seen, run.changed, run.books);
    r := Some(run.books);
  }

  lemma {:induction false} FlatPrefix<T>(pages: seq<seq<T>>, i: nat)
    requires i < |pages|
    ensures Flat(pages[..i + 1]) == Flat(pages[..i]) + pages[i]
    ensures Flat(pages[..i + 1]) <= Flat(pages)
    decreases |pages| - i
  {
    assert pages[..i + 1][..i] == pages[..i];
    if i + 1 == |pages| {
      assert pages[..i + 1] == pages;
    } else {
      FlatPrefix(pages, i + 1);
    }
  }

  lemma AllNewPrefix(users: seq<User>, prefix: seq<User>)
    requires AllNew(users) && prefix <= users
    ensures AllNew(prefix)
  {}

  lemma NotSeenYet(before: seq<User>, users: seq<User>, i: nat)
    requires AllNew(before + users) && i < |users|
    ensures IsNew(before + users[..i], users[i])
  {
    forall v | v in before + users[..i] ensures v.id != users[i].id {
      var j :| 0 <= j < |before| + i && (before + users[..i])[j] == v;
      assert (before + users)[j] == v && (before + users)[|before| + i] == users[i];
    }
  }
}
