/**
 * Activation milestones of one user and the reminders built on them: a two-stage aggregation and the
 * hand-written reconstruction of its result, the backfill, the reminder markers, and a sweep that runs
 * while others keep recording.
 */
module Activation {
  import opened Prelude

  type Instant = int

  datatype State = State(
    mobileSetupAt: Option<Instant>,
    bridgeSetupAt: Option<Instant>,
    firstSessionAt: Option<Instant>,
    bridgeBaseAt: Option<Instant>,
    sessionBaseAt: Option<Instant>,
    bridge1SentAt: Option<Instant>,
    bridge2SentAt: Option<Instant>,
    sessionSentAt: Option<Instant>,
    backfilledAt: Option<Instant>,
    updatedAt: Instant)

  function Created(at: Instant): State {
    State(None, None, None, None, None, None, None, None, None, at)
  }

  datatype Update = Update(mobile: Option<Instant>, bridge: Option<Instant>, session: Option<Instant>)

  /** MongoDB's $ifNull. */
  function IfNull(a: Option<Instant>, b: Option<Instant>): Option<Instant> {
    if a.Some? then a else b
  }

  // ----- recording: the aggregation and its reconstruction -----

  /** The first $set stage; every expression reads the document as it came in. */
  function FirstStage(s: State, u: Update, at: Instant): State {
    s.(mobileSetupAt := IfNull(s.mobileSetupAt, u.mobile),
       bridgeSetupAt := IfNull(s.bridgeSetupAt, u.bridge),
       firstSessionAt :=
         if u.session.None? then s.firstSessionAt
         else if s.firstSessionAt.None? || u.session.value < s.firstSessionAt.value then u.session
         else s.firstSessionAt,
       bridgeBaseAt := IfNull(s.bridgeBaseAt, IfNull(s.mobileSetupAt, u.mobile)),
       updatedAt := at)
  }

  /** The second $set stage reads what the first produced. */
  function SecondStage(s: State): State {
    s.(sessionBaseAt := IfNull(s.sessionBaseAt,
         if s.mobileSetupAt.Some? && s.bridgeSetupAt.Some? then
           if s.mobileSetupAt.value >= s.bridgeSetupAt.value then s.mobileSetupAt else s.bridgeSetupAt
         else None))
  }

  function Pipeline(s: State, u: Update, at: Instant): State {
    SecondStage(FirstStage(s, u, at))
  }

  datatype RecordResult = RecordResult(state: State, recorded: Update)

  /** What the caller is told, rebuilt from the pre-image the atomic update returned. */
  function PostImage(previous: State, u: Update, at: Instant): RecordResult {
    var mobile := if previous.mobileSetupAt.Some? then previous.mobileSetupAt else u.mobile;
    var bridge := if previous.bridgeSetupAt.Some? then previous.bridgeSetupAt else u.bridge;
    var session :=
      if u.session.Some? && (previous.firstSessionAt.None? || u.session.value < previous.firstSessionAt.value) then u.session
      else previous.firstSessionAt;
    var bridgeBase :=
      if previous.bridgeBaseAt.Some? then previous.bridgeBaseAt
      else if previous.mobileSetupAt.Some? then previous.mobileSetupAt
      else u.mobile;
    var sessionBase :=
      if previous.sessionBaseAt.Some? then previous.sessionBaseAt
      else if mobile.Some? && bridge.Some? then (if mobile.value >= bridge.value then mobile else bridge)
      else None;
    RecordResult(
      previous.(mobileSetupAt := mobile, bridgeSetupAt := bridge, firstSessionAt := session,
                bridgeBaseAt := bridgeBase, sessionBaseAt := sessionBase, updatedAt := at),
      Update(
        if previous.mobileSetupAt.None? then u.mobile else None,
        if previous.bridgeSetupAt.None? then u.bridge else None,
        if previous.firstSessionAt.None? then u.session else None))
  }

  /** On every pre-image the reconstruction is what the database stored. */
  lemma PostImageIsStored(s: State, u: Update, at: Instant)
    ensures PostImage(s, u, at).state == Pipeline(s, u, at)
    ensures var r := PostImage(s, u, at).recorded;
            && (r.mobile.Some? <==> s.mobileSetupAt.None? && Pipeline(s, u, at).mobileSetupAt.Some?)
            && (r.bridge.Some? <==> s.bridgeSetupAt.None? && Pipeline(s, u, at).bridgeSetupAt.Some?)
            && (r.session.Some? <==> s.firstSessionAt.None? && Pipeline(s, u, at).firstSessionAt.Some?)
            && r.mobile == (if s.mobileSetupAt.None? then u.mobile else None)
            && r.bridge == (if s.bridgeSetupAt.None? then u.bridge else None)
            && r.session == (if s.firstSessionAt.None? then u.session else None)
  {}

  // ----- backfill and markers -----

  datatype Backfill = Backfill(
    mobile: Option<Instant>,
    bridge: Option<Instant>,
    session: Option<Instant>,
    reminderBase: Option<Instant>,
    at: Instant)

  function Backfilled(s: State, b: Backfill, now: Instant): State {
    if s.backfilledAt.Some? then s
    else
      var first := s.(
        mobileSetupAt := IfNull(s.mobileSetupAt, b.mobile),
        bridgeSetupAt := IfNull(s.bridgeSetupAt, b.bridge),
        firstSessionAt := IfNull(s.firstSessionAt, b.session));
      first.(
        bridgeBaseAt :=
          if b.reminderBase.Some? && first.mobileSetupAt.Some? && first.bridgeSetupAt.None? && first.bridge2SentAt.None?
          then b.reminderBase else first.bridgeBaseAt,
        sessionBaseAt :=
          if b.reminderBase.Some? && first.mobileSetupAt.Some? && first.bridgeSetupAt.Some?
             && first.firstSessionAt.None? && first.sessionSentAt.None?
          then b.reminderBase else first.sessionBaseAt,
        backfilledAt := Some(b.at),
        updatedAt := now)
  }

  datatype Kind = Bridge1 | Bridge2 | Session

  predicate NotAfter(at: Option<Instant>, cutoff: Instant) {
    at.Some? && at.value <= cutoff
  }

  predicate Eligible(s: State, kind: Kind, cutoff: Instant) {
    match kind
    case Bridge1 => s.bridgeSetupAt.None? && s.bridge1SentAt.None? && NotAfter(s.bridgeBaseAt, cutoff)
    case Bridge2 =>
      s.bridgeSetupAt.None? && s.bridge1SentAt.Some? && s.bridge2SentAt.None? && NotAfter(s.bridgeBaseAt, cutoff)
    case Session => s.firstSessionAt.None? && s.sessionSentAt.None? && NotAfter(s.sessionBaseAt, cutoff)
  }

  function Marker(s: State, kind: Kind): Option<Instant> {
    match kind
    case Bridge1 => s.bridge1SentAt
    case Bridge2 => s.bridge2SentAt
    case Session => s.sessionSentAt
  }

  function Marked(s: State, kind: Kind, cutoff: Instant, sentAt: Instant): State {
    if !Eligible(s, kind, cutoff) then s
    else
      match kind
      case Bridge1 => s.(bridge1SentAt := Some(sentAt), updatedAt := sentAt)
      case Bridge2 => s.(bridge2SentAt := Some(sentAt), updatedAt := sentAt)
      case Session => s.(sessionSentAt := Some(sentAt), updatedAt := sentAt)
  }

  datatype Step =
    | Record(update: Update, at: Instant)
    | ApplyBackfill(backfill: Backfill, now: Instant)
    | Mark(kind: Kind, cutoff: Instant, sentAt: Instant)

  function Next(s: State, step: Step): State {
    match step
    case Record(u, at) => Pipeline(s, u, at)
    case ApplyBackfill(b, now) => Backfilled(s, b, now)
    case Mark(kind, cutoff, sentAt) => Marked(s, kind, cutoff, sentAt)
  }

  function Run(created: Instant, steps: seq<Step>): State {
    if steps == [] then Created(created) else Next(Run(created, steps[..|steps| - 1]), steps[|steps| - 1])
  }

  // ----- write-once -----

  predicate Kept(a: Option<Instant>, b: Option<Instant>) {
    a.Some? ==> b == a
  }

  /** What no operation ever takes back or overwrites. */
  predicate Follows(s: State, t: State) {
    && Kept(s.mobileSetupAt, t.mobileSetupAt) && Kept(s.bridgeSetupAt, t.bridgeSetupAt)
    && Kept(s.bridge1SentAt, t.bridge1SentAt) && Kept(s.bridge2SentAt, t.bridge2SentAt) && Kept(s.sessionSentAt, t.sessionSentAt)
    && Kept(s.backfilledAt, t.backfilledAt)
    && (s.firstSessionAt.Some? ==> t.firstSessionAt.Some? && t.firstSessionAt.value <= s.firstSessionAt.value)
  }

  lemma StepFollows(s: State, step: Step)
    ensures Follows(s, Next(s, step))
  {}

  lemma {:induction false} WriteOnce(created: Instant, steps: seq<Step>, i: nat)
    requires i <= |steps|
    ensures Follows(Run(created, steps[..i]), Run(created, steps))
    decreases |steps| - i
  {
    if i == |steps| {
      assert steps[..i] == steps;
    } else {
      assert steps[..i + 1][..i] == steps[..i];
      assert Run(created, steps[..i + 1]) == Next(Run(created, steps[..i]), steps[i]);
      StepFollows(Run(created, steps[..i]), steps[i]);
      WriteOnce(created, steps, i + 1);
      hide Run, Next;
    }
  }

  datatype Milestone = Mobile | BridgeSetup | FirstSession

  function Of(u: Update, m: Milestone): Option<Instant> {
    match m
    case Mobile => u.mobile
    case BridgeSetup => u.bridge
    case FirstSession => u.session
  }

  function Stored(s: State, m: Milestone): Option<Instant> {
    match m
    case Mobile => s.mobileSetupAt
    case BridgeSetup => s.bridgeSetupAt
    case FirstSession => s.firstSessionAt
  }

  /** A set-up time stays as it was first written; the first session may still be moved earlier. */
  predicate Stands(m: Milestone, written: Instant, stored: Option<Instant>) {
    stored.Some? && stored.value <= written && (m != FirstSession ==> stored.value == written)
  }

  /** What the caller of step `i` is told it recorded. */
  function Told(created: Instant, steps: seq<Step>, i: nat, m: Milestone): Option<Instant>
    requires i < |steps|
  {
    if steps[i].Record? then Of(PostImage(Run(created, steps[..i]), steps[i].update, steps[i].at).recorded, m) else None
  }

  /** A caller is told only of a milestone that was not there before, and what it was told still stands. */
  lemma ToldIsStored(created: Instant, steps: seq<Step>, i: nat, m: Milestone)
    requires i < |steps| && Told(created, steps, i, m).Some?
    ensures Stored(Run(created, steps[..i]), m).None?
    ensures Stands(m, Told(created, steps, i, m).value, Stored(Run(created, steps), m))
  {
    assert steps[..i + 1][..i] == steps[..i];
    assert Run(created, steps[..i + 1]) == Next(Run(created, steps[..i]), steps[i]);
    WriteOnce(created, steps, i + 1);
    hide Run;
  }

  /** At most one caller is ever told that it recorded a milestone. */
  lemma ToldOnce(created: Instant, steps: seq<Step>, i: nat, j: nat, m: Milestone)
    requires i < |steps| && j < |steps| && Told(created, steps, i, m).Some? && Told(created, steps, j, m).Some?
    ensures i == j
  {
    if i < j {
      ToldBeforeIsSeen(created, steps, i, j, m);
    } else if j < i {
      ToldBeforeIsSeen(created, steps, j, i, m);
    }
  }

  lemma ToldBeforeIsSeen(created: Instant, steps: seq<Step>, i: nat, j: nat, m: Milestone)
    requires i < j < |steps| && Told(created, steps, i, m).Some?
    ensures Told(created, steps, j, m).None?
  {
    assert steps[..j][..i] == steps[..i];
    ToldIsStored(created, steps[..j], i, m);
    hide Run;
  }

  ghost predicate FilledByBackfill(created: Instant, steps: seq<Step>, i: nat, m: Milestone, v: Instant)
    requires i < |steps|
  {
    && steps[i].ApplyBackfill? && Run(created, steps[..i]).backfilledAt.None?
    && Stored(Run(created, steps[..i]), m).None?
    && Of(Update(steps[i].backfill.mobile, steps[i].backfill.bridge, steps[i].backfill.session), m) == Some(v)
  }

  /** A stored milestone was first recorded by a caller that was told so, or came from the one backfill. */
  lemma {:induction false} SomebodyWroteIt(created: Instant, steps: seq<Step>, m: Milestone) returns (i: nat, v: Instant)
    requires Stored(Run(created, steps), m).Some?
    ensures i < |steps| && Stands(m, v, Stored(Run(created, steps), m))
    ensures Told(created, steps, i, m) == Some(v) || FilledByBackfill(created, steps, i, m, v)
  {
    var n := |steps| - 1;
    assert Run(created, steps) == Next(Run(created, steps[..n]), steps[n]);
    if Stored(Run(created, steps[..n]), m).Some? {
      i, v := SomebodyWroteIt(created, steps[..n], m);
      assert steps[..n][..i] == steps[..i];
      StepFollows(Run(created, steps[..n]), steps[n]);
      hide PostImage, Next;
    } else {
      i, v := n, Stored(Run(created, steps), m).value;
      hide Run;
    }
  }

  // ----- the first session is the earliest candidate -----

  /** The candidates that counted: every recorded one, and the backfilled one if nothing was known yet. */
  ghost function Candidates(created: Instant, steps: seq<Step>): set<Instant> {
    if steps == [] then {}
    else
      var n := |steps| - 1;
      var s := Run(created, steps[..n]);
      var last :=
        match steps[n]
        case Record(u, _) => u.session
        case ApplyBackfill(b, _) => if s.backfilledAt.None? && s.firstSessionAt.None? then b.session else None
        case Mark(_, _, _) => None;
      Candidates(created, steps[..n]) + if last.Some? then {last.value} else {}
  }

  lemma {:induction false} FirstSessionIsEarliest(created: Instant, steps: seq<Step>)
    ensures var first := Run(created, steps).firstSessionAt;
            && (first.None? <==> Candidates(created, steps) == {})
            && (first.Some? ==> first.value in Candidates(created, steps) && forall c <- Candidates(created, steps) :: first.value <= c)
  {
    if steps != [] {
      FirstSessionIsEarliest(created, steps[..|steps| - 1]);
      hide SecondStage;
    }
  }

  // ----- what the milestones and their baselines are -----

  /** A recording fills in what is missing; the first session is replaced by an earlier one; nothing else is written. */
  lemma RecordingFillsIn(s: State, u: Update, at: Instant)
    ensures var t := Next(s, Record(u, at));
            && t.mobileSetupAt == (if s.mobileSetupAt.Some? then s.mobileSetupAt else u.mobile)
            && t.bridgeSetupAt == (if s.bridgeSetupAt.Some? then s.bridgeSetupAt else u.bridge)
            && (s.firstSessionAt.None? ==> t.firstSessionAt == u.session)
            && (u.session.None? ==> t.firstSessionAt == s.firstSessionAt)
            && (s.firstSessionAt.Some? && u.session.Some? ==>
                  t.firstSessionAt == Some(Min(s.firstSessionAt.value, u.session.value)))
            && t.bridge1SentAt == s.bridge1SentAt && t.bridge2SentAt == s.bridge2SentAt && t.sessionSentAt == s.sessionSentAt
            && t.backfilledAt == s.backfilledAt && t.updatedAt == at
  {}

  ghost predicate NoBackfill(steps: seq<Step>) {
    forall step <- steps :: !step.ApplyBackfill?
  }

  /**
   * Without a backfill, the bridge reminders count from the mobile set-up, and the session reminder from
   * when both set-ups were done.
   */
  lemma {:induction false} BaselinesFollowMilestones(created: Instant, steps: seq<Step>)
    requires NoBackfill(steps)
    ensures var s := Run(created, steps);
            && s.bridgeBaseAt == s.mobileSetupAt
            && s.sessionBaseAt == if s.mobileSetupAt.Some? && s.bridgeSetupAt.Some?
                                  then Some(Max(s.mobileSetupAt.value, s.bridgeSetupAt.value)) else None
  {
    if steps != [] {
      BaselinesFollowMilestones(created, steps[..|steps| - 1]);
    }
  }

  /**
   * The first backfill fills in what is missing, and restarts the clock of the one reminder that the filled
   * in milestones leave open: the bridge reminders before the bridge is set up, the session reminder after.
   */
  lemma BackfillFillsIn(s: State, b: Backfill, now: Instant)
    ensures var t := Next(s, ApplyBackfill(b, now));
            if s.backfilledAt.Some? then t == s
            else
              && t.mobileSetupAt == (if s.mobileSetupAt.Some? then s.mobileSetupAt else b.mobile)
              && t.bridgeSetupAt == (if s.bridgeSetupAt.Some? then s.bridgeSetupAt else b.bridge)
              && t.firstSessionAt == (if s.firstSessionAt.Some? then s.firstSessionAt else b.session)
              && t.bridge1SentAt == s.bridge1SentAt && t.bridge2SentAt == s.bridge2SentAt && t.sessionSentAt == s.sessionSentAt
              && t.backfilledAt == Some(b.at) && t.updatedAt == now
              && (b.reminderBase.None? || t.mobileSetupAt.None? ==>
                    t.bridgeBaseAt == s.bridgeBaseAt && t.sessionBaseAt == s.sessionBaseAt)
              && (b.reminderBase.Some? && t.mobileSetupAt.Some? && t.bridgeSetupAt.None? ==>
                    && t.bridgeBaseAt == (if s.bridge2SentAt.None? then b.reminderBase else s.bridgeBaseAt)
                    && t.sessionBaseAt == s.sessionBaseAt)
              && (b.reminderBase.Some? && t.mobileSetupAt.Some? && t.bridgeSetupAt.Some? ==>
                    && t.bridgeBaseAt == s.bridgeBaseAt
                    && t.sessionBaseAt ==
                         (if t.firstSessionAt.None? && s.sessionSentAt.None? then b.reminderBase else s.sessionBaseAt))
  {}

  // ----- reminder markers -----

  predicate Reached(base: Option<Instant>, cutoff: Instant) {
    base.Some? && base.value <= cutoff
  }

  /** A reminder is marked exactly while it is due: the milestone it asks for is missing and its baseline is reached. */
  lemma MarkingNeedsDue(s: State, cutoff: Instant, sentAt: Instant)
    ensures Next(s, Mark(Bridge1, cutoff, sentAt)) ==
            if s.bridgeSetupAt.None? && s.bridge1SentAt.None? && Reached(s.bridgeBaseAt, cutoff)
            then s.(bridge1SentAt := Some(sentAt), updatedAt := sentAt) else s
    ensures Next(s, Mark(Bridge2, cutoff, sentAt)) ==
            if s.bridgeSetupAt.None? && s.bridge1SentAt.Some? && s.bridge2SentAt.None? && Reached(s.bridgeBaseAt, cutoff)
            then s.(bridge2SentAt := Some(sentAt), updatedAt := sentAt) else s
    ensures Next(s, Mark(Session, cutoff, sentAt)) ==
            if s.firstSessionAt.None? && s.sessionSentAt.None? && Reached(s.sessionBaseAt, cutoff)
            then s.(sessionSentAt := Some(sentAt), updatedAt := sentAt) else s
  {}

  /** Step `i` of the run sets the marker of this kind. */
  predicate Marks(created: Instant, steps: seq<Step>, i: nat, kind: Kind)
    requires i < |steps|
  {
    steps[i].Mark? && steps[i].kind == kind && Eligible(Run(created, steps[..i]), kind, steps[i].cutoff)
  }

  lemma MarkStays(created: Instant, steps: seq<Step>, i: nat, kind: Kind)
    requires i < |steps| && Marks(created, steps, i, kind)
    ensures Marker(Run(created, steps), kind) == Some(steps[i].sentAt)
  {
    assert steps[..i + 1][..i] == steps[..i];
    assert Run(created, steps[..i + 1]) == Next(Run(created, steps[..i]), steps[i]);
    WriteOnce(created, steps, i + 1);
    hide Run;
  }

  /** Each reminder is marked at most once. */
  lemma MarkedOnce(created: Instant, steps: seq<Step>, i: nat, j: nat, kind: Kind)
    requires i < j < |steps| && Marks(created, steps, i, kind)
    ensures !Marks(created, steps, j, kind)
  {
    assert steps[..j][..i] == steps[..i];
    MarkStays(created, steps[..j], i, kind);
    hide Run;
  }

  /** The second bridge reminder is marked only after the first. */
  lemma {:induction false} SecondAfterFirst(created: Instant, steps: seq<Step>)
    ensures Run(created, steps).bridge2SentAt.Some? ==> Run(created, steps).bridge1SentAt.Some?
  {
    if steps != [] {
      SecondAfterFirst(created, steps[..|steps| - 1]);
    }
  }

  // ----- one sweep, while others keep writing -----

  /** A sweep handles one kind after the other; `sent` are the reminders it has sent this user. */
  datatype Sweep = Sweep(stage: nat, checked: Option<Kind>, sent: set<Kind>)

  const NEW_SWEEP := Sweep(0, None, {})

  function KindAt(stage: nat): Option<Kind> {
    if stage == 0 then Some(Bridge2) else if stage == 1 then Some(Bridge1) else if stage == 2 then Some(Session) else None
  }

  datatype SweepStep =
    | Other(step: Step)
    | NextKind
    | CheckStillDue(cutoff: Instant)
    | SendReminder
    | MarkSent(cutoff: Instant, sentAt: Instant)

  datatype World = World(state: State, sweep: Sweep)

  function SweepNext(w: World, step: SweepStep): World {
    match step
    case Other(s) => w.(state := Next(w.state, s))
    case NextKind => w.(sweep := w.sweep.(stage := w.sweep.stage + 1, checked := None))
    case CheckStillDue(cutoff) =>
      var kind := KindAt(w.sweep.stage);
      if kind.Some? && w.sweep.checked.None? && kind.value !in w.sweep.sent && Eligible(w.state, kind.value, cutoff) then
        w.(sweep := w.sweep.(checked := kind))
      else w
    case SendReminder =>
      if w.sweep.checked.None? then w
      else w.(sweep := w.sweep.(checked := None, sent := w.sweep.sent + {w.sweep.checked.value}))
    case MarkSent(cutoff, sentAt) =>
      var kind := KindAt(w.sweep.stage);
      if kind.Some? && kind.value in w.sweep.sent then w.(state := Marked(w.state, kind.value, cutoff, sentAt)) else w
  }

  function SweepRun(start: State, steps: seq<SweepStep>): World {
    if steps == [] then World(start, NEW_SWEEP) else SweepNext(SweepRun(start, steps[..|steps| - 1]), steps[|steps| - 1])
  }

  ghost predicate SweepValid(w: World) {
    && (w.sweep.checked.Some? ==> w.sweep.checked == KindAt(w.sweep.stage))
    && (w.sweep.checked == Some(Bridge2) || Bridge2 in w.sweep.sent ==> w.state.bridge1SentAt.Some?)
    && (w.sweep.checked == Some(Bridge1) || Bridge1 in w.sweep.sent ==> w.sweep.stage >= 1 && Bridge2 !in w.sweep.sent)
  }

  lemma SweepStepIsValid(w: World, step: SweepStep)
    requires SweepValid(w)
    ensures SweepValid(SweepNext(w, step))
  {
    if step.Other? {
      StepFollows(w.state, step.step);
      hide Next;
    }
  }

  /** Whatever others write meanwhile, one sweep never sends a user both bridge reminders. */
  lemma {:induction false} NeverBothInOneSweep(start: State, steps: seq<SweepStep>)
    ensures SweepValid(SweepRun(start, steps))
    ensures !({Bridge1, Bridge2} <= SweepRun(start, steps).sweep.sent)
  {
    if steps != [] {
      NeverBothInOneSweep(start, steps[..|steps| - 1]);
      SweepStepIsValid(SweepRun(start, steps[..|steps| - 1]), steps[|steps| - 1]);
      hide SweepNext;
    }
  }

  /** A sweep goes through the second bridge reminder, the first, and the session reminder, in this order. */
  function StageOf(kind: Kind): nat {
    match kind
    case Bridge2 => 0
    case Bridge1 => 1
    case Session => 2
  }

  /** A reminder is sent in its stage exactly if it is found due then, and marked if it is still due after the send. */
  lemma DueIsSent(w: World, kind: Kind, cutoff: Instant, sentAt: Instant)
    requires w.sweep.stage == StageOf(kind) && w.sweep.checked.None? && kind !in w.sweep.sent
    ensures var checked := SweepNext(w, CheckStillDue(cutoff));
            var sent := SweepNext(checked, SendReminder);
            var marked := SweepNext(sent, MarkSent(cutoff, sentAt));
            if Eligible(w.state, kind, cutoff) then
              && sent.sweep.sent == w.sweep.sent + {kind} && sent.state == w.state
              && Marker(marked.state, kind) == Some(sentAt) && marked.sweep == sent.sweep
            else checked == w && sent == w && marked == w
  {}

  /** Nothing is sent unchecked, twice, or marked without having been sent; a sweep begins at its first stage. */
  lemma SweepInOrder(w: World, cutoff: Instant, sentAt: Instant, start: State, steps: seq<SweepStep>, step: SweepStep)
    ensures w.sweep.checked.Some? ==> SweepNext(w, CheckStillDue(cutoff)) == w
    ensures w.sweep.checked.None? ==> SweepNext(w, SendReminder) == w
    ensures w.sweep.checked.Some? ==>
              var t := SweepNext(w, SendReminder);
              t.sweep == Sweep(w.sweep.stage, None, w.sweep.sent + {w.sweep.checked.value}) && t.state == w.state
    ensures forall kind: Kind :: w.sweep.stage == StageOf(kind) && kind in w.sweep.sent ==> SweepNext(w, CheckStillDue(cutoff)) == w
    ensures forall kind: Kind :: w.sweep.stage == StageOf(kind) && kind !in w.sweep.sent ==> SweepNext(w, MarkSent(cutoff, sentAt)) == w
    ensures SweepRun(start, []) == World(start, Sweep(0, None, {}))
    ensures SweepRun(start, steps + [step]) == SweepNext(SweepRun(start, steps), step)
  {
    hide Eligible, Marked;
    assert (steps + [step])[..|steps|] == steps;
  }

  /** The stages follow each other; what others write reaches the document and leaves the sweep alone. */
  lemma StagesFollow(w: World, other: Step)
    ensures SweepNext(w, NextKind) == World(w.state, Sweep(w.sweep.stage + 1, None, w.sweep.sent))
    ensures SweepNext(w, Other(other)) == World(Next(w.state, other), w.sweep)
    ensures w.sweep.stage > 2 ==> forall cutoff :: SweepNext(w, CheckStillDue(cutoff)) == w
  {
    hide Next;
  }

  /** Handling the kinds the other way round would send both: the first reminder's marker makes the second due. */
  lemma OtherOrderSendsBoth(s: State, cutoff1: Instant, cutoff2: Instant, sentAt: Instant)
    requires Eligible(s, Bridge1, cutoff1) && s.bridge2SentAt.None? && NotAfter(s.bridgeBaseAt, cutoff2)
    ensures Eligible(Marked(s, Bridge1, cutoff1, sentAt), Bridge2, cutoff2)
  {}

  // ----- the stored document -----

  class ActivationStateRepository {
    var state: State

    constructor (at: Instant)
      ensures state == Created(at)
    {
      state := Created(at);
    }

    method RecordMilestonesWithResult(u: Update, at: Instant) returns (result: RecordResult)
      modifies this
      ensures state == Next(old(state), Record(u, at))
      ensures result.state == state
      ensures result.recorded == Update(
                if old(state).mobileSetupAt.None? then u.mobile else None,
                if old(state).bridgeSetupAt.None? then u.bridge else None,
                if old(state).firstSessionAt.None? then u.session else None)
    {
      var previous := state;
      state := SecondStage(FirstStage(state, u, at));
      PostImageIsStored(previous, u, at);
      result := PostImage(previous, u, at);
    }

    method ApplyBackfillOnce(b: Backfill, now: Instant) returns (applied: bool)
      modifies this
      ensures state == Next(old(state), ApplyBackfill(b, now))
      ensures applied <==> old(state).backfilledAt.None?
    {
      if state.backfilledAt.Some? {
        return false;
      }
      state := state.(
        mobileSetupAt := IfNull(state.mobileSetupAt, b.mobile),
        bridgeSetupAt := IfNull(state.bridgeSetupAt, b.bridge),
        firstSessionAt := IfNull(state.firstSessionAt, b.session));
      if b.reminderBase.Some? && state.mobileSetupAt.Some? {
        if state.bridgeSetupAt.None? && state.bridge2SentAt.None? {
          state := state.(bridgeBaseAt := b.reminderBase);
        } else if state.bridgeSetupAt.Some? && state.firstSessionAt.None? && state.sessionSentAt.None? {
          state := state.(sessionBaseAt := b.reminderBase);
        }
      }
      state := state.(backfilledAt := Some(b.at), updatedAt := now);
      applied := true;
    }

    method MarkReminderSentIfStillDue(kind: Kind, cutoff: Instant, sentAt: Instant) returns (marked: bool)
      modifies this
      ensures state == Next(old(state), Mark(kind, cutoff, sentAt))
      ensures marked <==> Eligible(old(state), kind, cutoff)
      ensures marked ==> Marker(old(state), kind).None? && Marker(state, kind) == Some(sentAt)
    {
      marked := Eligible(state, kind, cutoff);
      if marked {
        state := match kind
          case Bridge1 => state.(bridge1SentAt := Some(sentAt), updatedAt := sentAt)
          case Bridge2 => state.(bridge2SentAt := Some(sentAt), updatedAt := sentAt)
          case Session => state.(sessionSentAt := Some(sentAt), updatedAt := sentAt);
      }
    }
  }

  // ----- the reminder service -----

  datatype Counters = Counters(due: nat, sent: nat, noDevices: nat, skipped: nat, failed: nat)

  /** How the calls for one due reminder turn out. */
  datatype Delivery =
    | CheckThrew
    | NotDueAnyMore
    | DisposedBeforeSend
    | SendThrew
    | TimedOut
    | Resolved(devicesNotified: nat, retryableFailures: nat, marked: bool)

  datatype SweepStatus = Disabled | Unavailable | Joined | Started

  class ActivationReminderService {
    const enabled: bool
    var inFlight: Option<nat>
    var disposed: bool
    var sweeps: nat
    var counters: Counters

    constructor (enabled: bool)
      ensures this.enabled == enabled && inFlight.None? && !disposed && sweeps == 0
    {
      this.enabled := enabled;
      inFlight, disposed, sweeps, counters := None, false, 0, Counters(0, 0, 0, 0, 0);
    }

    /** A sweep is started only when none is in flight; otherwise the caller shares the running one. */
    method SweepOnce(available: bool) returns (status: SweepStatus, sweep: Option<nat>)
      modifies this
      ensures status.Started? <==> enabled && !disposed && available && old(inFlight).None?
      ensures status.Started? ==> inFlight == sweep == Some(old(sweeps)) && sweeps == old(sweeps) + 1
      ensures !status.Started? ==> inFlight == old(inFlight) && sweeps == old(sweeps)
      ensures status.Joined? ==> sweep == old(inFlight) && sweep.Some?
      ensures disposed == old(disposed)
    {
      if !enabled || disposed { return Disabled, None; }
      if !available { return Unavailable, None; }
      if inFlight.Some? { return Joined, inFlight; }
      inFlight, sweeps := Some(sweeps), sweeps + 1;
      status, sweep := Started, inFlight;
    }

    method SweepEnded(sweep: nat)
      modifies `inFlight
      ensures inFlight == if old(inFlight) == Some(sweep) then None else old(inFlight)
    {
      if inFlight == Some(sweep) { inFlight := None; }
    }

    /** Every due reminder is counted in exactly one way, except those cut short by disposal. */
    method ProcessKind(deliveries: seq<Delivery>)
      modifies `counters
      ensures counters.due == |deliveries|
      ensures counters.sent == Count(deliveries, Sent) && counters.skipped == Count(deliveries, Skipped)
      ensures counters.failed == Count(deliveries, Failed) && counters.noDevices == Count(deliveries, SentToNobody)
    {
      counters := Counters(|deliveries|, 0, 0, 0, 0);
      var i := 0;
      while i < |deliveries|
        invariant 0 <= i <= |deliveries| && counters.due == |deliveries|
        invariant counters.sent == Count(deliveries[..i], Sent) && counters.skipped == Count(deliveries[..i], Skipped)
        invariant counters.failed == Count(deliveries[..i], Failed) && counters.noDevices == Count(deliveries[..i], SentToNobody)
      {
        assert deliveries[..i + 1][..i] == deliveries[..i];
        ProcessReminder(deliveries[i]);
        i := i + 1;
      }
      assert deliveries[..i] == deliveries;
    }

    method ProcessReminder(d: Delivery)
      modifies `counters
      ensures counters == old(counters).(
                sent := old(counters).sent + Once(Sent(d)), skipped := old(counters).skipped + Once(Skipped(d)),
                failed := old(counters).failed + Once(Failed(d)), noDevices := old(counters).noDevices + Once(SentToNobody(d)))
    {
      match d
      case NotDueAnyMore => counters := counters.(skipped := counters.skipped + 1);
      case DisposedBeforeSend =>
      case CheckThrew => counters := counters.(failed := counters.failed + 1);
      case SendThrew => counters := counters.(failed := counters.failed + 1);
      case TimedOut => counters := counters.(failed := counters.failed + 1);
      case Resolved(devices, retryable, marked) =>
        if devices == 0 && retryable > 0 {
          counters := counters.(failed := counters.failed + 1);
        } else if !marked {
          counters := counters.(skipped := counters.skipped + 1);
        } else {
          counters := counters.(sent := counters.sent + 1);
          if devices == 0 { counters := counters.(noDevices := counters.noDevices + 1); }
        }
    }
  }

  function Once(b: bool): nat { if b then 1 else 0 }

  function Count(deliveries: seq<Delivery>, p: Delivery -> bool): nat {
    if deliveries == [] then 0 else Count(deliveries[..|deliveries| - 1], p) + Once(p(deliveries[|deliveries| - 1]))
  }

  /** Delivered, or with nobody left to deliver to; a reminder whose only failures may pass is kept for the next sweep. */
  predicate Complete(d: Delivery) {
    d.Resolved? && (d.devicesNotified > 0 || d.retryableFailures == 0)
  }

  predicate Sent(d: Delivery) { Complete(d) && d.marked }

  predicate SentToNobody(d: Delivery) { Sent(d) && d.devicesNotified == 0 }

  predicate Skipped(d: Delivery) { d.NotDueAnyMore? || (Complete(d) && !d.marked) }

  predicate Failed(d: Delivery) { d.CheckThrew? || d.SendThrew? || d.TimedOut? || (d.Resolved? && !Complete(d)) }

  /** What each outcome counts as, and that it counts once. */
  lemma OutcomesAreRight(devices: nat, retryable: nat, marked: bool)
    ensures Failed(CheckThrew) && Failed(SendThrew) && Failed(TimedOut) && Skipped(NotDueAnyMore)
    ensures var d := Resolved(devices, retryable, marked);
            && (Failed(d) <==> devices == 0 && retryable > 0)
            && (Sent(d) <==> marked && (devices > 0 || retryable == 0))
            && (Skipped(d) <==> !marked && (devices > 0 || retryable == 0))
            && (SentToNobody(d) <==> marked && devices == 0 && retryable == 0)
    ensures forall d: Delivery :: Once(Sent(d)) + Once(Skipped(d)) + Once(Failed(d)) == if d == DisposedBeforeSend then 0 else 1
  {}

  /** The three outcomes exclude each other and leave out only what disposal cut short. */
  lemma {:induction false} EveryReminderCountedOnce(deliveries: seq<Delivery>)
    ensures Count(deliveries, Sent) + Count(deliveries, Skipped) + Count(deliveries, Failed)
            == |deliveries| - Count(deliveries, d => d == DisposedBeforeSend)
  {
    if deliveries != [] {
      EveryReminderCountedOnce(deliveries[..|deliveries| - 1]);
    }
  }
}
