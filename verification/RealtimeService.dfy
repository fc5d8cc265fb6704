/**
 * Admission of realtime sessions: per-user and global slots, a daily budget that is read but never
 * reserved, and the one usage write a session makes at its terminal.
 */
module RealtimeService {
  import opened Prelude
  import opened AudioAccounting

  type SessionId = nat
  type UserId = nat

  datatype ServicePolicy = ServicePolicy(
    dailyLimitSeconds: nat,
    maxSessionSeconds: nat,
    maxConcurrentSessionsPerUser: nat,
    maxConcurrentSessions: nat,
    audioPaceBurstSeconds: nat)

  // ----- slots -----

  datatype Slots = Slots(active: set<SessionId>, sessionUserIds: map<SessionId, UserId>, activePerUser: map<UserId, nat>)

  const NO_SLOTS := Slots({}, map[], map[])

  function Held(s: Slots, user: UserId): nat {
    if user in s.activePerUser then s.activePerUser[user] else 0
  }

  predicate AtCapacity(p: ServicePolicy, s: Slots, user: UserId) {
    |s.active| >= p.maxConcurrentSessions || Held(s, user) >= p.maxConcurrentSessionsPerUser
  }

  function Acquire(s: Slots, id: SessionId, user: UserId): Slots {
    Slots(s.active + {id}, s.sessionUserIds[id := user], s.activePerUser[user := Held(s, user) + 1])
  }

  function Release(s: Slots, id: SessionId): Slots {
    if id !in s.sessionUserIds then s.(active := s.active - {id})
    else
      var user := s.sessionUserIds[id];
      var remaining: int := (if user in s.activePerUser then s.activePerUser[user] else 1) as int - 1;
      Slots(
        s.active - {id},
        s.sessionUserIds - {id},
        if remaining <= 0 then s.activePerUser - {user} else s.activePerUser[user := remaining])
  }

  ghost function SlotsOf(s: Slots, user: UserId): set<SessionId> {
    set id | id in s.sessionUserIds && s.sessionUserIds[id] == user
  }

  /** The tallies count exactly the sessions that hold a slot, and no user keeps a zero. */
  ghost predicate SlotsExact(s: Slots) {
    && s.sessionUserIds.Keys == s.active
    && (forall user :: Held(s, user) == |SlotsOf(s, user)|)
    && (forall user <- s.activePerUser :: s.activePerUser[user] > 0)
  }

  ghost predicate WithinCeilings(p: ServicePolicy, s: Slots) {
    && |s.active| <= p.maxConcurrentSessions
    && forall user :: Held(s, user) <= p.maxConcurrentSessionsPerUser
  }

  lemma SlotsAfterAcquire(s: Slots, id: SessionId, user: UserId, other: UserId)
    requires SlotsExact(s) && id !in s.active
    ensures |SlotsOf(Acquire(s, id, user), other)| == |SlotsOf(s, other)| + if other == user then 1 else 0
  {
    if other == user {
      assert SlotsOf(Acquire(s, id, user), user) == SlotsOf(s, user) + {id} && id !in SlotsOf(s, user);
    } else {
      assert SlotsOf(Acquire(s, id, user), other) == SlotsOf(s, other);
    }
  }

  lemma AcquireIsExact(p: ServicePolicy, s: Slots, id: SessionId, user: UserId)
    requires SlotsExact(s) && WithinCeilings(p, s) && id !in s.active && !AtCapacity(p, s, user)
    ensures SlotsExact(Acquire(s, id, user)) && WithinCeilings(p, Acquire(s, id, user))
    ensures Acquire(s, id, user).active == s.active + {id}
  {
    hide SlotsOf;
    var after := Acquire(s, id, user);
    forall other
      ensures Held(after, other) == |SlotsOf(after, other)| && Held(after, other) == Held(s, other) + if other == user then 1 else 0
    {
      SlotsAfterAcquire(s, id, user, other);
    }
  }

  lemma ReleaseCounts(s: Slots, id: SessionId, user: UserId)
    requires SlotsExact(s) && id in s.active
    ensures var after := Release(s, id);
            Held(after, user) == |SlotsOf(after, user)| == Held(s, user) - if s.sessionUserIds[id] == user then 1 else 0
  {
    var owner := s.sessionUserIds[id];
    var after := Release(s, id);
    assert id in SlotsOf(s, owner);
    assert owner in s.activePerUser;
    if user == owner {
      assert SlotsOf(after, user) == SlotsOf(s, user) - {id};
    } else {
      assert SlotsOf(after, user) == SlotsOf(s, user);
    }
  }

  /** Releasing any session, whether or not it still holds a slot, keeps the tallies exact and frees only its own slot. */
  lemma ReleaseIsExact(p: ServicePolicy, s: Slots, id: SessionId)
    requires SlotsExact(s) && WithinCeilings(p, s)
    ensures SlotsExact(Release(s, id)) && WithinCeilings(p, Release(s, id))
    ensures Release(s, id).active == s.active - {id}
    ensures Release(s, id).sessionUserIds == s.sessionUserIds - {id}
    ensures id !in s.active ==> Release(s, id) == s
  {
    var after := Release(s, id);
    if id in s.active {
      forall user
        ensures Held(after, user) == |SlotsOf(after, user)| <= p.maxConcurrentSessionsPerUser
      {
        ReleaseCounts(s, id, user);
      }
      assert |after.active| == |s.active| - 1;
    } else {
      assert s.active - {id} == s.active;
      assert s.sessionUserIds - {id} == s.sessionUserIds;
    }
  }

  /** However many failure paths release a session, only the first one frees anything. */
  lemma ReleaseIsIdempotent(p: ServicePolicy, s: Slots, id: SessionId)
    requires SlotsExact(s) && WithinCeilings(p, s)
    ensures Release(Release(s, id), id) == Release(s, id)
  {
    ReleaseIsExact(p, s, id);
    ReleaseIsExact(p, Release(s, id), id);
  }

  /** A slot taken and given back leaves no trace. */
  lemma ReleaseUndoesAcquire(s: Slots, id: SessionId, user: UserId)
    requires SlotsExact(s) && id !in s.active
    ensures Release(Acquire(s, id, user), id) == s
  {
    var after := Acquire(s, id, user);
    assert after.sessionUserIds - {id} == s.sessionUserIds;
    assert after.active - {id} == s.active;
    if user in s.activePerUser {
      assert after.activePerUser[user := s.activePerUser[user]] == s.activePerUser;
    } else {
      assert after.activePerUser - {user} == s.activePerUser;
    }
  }

  // ----- the whole service: sessions, slots and the usage counter of one day -----

  datatype Start = Reading | Connecting | Resolved | Failed

  datatype End = Live | Ending(bill: nat) | Billed | Closed

  datatype Session = Session(
    user: UserId,
    format: AudioFormat,
    start: Start,
    end: End,
    limitSeconds: nat,
    stream: Stream,
    progressMs: real)

  datatype Service = Service(
    disposed: bool,
    slots: Slots,
    sessions: map<SessionId, Session>,
    usedSeconds: map<UserId, nat>)

  const IDLE := Service(false, NO_SLOTS, map[], map[])

  datatype Step =
    | Admit(id: SessionId, user: UserId, format: AudioFormat)
    | ReadBudget(id: SessionId)
    | Resolve(id: SessionId)
    | FailStart(id: SessionId)
    | Audio(id: SessionId, frame: Frame)
    | StopAudio(id: SessionId)
    | Progress(id: SessionId, finalAudioMs: real, totalAudioMs: real)
    | BeginTerminal(id: SessionId, recordUsage: bool)
    | WriteUsage(id: SessionId, succeeds: bool)
    | FreeSlot(id: SessionId)
    | Shutdown

  function Used(s: Service, user: UserId): nat {
    if user in s.usedSeconds then s.usedSeconds[user] else 0
  }

  function StreamPolicy(p: ServicePolicy, x: Session): Policy {
    Policy(x.format, x.limitSeconds, p.audioPaceBurstSeconds)
  }

  function Bill(x: Session): nat {
    Max(0, BillableSeconds(x.stream.attempted, x.format, x.progressMs))
  }

  /** What a step does to the one session it concerns. */
  datatype Reaction =
    | Stay
    | Become(next: Session)
    | Leave(next: Session)
    | Record(next: Session, seconds: nat)

  /** The failure path of `start`: the slot goes, and the session is closed without a terminal of its own. */
  function AbandonStart(x: Session): Reaction {
    Leave(x.(start := Failed, end := if x.end == Live then Closed else x.end))
  }

  predicate Providing(x: Session) {
    (x.start == Connecting || x.start == Resolved) && x.end == Live
  }

  function ReadBudgetReaction(p: ServicePolicy, used: nat, disposed: bool, x: Session): Reaction {
    if x.start != Reading then Stay
    else
      var remaining := Max(0, p.dailyLimitSeconds - used);
      if disposed || remaining == 0 then AbandonStart(x)
      else Become(x.(start := Connecting, limitSeconds := Min(p.maxSessionSeconds, remaining)))
  }

  function ProgressReaction(x: Session, finalMs: real, totalMs: real): Reaction {
    var top := x.limitSeconds as real * 1000.0;
    if !Providing(x) then Stay
    else if finalMs > top || totalMs > top then Become(x.(end := Ending(0)))
    else Become(x.(progressMs := MaxReal(x.progressMs, MaxReal(finalMs, totalMs))))
  }

  function React(p: ServicePolicy, used: nat, disposed: bool, x: Session, step: Step): Reaction {
    match step
    case ReadBudget(_) => ReadBudgetReaction(p, used, disposed, x)
    case Resolve(_) =>
      if x.start != Connecting || disposed then Stay else Become(x.(start := Resolved))
    case FailStart(_) =>
      if x.start != Reading && x.start != Connecting then Stay else AbandonStart(x)
    case Audio(_, frame) =>
      if x.start != Resolved || x.end != Live then Stay
      else Become(x.(stream := Feed(StreamPolicy(p, x), x.stream, frame)))
    case StopAudio(_) => Become(x.(stream := x.stream.(open := false)))
    case Progress(_, finalMs, totalMs) => ProgressReaction(x, finalMs, totalMs)
    case BeginTerminal(_, recordUsage) =>
      if !Providing(x) then Stay else Become(x.(end := Ending(if recordUsage then Bill(x) else 0)))
    case WriteUsage(_, succeeds) =>
      if !x.end.Ending? then Stay
      else if succeeds then Record(x.(end := Billed), x.end.bill)
      else Become(x.(end := Billed))
    case FreeSlot(_) => if x.end != Billed then Stay else Leave(x.(end := Closed))
    case _ => Stay
  }

  function Apply(s: Service, id: SessionId, r: Reaction): Service {
    match r
    case Stay => s
    case Become(x) => s.(sessions := s.sessions[id := x])
    case Leave(x) => s.(sessions := s.sessions[id := x], slots := Release(s.slots, id))
    case Record(x, seconds) =>
      s.(sessions := s.sessions[id := x], usedSeconds := s.usedSeconds[x.user := Used(s, x.user) + seconds])
  }

  function Newcomer(user: UserId, format: AudioFormat): Session {
    Session(user, format, Reading, Live, 0, Stream(0, [], true), 0.0)
  }

  function Reacts(p: ServicePolicy, s: Service, id: SessionId, step: Step): Reaction
    requires id in s.sessions
  {
    React(p, Used(s, s.sessions[id].user), s.disposed, s.sessions[id], step)
  }

  function Next(p: ServicePolicy, s: Service, step: Step): Service {
    match step
    case Shutdown => s.(disposed := true)
    case Admit(id, user, format) =>
      if s.disposed || id in s.sessions || AtCapacity(p, s.slots, user) then s
      else
        s.(slots := Acquire(s.slots, id, user), sessions := s.sessions[id := Newcomer(user, format)])
    case _ =>
      if step.id !in s.sessions then s else Apply(s, step.id, Reacts(p, s, step.id, step))
  }

  function Run(p: ServicePolicy, steps: seq<Step>): Service {
    if steps == [] then IDLE else Next(p, Run(p, steps[..|steps| - 1]), steps[|steps| - 1])
  }

  // ----- the reachable states -----

  predicate HoldsSlot(x: Session) {
    x.start != Failed && x.end != Closed
  }

  /** What a session may still add to the day's counter. */
  function Pending(x: Session): nat {
    match x.end
    case Ending(bill) => bill
    case Live => if x.start == Connecting || x.start == Resolved then x.limitSeconds else 0
    case _ => 0
  }

  function SessionCeiling(p: ServicePolicy): nat {
    Min(p.maxSessionSeconds, p.dailyLimitSeconds)
  }

  ghost predicate SessionValid(p: ServicePolicy, x: Session) {
    && x.limitSeconds <= SessionCeiling(p)
    && StreamValid(StreamPolicy(p, x), x.stream)
    && 0.0 <= x.progressMs <= x.limitSeconds as real * 1000.0
    && (x.start == Reading ==> x.end == Live && x.limitSeconds == 0 && x.stream.attempted == 0)
    && (x.start == Failed ==> x.end != Live)
    && (x.end.Ending? ==> x.end.bill <= x.limitSeconds)
  }

  /** The sessions that hold a slot are exactly the active ones, each counted for its own user. */
  ghost predicate SlotsMatch(slots: Slots, sessions: map<SessionId, Session>) {
    && slots.sessionUserIds.Keys == slots.active
    && (forall id :: id in slots.active <==> id in sessions && HoldsSlot(sessions[id]))
    && (forall id <- slots.active :: slots.sessionUserIds[id] == sessions[id].user)
  }

  ghost predicate SessionsValid(p: ServicePolicy, sessions: map<SessionId, Session>) {
    forall id <- sessions :: SessionValid(p, sessions[id])
  }

  ghost predicate Valid(p: ServicePolicy, s: Service) {
    && SlotsExact(s.slots)
    && WithinCeilings(p, s.slots)
    && SlotsMatch(s.slots, s.sessions)
    && SessionsValid(p, s.sessions)
  }

  /** What counts against the overshoot; a failed start is accounted for when it bills. */
  function Owing(x: Session): nat {
    if x.start == Failed then 0 else Pending(x)
  }

  ghost function OwingOf(s: Service, user: UserId): map<SessionId, int> {
    map id | id in s.sessions && s.sessions[id].user == user :: Owing(s.sessions[id])
  }

  function MostConcurrent(p: ServicePolicy): nat {
    Min(p.maxConcurrentSessionsPerUser, p.maxConcurrentSessions)
  }

  /** What the sessions of a user other than the one that read the budget last may add past the limit. */
  function Overshoot(p: ServicePolicy): nat {
    Max(0, MostConcurrent(p) - 1) * SessionCeiling(p)
  }

  lemma BillFits(p: ServicePolicy, x: Session)
    requires SessionValid(p, x)
    ensures Bill(x) <= x.limitSeconds
  {
    BillWithinLimit(StreamPolicy(p, x), x.stream.attempted, x.progressMs);
  }

  ghost predicate ReactionValid(p: ServicePolicy, x: Session, r: Reaction) {
    match r
    case Stay => true
    case Become(y) => SessionValid(p, y) && y.user == x.user && HoldsSlot(y) == HoldsSlot(x)
    case Leave(y) => SessionValid(p, y) && y.user == x.user && !HoldsSlot(y)
    case Record(y, _) => SessionValid(p, y) && y.user == x.user && HoldsSlot(y) == HoldsSlot(x)
  }

  lemma ReactionIsValid(p: ServicePolicy, used: nat, disposed: bool, x: Session, step: Step)
    requires SessionValid(p, x)
    ensures ReactionValid(p, x, React(p, used, disposed, x, step))
  {
    BillFits(p, x);
    match step
    case ReadBudget(_) =>
      var limit := Min(p.maxSessionSeconds, Max(0, p.dailyLimitSeconds - used));
      if limit > 0 {
        MulPositive(limit, BytesPerSecond(x.format));
      }
    case Audio(_, frame) =>
      if x.stream.open {
        FrameOutcome(StreamPolicy(p, x), x.stream.attempted, frame);
      }
    case _ =>
  }

  lemma SlotsStillMatch(slots: Slots, sessions: map<SessionId, Session>, id: SessionId, y: Session)
    requires SlotsMatch(slots, sessions) && id in sessions && y.user == sessions[id].user
    ensures HoldsSlot(y) == HoldsSlot(sessions[id]) ==> SlotsMatch(slots, sessions[id := y])
  {}

  lemma SlotsMatchWithout(slots: Slots, after: Slots, sessions: map<SessionId, Session>, id: SessionId, y: Session)
    requires SlotsMatch(slots, sessions) && id in sessions && !HoldsSlot(y)
    requires after.active == slots.active - {id} && after.sessionUserIds == slots.sessionUserIds - {id}
    ensures SlotsMatch(after, sessions[id := y])
  {}

  lemma ApplyIsValid(p: ServicePolicy, s: Service, id: SessionId, r: Reaction)
    requires Valid(p, s) && id in s.sessions && ReactionValid(p, s.sessions[id], r)
    ensures Valid(p, Apply(s, id, r))
  {
    if r.Leave? {
      ReleaseIsExact(p, s.slots, id);
      SlotsMatchWithout(s.slots, Release(s.slots, id), s.sessions, id, r.next);
    } else if r != Stay {
      SlotsStillMatch(s.slots, s.sessions, id, r.next);
    }
  }

  lemma AdmitIsValid(p: ServicePolicy, s: Service, id: SessionId, user: UserId, format: AudioFormat)
    requires Valid(p, s) && id !in s.sessions && !AtCapacity(p, s.slots, user)
    ensures Valid(p, s.(slots := Acquire(s.slots, id, user), sessions := s.sessions[id := Newcomer(user, format)]))
  {
    AcquireIsExact(p, s.slots, id, user);
    var after, sessions := Acquire(s.slots, id, user), s.sessions[id := Newcomer(user, format)];
    assert SlotsMatch(after, sessions);
    assert SessionValid(p, Newcomer(user, format));
  }

  /** Every step of any number of sessions keeps slots, ceilings and each session's accounting intact. */
  lemma StepIsValid(p: ServicePolicy, s: Service, step: Step)
    requires Valid(p, s)
    ensures Valid(p, Next(p, s, step))
  {
    if step.Shutdown? {
    } else if step.Admit? {
      if !(s.disposed || step.id in s.sessions || AtCapacity(p, s.slots, step.user)) {
        AdmitIsValid(p, s, step.id, step.user, step.format);
      }
    } else if step.id in s.sessions {
      ReactionIsValid(p, Used(s, s.sessions[step.id].user), s.disposed, s.sessions[step.id], step);
      ApplyIsValid(p, s, step.id, Reacts(p, s, step.id, step));
    }
  }

  lemma {:induction false} RunIsValid(p: ServicePolicy, steps: seq<Step>)
    ensures Valid(p, Run(p, steps))
  {
    if steps == [] {
      assert forall user :: SlotsOf(NO_SLOTS, user) == {};
    } else {
      RunIsValid(p, steps[..|steps| - 1]);
      StepIsValid(p, Run(p, steps[..|steps| - 1]), steps[|steps| - 1]);
    }
  }

  // ----- what each step does -----

  /** A step leaves every session but its own alone, and only a usage write that succeeds records anything. */
  lemma StepConcernsOne(p: ServicePolicy, s: Service, step: Step)
    requires !step.Shutdown?
    ensures forall id <- s.sessions :: id != step.id ==> id in Next(p, s, step).sessions && Next(p, s, step).sessions[id] == s.sessions[id]
    ensures !(step.WriteUsage? && step.succeeds) ==> Next(p, s, step).usedSeconds == s.usedSeconds
    ensures Next(p, s, step).disposed == s.disposed
  {
    hide Release, Acquire, AtCapacity, Feed, Bill, ReadBudgetReaction, ProgressReaction;
    if !step.Admit? && step.id in s.sessions && step.ReadBudget? {
      ReadsRecordNothing(p, Used(s, s.sessions[step.id].user), s.disposed, s.sessions[step.id]);
    }
    if step.Progress? && step.id in s.sessions {
      ProgressRecordsNothing(s.sessions[step.id], step.finalAudioMs, step.totalAudioMs);
    }
  }

  /** Shutdown disposes the service for good: later starts are refused, and starts under way do not return. */
  lemma ShutdownDisposes(p: ServicePolicy, s: Service, step: Step)
    ensures Next(p, s, Shutdown) == s.(disposed := true)
    ensures s.disposed ==> Next(p, s, step).disposed
    ensures s.disposed && (step.Admit? || step.Resolve?) ==> Next(p, s, step) == s
  {
    hide Release, Acquire, AtCapacity, Feed, Bill, ReadBudgetReaction, ProgressReaction;
  }

  lemma ReadsRecordNothing(p: ServicePolicy, used: nat, disposed: bool, x: Session)
    ensures !ReadBudgetReaction(p, used, disposed, x).Record?
  {}

  lemma ProgressRecordsNothing(x: Session, finalMs: real, totalMs: real)
    ensures !ProgressReaction(x, finalMs, totalMs).Record?
  {}

  /** Admission is refused exactly while disposed or at one of the ceilings; otherwise the session holds a slot and no seconds. */
  lemma AdmissionDecides(p: ServicePolicy, s: Service, id: SessionId, user: UserId, format: AudioFormat)
    requires Valid(p, s) && id !in s.sessions
    ensures var t := Next(p, s, Admit(id, user, format));
            if s.disposed || |s.slots.active| >= p.maxConcurrentSessions || |SlotsOf(s.slots, user)| >= p.maxConcurrentSessionsPerUser
            then t == s
            else
              && t.slots.active == s.slots.active + {id} && id in t.sessions
              && var x := t.sessions[id];
                 && x.user == user && x.format == format && x.start == Reading && x.end == Live && x.limitSeconds == 0
                 && x.stream == Stream(0, [], true) && x.progressMs == 0.0
  {
    hide SessionsValid, SlotsMatch;
    assert Held(s.slots, user) == |SlotsOf(s.slots, user)|;
  }

  lemma LeavingFrees(p: ServicePolicy, s: Service, id: SessionId, y: Session)
    requires SlotsExact(s.slots) && WithinCeilings(p, s.slots)
    ensures Apply(s, id, Leave(y)).slots.active == s.slots.active - {id} && Apply(s, id, Leave(y)).sessions == s.sessions[id := y]
  {
    ReleaseIsExact(p, s.slots, id);
    hide Release, SlotsExact, WithinCeilings;
  }

  lemma BudgetReacts(p: ServicePolicy, used: nat, disposed: bool, x: Session, id: SessionId)
    requires x.start == Reading && x.end == Live
    ensures React(p, used, disposed, x, ReadBudget(id)) ==
            if used >= p.dailyLimitSeconds || disposed then Leave(x.(start := Failed, end := Closed))
            else Become(x.(start := Connecting, limitSeconds := Min(p.maxSessionSeconds, p.dailyLimitSeconds - used)))
  {}

  /** A spent day refuses the start, and so does shutdown; what is left of a day is admitted, up to the session limit. */
  lemma BudgetReadDecides(p: ServicePolicy, s: Service, id: SessionId)
    requires Valid(p, s) && id in s.sessions && s.sessions[id].start == Reading
    ensures var x, t := s.sessions[id], Next(p, s, ReadBudget(id));
            if Used(s, x.user) >= p.dailyLimitSeconds || s.disposed
            then t.sessions[id].start == Failed && t.sessions[id].end == Closed && id !in t.slots.active
            else
              && t.sessions[id] == x.(start := Connecting, limitSeconds := Min(p.maxSessionSeconds, p.dailyLimitSeconds - Used(s, x.user)))
              && t.slots == s.slots && id in t.slots.active
  {
    var x := s.sessions[id];
    assert SessionValid(p, x);
    ReadingHoldsSlot(p, s, id);
    BudgetReacts(p, Used(s, x.user), s.disposed, x, id);
    LeavingFrees(p, s, id, x.(start := Failed, end := Closed));
    hide React, Release, SlotsExact, WithinCeilings, SessionValid, SlotsMatch;
  }

  /** A start that is under way returns unless the service was disposed. */
  lemma StartReturns(p: ServicePolicy, s: Service, id: SessionId)
    requires id in s.sessions
    ensures var x, t := s.sessions[id], Next(p, s, Resolve(id));
            if x.start == Connecting && !s.disposed then t == s.(sessions := s.sessions[id := x.(start := Resolved)]) else t == s
  {}

  /** A failing start gives its slot back in any case, and closes a session whose terminal has not begun. */
  lemma StartFailsFreeing(p: ServicePolicy, s: Service, id: SessionId)
    requires Valid(p, s) && id in s.sessions
    ensures var x, t := s.sessions[id], Next(p, s, FailStart(id));
            if x.start == Reading || x.start == Connecting then
              && id !in t.slots.active
              && t.sessions[id] == (if x.end == Live then x.(start := Failed, end := Closed) else x.(start := Failed))
            else t == s
  {
    var x := s.sessions[id];
    FailedStartLeaves(p, Used(s, x.user), s.disposed, x, id);
    LeavingFrees(p, s, id, x.(start := Failed));
    LeavingFrees(p, s, id, x.(start := Failed, end := Closed));
    hide React, Release, SlotsExact, WithinCeilings, SlotsMatch, SessionsValid;
  }

  lemma FailedStartLeaves(p: ServicePolicy, used: nat, disposed: bool, x: Session, id: SessionId)
    ensures React(p, used, disposed, x, FailStart(id)) ==
            if x.start != Reading && x.start != Connecting then Stay
            else Leave(if x.end == Live then x.(start := Failed, end := Closed) else x.(start := Failed))
  {}

  /** Only a returned session that has not ended takes audio, and no audio is taken after it is stopped. */
  lemma AudioStreams(p: ServicePolicy, s: Service, id: SessionId, frame: Frame)
    requires id in s.sessions
    ensures var x, t := s.sessions[id], Next(p, s, Audio(id, frame));
            if x.start == Resolved && x.end == Live && x.stream.open
            then t.sessions[id] == x.(stream := Feed(Policy(x.format, x.limitSeconds, p.audioPaceBurstSeconds), x.stream, frame))
            else t.sessions[id] == x
    ensures var x := s.sessions[id];
            Next(p, s, StopAudio(id)).sessions[id] == x.(stream := Stream(x.stream.attempted, x.stream.forwarded, false))
  {
    hide SendFrame, AcceptedPrefix;
  }

  /** Progress past the admitted seconds ends the session without a bill; any other progress only ever grows. */
  lemma ProgressCounts(p: ServicePolicy, s: Service, id: SessionId, finalMs: real, totalMs: real)
    requires id in s.sessions && (s.sessions[id].start == Connecting || s.sessions[id].start == Resolved) && s.sessions[id].end == Live
    ensures var x, y := s.sessions[id], Next(p, s, Progress(id, finalMs, totalMs)).sessions[id];
            if finalMs > x.limitSeconds as real * 1000.0 || totalMs > x.limitSeconds as real * 1000.0 then y == x.(end := Ending(0))
            else
              && y == x.(progressMs := y.progressMs)
              && y.progressMs >= x.progressMs && y.progressMs >= finalMs && y.progressMs >= totalMs
              && y.progressMs in {x.progressMs, finalMs, totalMs}
  {}

  /** A terminal bills the least number of seconds that covers the forwarded bytes and the progress, or nothing if told so. */
  lemma TerminalBills(p: ServicePolicy, s: Service, id: SessionId, n: nat)
    requires Valid(p, s) && id in s.sessions && s.sessions[id].end == Live
    requires s.sessions[id].start == Connecting || s.sessions[id].start == Resolved
    ensures Next(p, s, BeginTerminal(id, false)).sessions[id] == s.sessions[id].(end := Ending(0))
    ensures var x, y := s.sessions[id], Next(p, s, BeginTerminal(id, true)).sessions[id];
            && y.end.Ending? && y == x.(end := y.end)
            && (y.end.bill <= n <==> x.stream.attempted <= n * BytesPerSecond(x.format) && x.progressMs <= n as real * 1000.0)
  {
    var x := s.sessions[id];
    BillFits(p, x);
    BillCovers(x.stream.attempted, x.format, x.progressMs, n);
    BillWithinLimit(StreamPolicy(p, x), x.stream.attempted, x.progressMs);
    hide BillableSeconds, SlotsExact, WithinCeilings, SlotsMatch, StreamValid;
  }

  /** The usage write records the bill when it succeeds, and the terminal goes on either way. */
  lemma UsageIsWritten(p: ServicePolicy, s: Service, id: SessionId)
    requires id in s.sessions
    ensures var x, t := s.sessions[id], Next(p, s, WriteUsage(id, true));
            if x.end.Ending? then
              && t.sessions == s.sessions[id := x.(end := Billed)] && t.slots == s.slots
              && t.usedSeconds == s.usedSeconds[x.user := Used(s, x.user) + x.end.bill]
            else t == s
    ensures var x, t := s.sessions[id], Next(p, s, WriteUsage(id, false));
            if x.end.Ending? then t == s.(sessions := s.sessions[id := x.(end := Billed)]) else t == s
  {}

  /** After the usage write a terminal frees the slot. */
  lemma SlotIsFreed(p: ServicePolicy, s: Service, id: SessionId)
    requires Valid(p, s) && id in s.sessions
    ensures var x, t := s.sessions[id], Next(p, s, FreeSlot(id));
            if x.end == Billed then t.sessions[id] == x.(end := Closed) && id !in t.slots.active else t == s
  {
    var x := s.sessions[id];
    assert React(p, Used(s, x.user), s.disposed, x, FreeSlot(id)) == if x.end != Billed then Stay else Leave(x.(end := Closed));
    LeavingFrees(p, s, id, x.(end := Closed));
    hide React, Release, SlotsExact, WithinCeilings, SlotsMatch, SessionsValid;
  }

  ghost predicate HaveSeconds(sessions: map<SessionId, Session>) {
    forall id <- sessions :: sessions[id].start == Connecting || sessions[id].start == Resolved ==> sessions[id].limitSeconds > 0
  }

  lemma StepKeepsSeconds(p: ServicePolicy, s: Service, step: Step)
    requires p.maxSessionSeconds > 0 && HaveSeconds(s.sessions)
    ensures HaveSeconds(Next(p, s, step).sessions)
  {
    hide Release, Acquire, AtCapacity, Feed, Bill;
  }

  /** Nobody reaches the provider without seconds to use. */
  lemma {:induction false} AdmittedHaveSeconds(p: ServicePolicy, steps: seq<Step>)
    requires p.maxSessionSeconds > 0
    ensures HaveSeconds(Run(p, steps).sessions)
  {
    if steps != [] {
      AdmittedHaveSeconds(p, steps[..|steps| - 1]);
      StepKeepsSeconds(p, Run(p, steps[..|steps| - 1]), steps[|steps| - 1]);
      hide Next, HaveSeconds;
    }
  }

  // ----- the daily budget -----

  lemma OwingAfter(s: Service, t: Service, id: SessionId, x: Session, user: UserId)
    requires t.sessions == s.sessions[id := x]
    requires id in s.sessions ==> s.sessions[id].user == x.user
    ensures Sum(OwingOf(t, user)) == Sum(OwingOf(s, user)) +
            if x.user != user then 0 else Owing(x) - if id in s.sessions then Owing(s.sessions[id]) else 0
  {
    var before, after := OwingOf(s, user), OwingOf(t, user);
    if x.user == user {
      assert after == before[id := Owing(x)];
      SumUpdate(before, id, Owing(x));
    } else {
      assert after == before;
    }
  }

  lemma OnlyHoldersOwe(p: ServicePolicy, s: Service, k: SessionId)
    requires Valid(p, s) && k in s.sessions
    ensures Owing(s.sessions[k]) <= SessionCeiling(p)
    ensures s.sessions[k].start == Reading ==> Owing(s.sessions[k]) == 0
    ensures k !in SlotsOf(s.slots, s.sessions[k].user) ==> Owing(s.sessions[k]) == 0
  {
    assert SessionValid(p, s.sessions[k]);
    if HoldsSlot(s.sessions[k]) {
      assert k in s.slots.active;
    }
  }

  lemma FewHolders(p: ServicePolicy, s: Service, user: UserId)
    requires Valid(p, s)
    ensures |SlotsOf(s.slots, user)| <= MostConcurrent(p)
  {
    hide SlotsMatch, SessionsValid;
    assert Held(s.slots, user) <= p.maxConcurrentSessionsPerUser;
    SmallerSet(SlotsOf(s.slots, user), s.slots.active);
  }

  lemma ReadingHoldsSlot(p: ServicePolicy, s: Service, id: SessionId)
    requires Valid(p, s) && id in s.sessions && s.sessions[id].start == Reading
    ensures id in SlotsOf(s.slots, s.sessions[id].user)
  {
    hide StreamValid;
    assert SessionValid(p, s.sessions[id]);
    assert HoldsSlot(s.sessions[id]);
  }

  /** While one session of a user reads the budget, the others together owe at most one session less than the cap. */
  lemma OthersOweAtMost(p: ServicePolicy, s: Service, id: SessionId)
    requires Valid(p, s)
    requires id in s.sessions && s.sessions[id].start == Reading
    ensures MostConcurrent(p) >= 1
    ensures Sum(OwingOf(s, s.sessions[id].user)) <= Overshoot(p)
  {
    hide Valid, SlotsOf, Owing, SessionCeiling, MostConcurrent;
    var user := s.sessions[id].user;
    var holders := SlotsOf(s.slots, user);
    FewHolders(p, s, user);
    ReadingHoldsSlot(p, s, id);
    var others := holders - {id};
    forall k <- OwingOf(s, user)
      ensures OwingOf(s, user)[k] <= if k in others then SessionCeiling(p) else 0
    {
      OnlyHoldersOwe(p, s, k);
    }
    SumAtMost(OwingOf(s, user), others, SessionCeiling(p));
    assert |others| == |holders| - 1;
    Monotone(|others|, MostConcurrent(p) - 1, SessionCeiling(p));
  }

  lemma MonotoneRight(n: nat, a: nat, b: nat)
    requires a <= b
    ensures n * a <= n * b
  {
    assert n * (b - a) >= 0;
  }

  lemma Monotone(a: nat, b: nat, c: nat)
    requires a <= b
    ensures a * c <= b * c
  {}

  /** The seconds that the usage write of a failed start records. */
  function FailedSeconds(x: Session, r: Reaction): nat {
    if r.Record? && x.start == Failed then r.seconds else 0
  }

  /** Except for the budget read, a step never makes a session owe more, and what it records it stops owing. */
  ghost predicate Owes(p: ServicePolicy, used: nat, x: Session, r: Reaction, atRead: bool) {
    match r
    case Stay => true
    case Become(y) =>
      if atRead then x.start == Reading && Owing(x) == 0 && used + Owing(y) <= p.dailyLimitSeconds
      else Owing(y) <= Owing(x)
    case Leave(y) => Owing(y) <= Owing(x)
    case Record(y, seconds) => Owing(y) + seconds <= Owing(x) + FailedSeconds(x, r)
  }

  lemma ReactionOwes(p: ServicePolicy, used: nat, disposed: bool, x: Session, step: Step)
    requires SessionValid(p, x)
    ensures Owes(p, used, x, React(p, used, disposed, x, step), step.ReadBudget?)
  {
    BillFits(p, x);
  }

  lemma ApplyStaysWithinBudget(p: ServicePolicy, s: Service, id: SessionId, r: Reaction, user: UserId, atRead: bool, slack: nat, billed: nat)
    requires id in s.sessions && ReactionValid(p, s.sessions[id], r)
    requires Owes(p, Used(s, s.sessions[id].user), s.sessions[id], r, atRead)
    requires atRead && r.Become? && s.sessions[id].user == user ==> Sum(OwingOf(s, user)) <= slack
    requires Used(s, user) + Sum(OwingOf(s, user)) <= p.dailyLimitSeconds + slack + billed
    ensures var t := Apply(s, id, r);
            var more := if s.sessions[id].user == user then FailedSeconds(s.sessions[id], r) else 0;
            Used(t, user) + Sum(OwingOf(t, user)) <= p.dailyLimitSeconds + slack + billed + more
  {
    if r != Stay {
      OwingAfter(s, Apply(s, id, r), id, r.next, user);
    }
  }

  /** What a step records for failed starts of a user. */
  ghost function FailedBill(p: ServicePolicy, s: Service, step: Step, user: UserId): nat {
    if !step.Shutdown? && !step.Admit? && step.id in s.sessions && s.sessions[step.id].user == user
    then FailedSeconds(s.sessions[step.id], Reacts(p, s, step.id, step))
    else 0
  }

  ghost function BilledByFailed(p: ServicePolicy, steps: seq<Step>, user: UserId): nat {
    if steps == [] then 0
    else
      var n := |steps| - 1;
      BilledByFailed(p, steps[..n], user) + FailedBill(p, Run(p, steps[..n]), steps[n], user)
  }

  /** One step never lets the recorded and the still owed seconds together pass the ceiling. */
  lemma StepStaysWithinBudget(p: ServicePolicy, s: Service, step: Step, user: UserId, billed: nat)
    requires Valid(p, s)
    requires Used(s, user) + Sum(OwingOf(s, user)) <= p.dailyLimitSeconds + Overshoot(p) + billed
    ensures var t := Next(p, s, step);
            Used(t, user) + Sum(OwingOf(t, user)) <= p.dailyLimitSeconds + Overshoot(p) + billed + FailedBill(p, s, step, user)
  {
    hide Valid, React, Overshoot;
    var t := Next(p, s, step);
    if step.Shutdown? {
      assert OwingOf(t, user) == OwingOf(s, user);
    } else if step.Admit? {
      if t != s {
        OwingAfter(s, t, step.id, Newcomer(step.user, step.format), user);
      }
    } else if step.id in s.sessions {
      SessionStepStaysWithinBudget(p, s, step.id, step, user, billed);
    }
  }

  lemma SessionStepStaysWithinBudget(p: ServicePolicy, s: Service, id: SessionId, step: Step, user: UserId, billed: nat)
    requires Valid(p, s) && id in s.sessions
    requires Used(s, user) + Sum(OwingOf(s, user)) <= p.dailyLimitSeconds + Overshoot(p) + billed
    ensures var r := Reacts(p, s, id, step);
            var t := Apply(s, id, r);
            var more := if s.sessions[id].user == user then FailedSeconds(s.sessions[id], r) else 0;
            Used(t, user) + Sum(OwingOf(t, user)) <= p.dailyLimitSeconds + Overshoot(p) + billed + more
  {
    var x := s.sessions[id];
    ReactionIsValid(p, Used(s, x.user), s.disposed, x, step);
    ReactionOwes(p, Used(s, x.user), s.disposed, x, step);
    if step.ReadBudget? && x.start == Reading {
      OthersOweAtMost(p, s, id);
    }
    ApplyStaysWithinBudget(p, s, id, Reacts(p, s, id, step), user, step.ReadBudget?, Overshoot(p), billed);
  }

  lemma {:induction false} RunStaysWithinBudget(p: ServicePolicy, steps: seq<Step>, user: UserId)
    ensures Used(Run(p, steps), user) + Sum(OwingOf(Run(p, steps), user))
            <= p.dailyLimitSeconds + Overshoot(p) + BilledByFailed(p, steps, user)
  {
    if steps == [] {
      assert OwingOf(IDLE, user) == map[];
    } else {
      var n := |steps| - 1;
      RunStaysWithinBudget(p, steps[..n], user);
      RunIsValid(p, steps[..n]);
      StepStaysWithinBudget(p, Run(p, steps[..n]), steps[n], user, BilledByFailed(p, steps[..n], user));
    }
  }

  lemma {:induction false} NaturalSum<K>(m: map<K, int>)
    requires forall k <- m :: m[k] >= 0
    ensures Sum(m) >= 0
    decreases |m|
  {
    if m != map[] {
      var k :| k in m && Sum(m) == m[k] + Sum(m - {k});
      NaturalSum(m - {k});
    }
  }

  /**
   * The overshoot bound, over every interleaving of starts, streams and terminals of any number of
   * sessions: at every moment of the day a user's recorded seconds stay within the daily limit, plus one
   * session ceiling for each concurrent session but the one whose budget read came last, plus what was
   * billed for starts that had failed.
   */
  lemma OvershootBound(p: ServicePolicy, steps: seq<Step>, user: UserId)
    ensures Used(Run(p, steps), user) <= p.dailyLimitSeconds + Overshoot(p) + BilledByFailed(p, steps, user)
  {
    RunStaysWithinBudget(p, steps, user);
    NaturalSum(OwingOf(Run(p, steps), user));
  }

  // ----- when failed starts bill nothing -----

  /** The start fails after the terminal of its session has begun, and while that terminal has something to bill. */
  predicate FailsOwing(s: Service, step: Step) {
    && step.FailStart? && step.id in s.sessions && s.sessions[step.id].start == Connecting
    && s.sessions[step.id].end.Ending? && s.sessions[step.id].end.bill > 0
  }

  ghost predicate NoStartFailsOwing(p: ServicePolicy, steps: seq<Step>) {
    forall m :: 0 <= m < |steps| ==> !FailsOwing(Run(p, steps[..m]), steps[m])
  }

  ghost predicate NoFailures(steps: seq<Step>) {
    forall step <- steps :: !step.FailStart?
  }

  ghost predicate FailedStartsOweNothing(s: Service) {
    forall id <- s.sessions :: s.sessions[id].start == Failed ==> Pending(s.sessions[id]) == 0
  }

  lemma StillOwesNothing(p: ServicePolicy, used: nat, disposed: bool, x: Session, step: Step)
    requires SessionValid(p, x) && (x.start == Failed ==> Pending(x) == 0)
    requires step.FailStart? && x.start == Connecting && x.end.Ending? ==> x.end.bill == 0
    ensures var r := React(p, used, disposed, x, step);
            && (r != Stay && r.next.start == Failed ==> Pending(r.next) == 0)
            && FailedSeconds(x, r) == 0
  {}

  lemma AllStillOweNothing(s: Service, id: SessionId, r: Reaction)
    requires FailedStartsOweNothing(s) && id in s.sessions
    requires r != Stay && r.next.start == Failed ==> Pending(r.next) == 0
    ensures FailedStartsOweNothing(Apply(s, id, r))
  {}

  lemma NextOwesNothing(p: ServicePolicy, s: Service, step: Step)
    requires Valid(p, s) && FailedStartsOweNothing(s) && !FailsOwing(s, step)
    ensures FailedStartsOweNothing(Next(p, s, step))
    ensures forall user :: FailedBill(p, s, step, user) == 0
  {
    hide React, SessionValid;
    if !step.Shutdown? && !step.Admit? && step.id in s.sessions {
      var x := s.sessions[step.id];
      StillOwesNothing(p, Used(s, x.user), s.disposed, x, step);
      AllStillOweNothing(s, step.id, Reacts(p, s, step.id, step));
    }
  }

  lemma {:induction false} OwingFailuresAlone(p: ServicePolicy, steps: seq<Step>, user: UserId)
    requires NoStartFailsOwing(p, steps)
    ensures FailedStartsOweNothing(Run(p, steps)) && BilledByFailed(p, steps, user) == 0
  {
    hide Next, FailedBill;
    if steps != [] {
      var n := |steps| - 1;
      assert forall m :: 0 <= m < n ==> steps[..n][..m] == steps[..m];
      OwingFailuresAlone(p, steps[..n], user);
      RunIsValid(p, steps[..n]);
      NextOwesNothing(p, Run(p, steps[..n]), steps[n]);
    }
  }

  /** Unless a start fails while its terminal has seconds to bill, the documented overshoot bound holds, and a sharper one. */
  lemma DocumentedBound(p: ServicePolicy, steps: seq<Step>, user: UserId)
    requires NoStartFailsOwing(p, steps)
    ensures Used(Run(p, steps), user) <= p.dailyLimitSeconds + Overshoot(p)
    ensures Used(Run(p, steps), user) <= p.dailyLimitSeconds + p.maxConcurrentSessionsPerUser * p.maxSessionSeconds
  {
    OvershootBound(p, steps, user);
    OwingFailuresAlone(p, steps, user);
    hide Run, NoStartFailsOwing;
    MonotoneRight(p.maxConcurrentSessionsPerUser, SessionCeiling(p), p.maxSessionSeconds);
    Monotone(Max(0, MostConcurrent(p) - 1), p.maxConcurrentSessionsPerUser, SessionCeiling(p));
  }

  // ----- the bound is attained -----

  predicate Admits(p: ServicePolicy) {
    MostConcurrent(p) > 0 && SessionCeiling(p) > 0
  }

  lemma RunThen(p: ServicePolicy, steps: seq<Step>, step: Step, user: UserId)
    ensures Run(p, steps + [step]) == Next(p, Run(p, steps), step)
    ensures BilledByFailed(p, steps + [step], user) == BilledByFailed(p, steps, user) + FailedBill(p, Run(p, steps), step, user)
  {
    assert (steps + [step])[..|steps|] == steps;
  }

  /** A step that changes one session and nothing else. */
  lemma Becomes(p: ServicePolicy, steps: seq<Step>, step: Step, y: Session, user: UserId)
    requires !step.Shutdown? && !step.Admit? && step.id in Run(p, steps).sessions
    requires Reacts(p, Run(p, steps), step.id, step) == Become(y)
    ensures var s := Run(p, steps); Run(p, steps + [step]) == s.(sessions := s.sessions[step.id := y])
    ensures BilledByFailed(p, steps + [step], user) == BilledByFailed(p, steps, user)
  {
    RunThen(p, steps, step, user);
    hide React, Run;
  }

  const FORMAT: AudioFormat := AudioFormat(16000, 1)

  const RATE: nat := 32000

  function Silence(bytes: nat): (data: Data)
    ensures |data| == bytes && forall i :: 0 <= i < bytes ==> data[i] == 0
  {
    seq(bytes, _ => 0)
  }

  /** The k-th second of silence, sent as soon as it has passed. */
  function Second(k: nat): Frame {
    Frame(Silence(RATE), (k + 1) * 1000, false)
  }

  function Silent(limitSeconds: nat, k: nat): Stream {
    Stream(k * RATE, Silence(k * RATE), k < limitSeconds)
  }

  lemma SecondIsAligned()
    ensures IsAlignedPcm(RATE, FORMAT) && BytesPerSecond(FORMAT) == RATE
  {}

  lemma SecondIsSent(p: Policy, k: nat)
    requires p.format == FORMAT && k < p.limitSeconds
    ensures SendFrame(p, k * RATE, Second(k)) == Sent((k + 1) * RATE, k + 1 >= p.limitSeconds)
    ensures AcceptedPrefix(p, k * RATE, Second(k).data) == Silence(RATE)
  {
    SecondIsAligned();
    Monotone(k + 1, p.limitSeconds, RATE);
    assert AcceptedFrameBytes(RATE, FORMAT, k * RATE, p.limitSeconds) == RATE;
    assert (k + 1) * 1000 * RATE / 1000 == (k + 1) * RATE;
    assert !ExceedsRealtimePace(RATE, FORMAT, k * RATE, (k + 1) * 1000, p.burstSeconds);
    assert ReachedAudioLimit(FORMAT, (k + 1) * RATE, p.limitSeconds) <==> k + 1 >= p.limitSeconds;
  }

  lemma SecondIsFed(p: Policy, k: nat)
    requires p.format == FORMAT && k < p.limitSeconds
    ensures Feed(p, Silent(p.limitSeconds, k), Second(k)) == Silent(p.limitSeconds, k + 1)
  {
    SecondIsSent(p, k);
    assert Silence(k * RATE) + Silence(RATE) == Silence((k + 1) * RATE);
  }

  lemma BillOfSilence(x: Session, k: nat)
    requires x.format == FORMAT && x.stream.attempted == k * RATE && x.progressMs == 0.0
    ensures Bill(x) == k
  {
    SecondIsAligned();
    BillCovers(k * RATE, FORMAT, 0.0, k);
    BillCovers(k * RATE, FORMAT, 0.0, k - 1);
  }

  /** A session that has read its budget. */
  function Admitted(user: UserId, limitSeconds: nat): Session {
    Newcomer(user, FORMAT).(start := Connecting, limitSeconds := limitSeconds)
  }

  function Streamed(user: UserId, limitSeconds: nat, k: nat): Session {
    Admitted(user, limitSeconds).(start := Resolved, stream := Silent(limitSeconds, k))
  }

  function Spent(user: UserId, limitSeconds: nat, k: nat): Session {
    Streamed(user, limitSeconds, k).(end := Billed)
  }

  /** `k` seconds of audio, each second sent when it has passed. */
  function Seconds(id: SessionId, k: nat): seq<Step> {
    if k == 0 then [] else Seconds(id, k - 1) + [Audio(id, Second(k - 1))]
  }

  /** The start returns, the client streams for `k` seconds, and the terminal records them. */
  function Spend(id: SessionId, k: nat): seq<Step> {
    [Resolve(id)] + Seconds(id, k) + [BeginTerminal(id, true)] + [WriteUsage(id, true)]
  }

  lemma ResolveReacts(p: ServicePolicy, used: nat, user: UserId, limit: nat, id: SessionId)
    ensures limit > 0 ==> React(p, used, false, Admitted(user, limit), Resolve(id)) == Become(Streamed(user, limit, 0))
  {
    assert Silence(0 * RATE) == [];
  }

  lemma SecondReacts(p: ServicePolicy, used: nat, user: UserId, limit: nat, id: SessionId, k: nat)
    requires k < limit
    ensures React(p, used, false, Streamed(user, limit, k), Audio(id, Second(k))) == Become(Streamed(user, limit, k + 1))
  {
    SecondIsFed(StreamPolicy(p, Streamed(user, limit, k)), k);
  }

  lemma EndReacts(p: ServicePolicy, used: nat, user: UserId, limit: nat, id: SessionId, k: nat)
    ensures var x := Streamed(user, limit, k);
            && React(p, used, false, x, BeginTerminal(id, true)) == Become(x.(end := Ending(k)))
            && React(p, used, false, x.(end := Ending(k)), WriteUsage(id, true)) == Record(Spent(user, limit, k), k)
  {
    BillOfSilence(Streamed(user, limit, k), k);
  }

  lemma {:induction false} Streams(p: ServicePolicy, steps: seq<Step>, id: SessionId, user: UserId, limit: nat, k: nat)
    requires var s := Run(p, steps); !s.disposed && id in s.sessions && s.sessions[id] == Admitted(user, limit)
    requires limit > 0 && k <= limit
    ensures var s := Run(p, steps);
            Run(p, steps + [Resolve(id)] + Seconds(id, k)) == s.(sessions := s.sessions[id := Streamed(user, limit, k)])
    ensures BilledByFailed(p, steps + [Resolve(id)] + Seconds(id, k), user) == BilledByFailed(p, steps, user)
    ensures NoFailures(Seconds(id, k))
  {
    hide Run, React, Streamed, Admitted;
    var s := Run(p, steps);
    if k == 0 {
      ResolveReacts(p, Used(s, s.sessions[id].user), user, limit, id);
      assert steps + [Resolve(id)] + [] == steps + [Resolve(id)];
      Becomes(p, steps, Resolve(id), Streamed(user, limit, 0), user);
    } else {
      Streams(p, steps, id, user, limit, k - 1);
      var before := steps + [Resolve(id)] + Seconds(id, k - 1);
      SecondReacts(p, Used(Run(p, before), Streamed(user, limit, k - 1).user), user, limit, id, k - 1);
      Becomes(p, before, Audio(id, Second(k - 1)), Streamed(user, limit, k), user);
      assert steps + [Resolve(id)] + Seconds(id, k) == before + [Audio(id, Second(k - 1))];
      assert s.sessions[id := Streamed(user, limit, k - 1)][id := Streamed(user, limit, k)] == s.sessions[id := Streamed(user, limit, k)];
    }
  }

  ghost predicate SpentFrom(s: Service, t: Service, id: SessionId, user: UserId, limit: nat, k: nat) {
    && t.disposed == s.disposed && t.slots == s.slots
    && t.sessions == s.sessions[id := Spent(user, limit, k)]
    && t.usedSeconds == s.usedSeconds[user := Used(s, user) + k]
  }

  lemma EndsSpent(p: ServicePolicy, s: Service, id: SessionId, user: UserId, limit: nat, k: nat)
    requires !s.disposed && id in s.sessions && s.sessions[id] == Streamed(user, limit, k)
    ensures var t := Next(p, s, BeginTerminal(id, true));
            && SpentFrom(s, Next(p, t, WriteUsage(id, true)), id, user, limit, k)
            && FailedBill(p, s, BeginTerminal(id, true), user) == FailedBill(p, t, WriteUsage(id, true), user) == 0
  {
    EndReacts(p, Used(s, user), user, limit, id, k);
    hide React;
    var y := Streamed(user, limit, k).(end := Ending(k));
    var t := s.(sessions := s.sessions[id := y]);
    assert Reacts(p, s, id, BeginTerminal(id, true)) == Become(y);
    assert Next(p, s, BeginTerminal(id, true)) == t;
    assert Reacts(p, t, id, WriteUsage(id, true)) == Record(Spent(user, limit, k), k);
    assert Next(p, t, WriteUsage(id, true)) == Apply(t, id, Record(Spent(user, limit, k), k));
    assert s.sessions[id := y][id := Spent(user, limit, k)] == s.sessions[id := Spent(user, limit, k)];
  }

  lemma SpendRecords(p: ServicePolicy, steps: seq<Step>, id: SessionId, user: UserId, limit: nat, k: nat)
    requires var s := Run(p, steps); !s.disposed && id in s.sessions && s.sessions[id] == Admitted(user, limit)
    requires limit > 0 && k <= limit
    ensures SpentFrom(Run(p, steps), Run(p, steps + Spend(id, k)), id, user, limit, k)
    ensures BilledByFailed(p, steps + Spend(id, k), user) == BilledByFailed(p, steps, user)
    ensures NoFailures(Spend(id, k))
  {
    hide Run, Next, Streamed, Admitted, Spent, FailedBill;
    Streams(p, steps, id, user, limit, k);
    var s := Run(p, steps);
    var streamed := steps + [Resolve(id)] + Seconds(id, k);
    EndsSpent(p, Run(p, streamed), id, user, limit, k);
    RunThen(p, streamed, BeginTerminal(id, true), user);
    RunThen(p, streamed + [BeginTerminal(id, true)], WriteUsage(id, true), user);
    assert steps + Spend(id, k) == streamed + [BeginTerminal(id, true)] + [WriteUsage(id, true)];
    assert s.sessions[id := Streamed(user, limit, k)][id := Spent(user, limit, k)] == s.sessions[id := Spent(user, limit, k)];
  }

  /** Nobody holds a slot, `used` seconds of the user are recorded, and ids from `next` on are free. */
  ghost predicate Quiet(s: Service, next: SessionId, user: UserId, used: nat) {
    !s.disposed && s.slots.active == {} && (forall id <- s.sessions :: id < next) && Used(s, user) == used
  }

  function LimitAt(p: ServicePolicy, used: nat): int {
    Min(p.maxSessionSeconds, p.dailyLimitSeconds - used)
  }

  ghost predicate AdmittedFrom(p: ServicePolicy, s: Service, t: Service, id: SessionId, user: UserId) {
    && LimitAt(p, Used(s, user)) > 0
    && !t.disposed && t.usedSeconds == s.usedSeconds
    && t.slots == Acquire(s.slots, id, user)
    && t.sessions == s.sessions[id := Admitted(user, LimitAt(p, Used(s, user)))]
  }

  lemma QuietHasRoom(p: ServicePolicy, s: Slots, user: UserId)
    requires SlotsExact(s) && s.active == {} && MostConcurrent(p) > 0
    ensures !AtCapacity(p, s, user)
  {
    assert SlotsOf(s, user) == {};
  }

  lemma AdmitSteps(p: ServicePolicy, s: Service, id: SessionId, user: UserId, used: nat)
    requires Quiet(s, id, user, used) && !AtCapacity(p, s.slots, user) && LimitAt(p, used) > 0
    ensures var t := Next(p, s, Admit(id, user, FORMAT)); AdmittedFrom(p, s, Next(p, t, ReadBudget(id)), id, user)
  {
    var t := Next(p, s, Admit(id, user, FORMAT));
    assert t.sessions == s.sessions[id := Newcomer(user, FORMAT)];
    assert Next(p, t, ReadBudget(id)) == Apply(t, id, Reacts(p, t, id, ReadBudget(id)));
  }

  function Opening(id: SessionId, user: UserId): seq<Step> {
    [Admit(id, user, FORMAT)] + [ReadBudget(id)]
  }

  lemma Opens(p: ServicePolicy, steps: seq<Step>, id: SessionId, user: UserId, used: nat)
    requires Quiet(Run(p, steps), id, user, used) && MostConcurrent(p) > 0 && LimitAt(p, used) > 0
    ensures AdmittedFrom(p, Run(p, steps), Run(p, steps + Opening(id, user)), id, user)
    ensures BilledByFailed(p, steps + Opening(id, user), user) == BilledByFailed(p, steps, user)
    ensures SlotsExact(Run(p, steps).slots)
  {
    RunIsValid(p, steps);
    hide Run, Next, React;
    QuietHasRoom(p, Run(p, steps).slots, user);
    AdmitSteps(p, Run(p, steps), id, user, used);
    RunThen(p, steps, Admit(id, user, FORMAT), user);
    RunThen(p, steps + [Admit(id, user, FORMAT)], ReadBudget(id), user);
    OnlyWritesRecord(p, Run(p, steps + [Admit(id, user, FORMAT)]), ReadBudget(id), user);
    assert steps + Opening(id, user) == steps + [Admit(id, user, FORMAT)] + [ReadBudget(id)];
  }

  lemma OnlyWritesRecord(p: ServicePolicy, s: Service, step: Step, user: UserId)
    requires !step.WriteUsage?
    ensures FailedBill(p, s, step, user) == 0
  {}

  lemma QuietAgain(p: ServicePolicy, s: Service, s1: Service, s2: Service, id: SessionId, user: UserId, used: nat)
    requires Quiet(s, id, user, used) && SlotsExact(s.slots) && AdmittedFrom(p, s, s1, id, user)
    requires SpentFrom(s1, s2, id, user, LimitAt(p, used), 1)
    ensures Quiet(Next(p, s2, FreeSlot(id)), id + 1, user, used + 1)
  {
    ReleaseUndoesAcquire(s.slots, id, user);
    var x := s2.sessions[id];
    FreeingLeaves(p, s2, id);
    hide Acquire, Release, React, Reacts, Next, Streamed;
    var t := Apply(s2, id, Leave(x.(end := Closed)));
    assert t.slots == s.slots && t.usedSeconds == s2.usedSeconds && t.disposed == s2.disposed;
  }

  lemma FreeingLeaves(p: ServicePolicy, s: Service, id: SessionId)
    requires id in s.sessions && s.sessions[id].end == Billed
    ensures Next(p, s, FreeSlot(id)) == Apply(s, id, Leave(s.sessions[id].(end := Closed)))
  {
    hide Apply;
  }

  /** Everything so far billed nothing for failed starts. */
  ghost predicate Clean(p: ServicePolicy, steps: seq<Step>, user: UserId) {
    BilledByFailed(p, steps, user) == 0
  }

  lemma SpendOneSecond(p: ServicePolicy, steps: seq<Step>, id: SessionId, user: UserId, used: nat) returns (longer: seq<Step>)
    requires Quiet(Run(p, steps), id, user, used) && MostConcurrent(p) > 0 && LimitAt(p, used) > 0
    requires NoFailures(steps) && Clean(p, steps, user)
    ensures Quiet(Run(p, longer), id + 1, user, used + 1)
    ensures NoFailures(longer) && Clean(p, longer, user)
  {
    hide Run, Admitted, Spent, Next, FailedBill;
    var begun := steps + Opening(id, user);
    var spent := begun + Spend(id, 1);
    longer := spent + [FreeSlot(id)];
    Opens(p, steps, id, user, used);
    SpendRecords(p, begun, id, user, LimitAt(p, used), 1);
    QuietAgain(p, Run(p, steps), Run(p, begun), Run(p, spent), id, user, used);
    OnlyWritesRecord(p, Run(p, spent), FreeSlot(id), user);
    RunThen(p, spent, FreeSlot(id), user);
    hide Spend;
  }

  lemma {:induction false} SpendOneByOne(p: ServicePolicy, user: UserId, seconds: nat) returns (steps: seq<Step>, next: SessionId)
    requires Admits(p) && seconds <= p.dailyLimitSeconds
    ensures Quiet(Run(p, steps), next, user, seconds)
    ensures NoFailures(steps) && Clean(p, steps, user)
  {
    steps, next := [], 0;
    if seconds > 0 {
      steps, next := SpendOneByOne(p, user, seconds - 1);
      steps := SpendOneSecond(p, steps, next, user, seconds - 1);
      next := next + 1;
    }
  }

  // ----- starts that fail while their terminal has seconds to bill -----

  function FailOwing(id: SessionId, seconds: nat): seq<Step> {
    [Progress(id, seconds as real * 1000.0, 0.0)] + [BeginTerminal(id, true)] + [FailStart(id)]
  }

  /** A session that reported `limitSeconds` of progress, began its terminal, and then saw its start fail. */
  function FailedOwing(user: UserId, limitSeconds: nat): Session {
    Admitted(user, limitSeconds).(start := Failed, end := Ending(limitSeconds), progressMs := limitSeconds as real * 1000.0)
  }

  /** The last `k` sessions below `next` are failed starts of the user whose usage writes are outstanding. */
  ghost predicate Outstanding(s: Service, next: SessionId, k: nat, user: UserId, limit: nat) {
    k <= next && forall i :: next - k <= i < next ==> i in s.sessions && s.sessions[i] == FailedOwing(user, limit)
  }

  lemma BillOfProgress(x: Session, seconds: nat)
    requires x.stream.attempted == 0 && x.progressMs == seconds as real * 1000.0
    ensures Bill(x) == seconds
  {
    assert 0.0 / BytesPerSecond(x.format) as real == 0.0;
    BillCovers(0, x.format, x.progressMs, seconds);
    BillCovers(0, x.format, x.progressMs, seconds - 1);
  }

  lemma FailReacts(p: ServicePolicy, used: nat, user: UserId, limit: nat, id: SessionId)
    ensures var x := Admitted(user, limit);
            var y := x.(progressMs := limit as real * 1000.0);
            && React(p, used, false, x, FailOwing(id, limit)[0]) == Become(y)
            && React(p, used, false, y, FailOwing(id, limit)[1]) == Become(y.(end := Ending(limit)))
            && React(p, used, false, y.(end := Ending(limit)), FailOwing(id, limit)[2]) == Leave(FailedOwing(user, limit))
  {
    BillOfProgress(Admitted(user, limit).(progressMs := limit as real * 1000.0), limit);
  }

  lemma FailSteps(p: ServicePolicy, steps: seq<Step>, id: SessionId, user: UserId, limit: nat)
    requires var s := Run(p, steps); !s.disposed && id in s.sessions && s.sessions[id] == Admitted(user, limit)
    ensures var s := Run(p, steps);
            Run(p, steps + FailOwing(id, limit)) ==
              s.(sessions := s.sessions[id := FailedOwing(user, limit)], slots := Release(s.slots, id))
    ensures BilledByFailed(p, steps + FailOwing(id, limit), user) == BilledByFailed(p, steps, user)
  {
    hide Run, React, Release;
    var s, fail := Run(p, steps), FailOwing(id, limit);
    var y := Admitted(user, limit).(progressMs := limit as real * 1000.0);
    var z := y.(end := Ending(limit));
    FailReacts(p, Used(s, user), user, limit, id);
    Becomes(p, steps, fail[0], y, user);
    Becomes(p, steps + [fail[0]], fail[1], z, user);
    assert s.sessions[id := y][id := z] == s.sessions[id := z];
    assert s.sessions[id := z][id := FailedOwing(user, limit)] == s.sessions[id := FailedOwing(user, limit)];
    RunThen(p, steps + [fail[0]] + [fail[1]], fail[2], user);
    assert steps + fail == steps + [fail[0]] + [fail[1]] + [fail[2]];
  }

  lemma StartFailsOwing(p: ServicePolicy, steps: seq<Step>, id: SessionId, user: UserId, used: nat) returns (longer: seq<Step>)
    requires Quiet(Run(p, steps), id, user, used) && MostConcurrent(p) > 0 && LimitAt(p, used) > 0 && Clean(p, steps, user)
    ensures var s := Run(p, steps);
            Run(p, longer) == s.(sessions := s.sessions[id := FailedOwing(user, LimitAt(p, used))]) && Clean(p, longer, user)
  {
    hide Run, Admitted, FailedOwing, Acquire, Release;
    var s, limit := Run(p, steps), LimitAt(p, used);
    Opens(p, steps, id, user, used);
    FailSteps(p, steps + Opening(id, user), id, user, limit);
    ReleaseUndoesAcquire(s.slots, id, user);
    longer := steps + Opening(id, user) + FailOwing(id, limit);
    assert s.sessions[id := Admitted(user, limit)][id := FailedOwing(user, limit)] == s.sessions[id := FailedOwing(user, limit)];
  }

  function BeforeBurst(p: ServicePolicy): nat {
    p.dailyLimitSeconds - SessionCeiling(p)
  }

  /** Up to one session ceiling below the limit the day is spent; then `k` starts fail, each owing that ceiling. */
  lemma {:induction false} StartsFailOwing(p: ServicePolicy, user: UserId, k: nat) returns (steps: seq<Step>, next: SessionId)
    requires Admits(p)
    ensures Quiet(Run(p, steps), next, user, BeforeBurst(p)) && Outstanding(Run(p, steps), next, k, user, SessionCeiling(p))
    ensures Clean(p, steps, user) && (k == 0 ==> NoFailures(steps))
  {
    hide Run;
    if k == 0 {
      steps, next := SpendOneByOne(p, user, BeforeBurst(p));
    } else {
      steps, next := StartsFailOwing(p, user, k - 1);
      steps := StartFailsOwing(p, steps, next, user, BeforeBurst(p));
      next := next + 1;
    }
  }

  // ----- a burst of sessions that all read the same budget -----

  /** `n` sessions of one user, ids from `next` on; the first `read` were admitted and the first `done` have spent their limit. */
  ghost predicate Burst(s: Service, next: SessionId, user: UserId, n: nat, read: nat, done: nat, used: nat, limit: nat) {
    && !s.disposed && Used(s, user) == used
    && (forall id :: id in s.slots.active <==> next <= id < next + n)
    && (forall id <- s.sessions :: id < next + n)
    && (forall i :: next <= i < next + n ==> i in s.sessions && s.sessions[i].user == user)
    && (forall i :: next + done <= i < next + n ==>
          s.sessions[i] == if i < next + read then Admitted(user, limit) else Newcomer(user, FORMAT))
  }

  lemma {:induction false} RangeSize(s: set<nat>, lo: nat, n: nat)
    requires forall i :: i in s <==> lo <= i < lo + n
    ensures |s| == n
  {
    if n > 0 {
      RangeSize(s - {lo + n - 1}, lo, n - 1);
    }
  }

  lemma BurstHasRoom(p: ServicePolicy, s: Service, next: SessionId, user: UserId, n: nat, used: nat, limit: nat)
    requires Valid(p, s) && Burst(s, next, user, n, 0, 0, used, limit) && n < MostConcurrent(p)
    ensures !AtCapacity(p, s.slots, user)
  {
    RangeSize(s.slots.active, next, n);
    assert SlotsOf(s.slots, user) == s.slots.active;
  }

  lemma BurstGrows(p: ServicePolicy, s: Service, next: SessionId, user: UserId, n: nat, k: nat, used: nat, limit: nat)
    requires Burst(s, next, user, n, 0, 0, used, limit) && !AtCapacity(p, s.slots, user) && Outstanding(s, next, k, user, limit)
    ensures var t := Next(p, s, Admit(next + n, user, FORMAT));
            Burst(t, next, user, n + 1, 0, 0, used, limit) && Outstanding(t, next, k, user, limit)
  {
    var t := Next(p, s, Admit(next + n, user, FORMAT));
    hide FailedOwing;
    assert t.sessions == s.sessions[next + n := Newcomer(user, FORMAT)];
    assert t.slots.active == s.slots.active + {next + n};
  }

  lemma BurstAdmitsOne(p: ServicePolicy, steps: seq<Step>, next: SessionId, user: UserId, k: nat, n: nat) returns (longer: seq<Step>)
    requires n < MostConcurrent(p) && Burst(Run(p, steps), next, user, n, 0, 0, BeforeBurst(p), SessionCeiling(p))
    requires Outstanding(Run(p, steps), next, k, user, SessionCeiling(p)) && Clean(p, steps, user)
    ensures Burst(Run(p, longer), next, user, n + 1, 0, 0, BeforeBurst(p), SessionCeiling(p))
    ensures Outstanding(Run(p, longer), next, k, user, SessionCeiling(p)) && Clean(p, longer, user)
    ensures NoFailures(steps) ==> NoFailures(longer)
  {
    RunIsValid(p, steps);
    hide Run, Next, AtCapacity, Burst, Outstanding, Valid;
    BurstHasRoom(p, Run(p, steps), next, user, n, BeforeBurst(p), SessionCeiling(p));
    BurstGrows(p, Run(p, steps), next, user, n, k, BeforeBurst(p), SessionCeiling(p));
    RunThen(p, steps, Admit(next + n, user, FORMAT), user);
    longer := steps + [Admit(next + n, user, FORMAT)];
  }

  lemma QuietIsEmptyBurst(s: Service, next: SessionId, user: UserId, used: nat, limit: nat)
    requires Quiet(s, next, user, used)
    ensures Burst(s, next, user, 0, 0, 0, used, limit)
  {}

  lemma {:induction false} BurstAdmits(p: ServicePolicy, user: UserId, k: nat, n: nat) returns (steps: seq<Step>, next: SessionId)
    requires Admits(p) && n <= MostConcurrent(p)
    ensures Burst(Run(p, steps), next, user, n, 0, 0, BeforeBurst(p), SessionCeiling(p))
    ensures Outstanding(Run(p, steps), next, k, user, SessionCeiling(p))
    ensures Clean(p, steps, user) && (k == 0 ==> NoFailures(steps))
  {
    hide Run, Burst, Outstanding;
    if n == 0 {
      steps, next := StartsFailOwing(p, user, k);
      QuietIsEmptyBurst(Run(p, steps), next, user, BeforeBurst(p), SessionCeiling(p));
    } else {
      steps, next := BurstAdmits(p, user, k, n - 1);
      steps := BurstAdmitsOne(p, steps, next, user, k, n - 1);
    }
  }

  lemma BurstReadsOne(p: ServicePolicy, s: Service, next: SessionId, user: UserId, n: nat, k: nat, r: nat)
    requires SessionCeiling(p) > 0 && r < n
    requires Burst(s, next, user, n, r, 0, BeforeBurst(p), SessionCeiling(p)) && Outstanding(s, next, k, user, SessionCeiling(p))
    ensures var t := Next(p, s, ReadBudget(next + r));
            Burst(t, next, user, n, r + 1, 0, BeforeBurst(p), SessionCeiling(p)) && Outstanding(t, next, k, user, SessionCeiling(p))
  {
    var t := Next(p, s, ReadBudget(next + r));
    hide FailedOwing;
    assert t == s.(sessions := s.sessions[next + r := Admitted(user, SessionCeiling(p))]);
  }

  lemma {:induction false} BurstReads(p: ServicePolicy, user: UserId, k: nat, r: nat) returns (steps: seq<Step>, next: SessionId)
    requires Admits(p) && r <= MostConcurrent(p)
    ensures Burst(Run(p, steps), next, user, MostConcurrent(p), r, 0, BeforeBurst(p), SessionCeiling(p))
    ensures Outstanding(Run(p, steps), next, k, user, SessionCeiling(p))
    ensures Clean(p, steps, user) && (k == 0 ==> NoFailures(steps))
  {
    hide Run, Next, Burst, Outstanding;
    if r == 0 {
      steps, next := BurstAdmits(p, user, k, MostConcurrent(p));
    } else {
      steps, next := BurstReads(p, user, k, r - 1);
      var step := ReadBudget(next + (r - 1));
      BurstReadsOne(p, Run(p, steps), next, user, MostConcurrent(p), k, r - 1);
      RunThen(p, steps, step, user);
      OnlyWritesRecord(p, Run(p, steps), step, user);
      steps := steps + [step];
    }
  }

  lemma BurstSpendsOne(s: Service, t: Service, next: SessionId, user: UserId, n: nat, k: nat, done: nat, used: nat, limit: nat)
    requires done < n && Burst(s, next, user, n, n, done, used, limit) && Outstanding(s, next, k, user, limit)
    requires SpentFrom(s, t, next + done, user, limit, limit)
    ensures Burst(t, next, user, n, n, done + 1, used + limit, limit) && Outstanding(t, next, k, user, limit)
  {
    hide FailedOwing;
  }

  lemma {:induction false} BurstSpends(p: ServicePolicy, user: UserId, k: nat, done: nat) returns (steps: seq<Step>, next: SessionId)
    requires Admits(p) && done <= MostConcurrent(p)
    ensures Burst(Run(p, steps), next, user, MostConcurrent(p), MostConcurrent(p), done,
                  BeforeBurst(p) + Times(done, SessionCeiling(p)), SessionCeiling(p))
    ensures Outstanding(Run(p, steps), next, k, user, SessionCeiling(p))
    ensures Clean(p, steps, user) && (k == 0 ==> NoFailures(steps))
  {
    hide Run, Outstanding, Spend, SpentFrom, Admitted;
    if done == 0 {
      steps, next := BurstReads(p, user, k, MostConcurrent(p));
    } else {
      steps, next := BurstSpends(p, user, k, done - 1);
      var limit := SessionCeiling(p);
      var id, used := next + (done - 1), BeforeBurst(p) + Times(done - 1, limit);
      SpendRecords(p, steps, id, user, limit, limit);
      BurstSpendsOne(Run(p, steps), Run(p, steps + Spend(id, limit)), next, user, MostConcurrent(p), k, done - 1, used, limit);
      steps := steps + Spend(id, limit);
    }
  }

  // ----- the outstanding writes land -----

  lemma WriteLands(p: ServicePolicy, s: Service, id: SessionId, user: UserId, limit: nat)
    requires id in s.sessions && s.sessions[id] == FailedOwing(user, limit)
    ensures var t := Next(p, s, WriteUsage(id, true));
            && Used(t, user) == Used(s, user) + limit && FailedBill(p, s, WriteUsage(id, true), user) == limit
            && t.sessions == s.sessions[id := FailedOwing(user, limit).(end := Billed)]
  {}

  lemma {:induction false} FailuresBill(p: ServicePolicy, user: UserId, k: nat, j: nat) returns (steps: seq<Step>, next: SessionId)
    requires Admits(p) && j <= k
    ensures Used(Run(p, steps), user) == p.dailyLimitSeconds + Overshoot(p) + Times(j, SessionCeiling(p))
    ensures BilledByFailed(p, steps, user) == Times(j, SessionCeiling(p))
    ensures Outstanding(Run(p, steps), next, k - j, user, SessionCeiling(p))
    ensures k == 0 ==> NoFailures(steps)
  {
    hide Run, Next, FailedOwing, FailedBill;
    var limit := SessionCeiling(p);
    if j == 0 {
      steps, next := BurstSpends(p, user, k, MostConcurrent(p));
      assert MostConcurrent(p) * limit == (MostConcurrent(p) - 1) * limit + limit;
    } else {
      steps, next := FailuresBill(p, user, k, j - 1);
      var id := next - (k - (j - 1));
      WriteLands(p, Run(p, steps), id, user, limit);
      RunThen(p, steps, WriteUsage(id, true), user);
      steps := steps + [WriteUsage(id, true)];
    }
  }

  /**
   * The overshoot bound cannot be improved: for every policy that admits anyone, some run without failed
   * starts records exactly the daily limit plus the full overshoot. Sessions spend the day up to one ceiling
   * below the limit; then as many as may run at once read that same rest and each streams it in real time.
   */
  lemma OvershootIsAttained(p: ServicePolicy, user: UserId) returns (steps: seq<Step>)
    requires p.dailyLimitSeconds > 0 && p.maxSessionSeconds > 0
    requires p.maxConcurrentSessionsPerUser > 0 && p.maxConcurrentSessions > 0
    ensures NoFailures(steps)
    ensures Used(Run(p, steps), user) == p.dailyLimitSeconds + Overshoot(p)
  {
    var next;
    steps, next := FailuresBill(p, user, 0, 0);
  }

  /**
   * What failed starts bill comes on top, without limit: for every policy that admits anyone and every `k`,
   * some run with `k` failed starts records k session ceilings more, so the documented bound is no bound.
   *
   * No ordinary failed start does this. A client cannot send audio before its start has returned, so the
   * seconds must come from progress that the provider reports before the first byte of audio. The terminal
   * must begin by a provider error in the microtasks between the provider connection resolving and the last
   * abort check of the start, and the start must fail there because its signal was aborted inside the ready
   * callback. The slot is then freed before the usage write lands, so the next start reads an unspent budget.
   */
  lemma FailedStartsOverrun(p: ServicePolicy, user: UserId, k: nat) returns (steps: seq<Step>)
    requires p.dailyLimitSeconds > 0 && p.maxSessionSeconds > 0
    requires p.maxConcurrentSessionsPerUser > 0 && p.maxConcurrentSessions > 0
    ensures BilledByFailed(p, steps, user) == k * SessionCeiling(p)
    ensures Used(Run(p, steps), user) == p.dailyLimitSeconds + Overshoot(p) + k * SessionCeiling(p)
  {
    var next;
    steps, next := FailuresBill(p, user, k, k);
  }

  // ----- the service object -----

  datatype Refusal = ServiceRestarting | ProviderCapacity

  /** The process-local admission state; the day's usage counter stands in for the usage collection. */
  class RealtimeTranscriptionService {
    const policy: ServicePolicy
    var active: set<SessionId>
    var sessionUserIds: map<SessionId, UserId>
    var activePerUser: map<UserId, nat>
    var disposed: bool
    var dailySeconds: map<UserId, nat>

    ghost function View(): Slots
      reads this
    {
      Slots(active, sessionUserIds, activePerUser)
    }

    ghost predicate Valid()
      reads this
    {
      SlotsExact(View()) && WithinCeilings(policy, View())
    }

    constructor (policy: ServicePolicy)
      ensures Valid() && this.policy == policy && View() == NO_SLOTS && !disposed && dailySeconds == map[]
    {
      this.policy := policy;
      active, sessionUserIds, activePerUser, disposed, dailySeconds := {}, map[], map[], false, map[];
      new;
      assert forall user :: SlotsOf(View(), user) == {};
    }

    method ThrowIfAtCapacity(userId: UserId) returns (refusal: Option<Refusal>)
      ensures refusal == if AtCapacity(policy, View(), userId) then Some(ProviderCapacity) else None
    {
      if |active| >= policy.maxConcurrentSessions {
        return Some(ProviderCapacity);
      }
      var held := if userId in activePerUser then activePerUser[userId] else 0;
      if held >= policy.maxConcurrentSessionsPerUser {
        return Some(ProviderCapacity);
      }
      return None;
    }

    method AcquireSlot(session: SessionId, userId: UserId)
      modifies this`active, this`sessionUserIds, this`activePerUser
      ensures View() == Acquire(old(View()), session, userId)
    {
      active := active + {session};
      sessionUserIds := sessionUserIds[session := userId];
      activePerUser := activePerUser[userId := (if userId in activePerUser then activePerUser[userId] else 0) + 1];
    }

    /** The synchronous block of `start`, before its first await: refuse, or count the new session at once. */
    method Admit(session: SessionId, userId: UserId) returns (refusal: Option<Refusal>)
      requires Valid() && session !in active
      modifies this`active, this`sessionUserIds, this`activePerUser
      ensures Valid()
      ensures refusal == if disposed then Some(ServiceRestarting)
                         else if AtCapacity(policy, old(View()), userId) then Some(ProviderCapacity)
                         else None
      ensures refusal.None? ==> active == old(active) + {session} && Held(View(), userId) == Held(old(View()), userId) + 1
      ensures refusal.Some? ==> View() == old(View())
    {
      if disposed {
        return Some(ServiceRestarting);
      }
      refusal := ThrowIfAtCapacity(userId);
      if refusal.Some? {
        return;
      }
      AcquireIsExact(policy, View(), session, userId);
      AcquireSlot(session, userId);
    }

    method ReleaseSession(session: SessionId)
      requires Valid()
      modifies this`active, this`sessionUserIds, this`activePerUser
      ensures Valid()
      ensures View() == Release(old(View()), session)
      ensures active == old(active) - {session}
      ensures session !in old(active) ==> View() == old(View())
    {
      ReleaseIsExact(policy, View(), session);
      DropSlot(session);
    }

    method DropSlot(session: SessionId)
      modifies this`active, this`sessionUserIds, this`activePerUser
      ensures View() == Release(old(View()), session)
    {
      active := active - {session};
      if session !in sessionUserIds {
        return;
      }
      var userId := sessionUserIds[session];
      sessionUserIds := sessionUserIds - {session};
      var remaining: int := (if userId in activePerUser then activePerUser[userId] else 1) as int - 1;
      if remaining <= 0 {
        activePerUser := activePerUser - {userId};
        return;
      }
      activePerUser := activePerUser[userId := remaining];
    }

    /** Records a session's bill, unless there is nothing to bill or the write fails; returns what is left of the day. */
    method RecordUsage(userId: UserId, seconds: int, remainingAtAdmission: nat, writeSucceeds: bool) returns (remaining: nat)
      modifies this`dailySeconds
      ensures var before := if userId in old(dailySeconds) then old(dailySeconds)[userId] else 0;
              if seconds <= 0 then dailySeconds == old(dailySeconds) && remaining == remainingAtAdmission
              else if writeSucceeds then
                && dailySeconds == old(dailySeconds)[userId := before + seconds]
                && remaining == Max(0, policy.dailyLimitSeconds - (before + seconds))
              else dailySeconds == old(dailySeconds) && remaining == Max(0, remainingAtAdmission - seconds)
    {
      if seconds <= 0 {
        return remainingAtAdmission;
      }
      if !writeSucceeds {
        return Max(0, remainingAtAdmission - seconds);
      }
      var newTotal := (if userId in dailySeconds then dailySeconds[userId] else 0) + seconds;
      dailySeconds := dailySeconds[userId := newTotal];
      return Max(0, policy.dailyLimitSeconds - newTotal);
    }
  }
}
