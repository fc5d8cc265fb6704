/**
 * The session controllers under the service that admits them: whatever events reach the controllers, the
 * slots and the usage counter move as in a run of the service model, so its theorems hold of controllers.
 */
module RealtimeRefinement {
  import opened Prelude
  import Audio = AudioAccounting
  import S = RealtimeService
  import C = RealtimeSession

  // ----- a controller as the service sees it -----

  function StartOf(start: C.Start): S.Start {
    match start
    case Reading => S.Reading
    case Connecting => S.Connecting
    case Connected => S.Connecting
    case Returned => S.Resolved
    case Failed => S.Failed
  }

  function Requested(x: C.Session): nat {
    if |x.usageRequests| > 0 then Max(0, x.usageRequests[0]) else 0
  }

  function EndOf(x: C.Session): S.End {
    if x.terminal.None? then (if x.start == C.Failed then S.Closed else S.Live)
    else if x.settled then S.Closed
    else S.Ending(Requested(x))
  }

  function Seen(user: S.UserId, x: C.Session): S.Session {
    S.Session(user, x.policy.format, StartOf(x.start), EndOf(x), x.policy.limitSeconds,
              Audio.Stream(x.attemptedBytes, x.forwarded, x.phase == C.Streaming), x.progressMs)
  }

  // ----- an event of a controller as steps of the service -----

  function Head(id: S.SessionId, x: C.Session, e: C.Event): seq<S.Step> {
    if e.ClientAudio? && x.phase == C.Streaming then [S.Audio(id, e.frame)]
    else if e.Transcript? && x.phase != C.Closed then [S.Progress(id, e.finalMs, e.totalMs)]
    else []
  }

  /** The audio stops with the streaming phase; a terminal that must not bill settles at once. */
  function Tail(id: S.SessionId, x: C.Session, y: C.Session): seq<S.Step> {
    (if x.phase == C.Streaming && y.phase != C.Streaming then [S.StopAudio(id)] else [])
    + if x.terminal.Some? || y.terminal.None? then []
      else if C.Bills(y.terminal.value) then [S.BeginTerminal(id, true)]
      else [S.BeginTerminal(id, false)] + [S.WriteUsage(id, false)] + [S.FreeSlot(id)]
  }

  function StepsOf(id: S.SessionId, x: C.Session, e: C.Event): seq<S.Step> {
    if !C.Enabled(x, e) then []
    else
      match e
      case BudgetRead(_, _, _) => [S.ReadBudget(id)]
      case ProviderConnected => []
      case StartReturned => [S.Resolve(id)]
      case StartFailed => [S.StopAudio(id)] + [S.FailStart(id)]
      case UsageWritten(_, recorded) => [S.WriteUsage(id, recorded)] + [S.FreeSlot(id)]
      case _ => Head(id, x, e) + Tail(id, x, C.Next(x, e))
  }

  /** What the service decides about an event: the budget it reads, and that it was not disposed. */
  predicate Offered(p: S.ServicePolicy, used: nat, disposed: bool, e: C.Event) {
    match e
    case BudgetRead(limit, remaining, reason) =>
      && !disposed
      && remaining == Max(0, p.dailyLimitSeconds - used)
      && limit == Min(p.maxSessionSeconds, remaining)
      && reason == (if remaining <= p.maxSessionSeconds then C.QuotaLimit else C.SessionLimit)
    case StartReturned => !disposed
    case _ => true
  }

  /** What a sequence of steps of one session amounts to. */
  datatype Effect = Effect(next: S.Session, released: bool, recorded: Option<nat>)

  function Then(e: Effect, r: S.Reaction): Effect {
    match r
    case Stay => e
    case Become(y) => e.(next := y)
    case Leave(y) => e.(next := y, released := true)
    case Record(y, seconds) => e.(next := y, recorded := Some(e.recorded.GetOr(0) + seconds))
  }

  function Local(p: S.ServicePolicy, used: nat, disposed: bool, a: S.Session, steps: seq<S.Step>): Effect {
    if steps == [] then Effect(a, false, None)
    else
      var e := Local(p, used, disposed, a, steps[..|steps| - 1]);
      Then(e, S.React(p, used + e.recorded.GetOr(0), disposed, e.next, steps[|steps| - 1]))
  }

  lemma {:induction false} LocalThen(p: S.ServicePolicy, used: nat, disposed: bool, a: S.Session, steps: seq<S.Step>, step: S.Step)
    ensures var e := Local(p, used, disposed, a, steps);
            Local(p, used, disposed, a, steps + [step]) == Then(e, S.React(p, used + e.recorded.GetOr(0), disposed, e.next, step))
  {
    hide S.React, Then;
    assert (steps + [step])[..|steps|] == steps;
  }

  lemma LocalOne(p: S.ServicePolicy, used: nat, disposed: bool, a: S.Session, step: S.Step)
    ensures Local(p, used, disposed, a, [step]) == Then(Effect(a, false, None), S.React(p, used, disposed, a, step))
  {
    LocalThen(p, used, disposed, a, [], step);
    hide S.React;
    assert [] + [step] == [step];
  }

  lemma {:induction false} LocalCompose(p: S.ServicePolicy, used: nat, disposed: bool, a: S.Session, b: S.Session, head: seq<S.Step>, tail: seq<S.Step>)
    requires Local(p, used, disposed, a, head) == Effect(b, false, None)
    ensures Local(p, used, disposed, a, head + tail) == Local(p, used, disposed, b, tail)
  {
    hide S.React;
    if tail == [] {
      assert head + tail == head;
    } else {
      var n := |tail| - 1;
      LocalCompose(p, used, disposed, a, b, head, tail[..n]);
      assert head + tail == head + tail[..n] + [tail[n]];
      LocalThen(p, used, disposed, a, head + tail[..n], tail[n]);
    }
  }

  // ----- each event has the effect of its steps -----

  function Expected(user: S.UserId, x: C.Session, e: C.Event): Effect {
    var y := C.Next(x, e);
    Effect(Seen(user, y), y.releases > x.releases, if Records(x, e) then Some(Requested(x)) else None)
  }

  predicate Records(x: C.Session, e: C.Event) {
    e.UsageWritten? && e.recorded && C.Enabled(x, e)
  }

  ghost predicate Simulates(p: S.ServicePolicy, used: nat, disposed: bool, user: S.UserId, id: S.SessionId, x: C.Session, e: C.Event) {
    Local(p, used, disposed, Seen(user, x), StepsOf(id, x, e)) == Expected(user, x, e)
  }

  lemma BillAgrees(p: S.ServicePolicy, user: S.UserId, y: C.Session, a: S.Session)
    requires C.AudioValid(y)
    requires a.stream.attempted == y.attemptedBytes && a.format == y.policy.format && a.progressMs == y.progressMs
    ensures S.Bill(a) == C.Billable(y) >= 0
  {
    Audio.BillWithinLimit(y.policy, y.attemptedBytes, y.progressMs);
  }

  lemma StartSimulates(p: S.ServicePolicy, used: nat, disposed: bool, user: S.UserId, id: S.SessionId, x: C.Session, e: C.Event)
    requires C.Valid(x) && C.Enabled(x, e) && Offered(p, used, disposed, e)
    requires e.BudgetRead? || e.ProviderConnected? || e.StartReturned?
    ensures Simulates(p, used, disposed, user, id, x, e)
  {
    hide C.AudioValid;
    match e
    case BudgetRead(_, _, _) => LocalOne(p, used, disposed, Seen(user, x), S.ReadBudget(id));
    case StartReturned => LocalOne(p, used, disposed, Seen(user, x), S.Resolve(id));
    case _ =>
  }

  lemma FailureSimulates(p: S.ServicePolicy, used: nat, disposed: bool, user: S.UserId, id: S.SessionId, x: C.Session)
    requires C.Valid(x) && C.Enabled(x, C.StartFailed)
    ensures Simulates(p, used, disposed, user, id, x, C.StartFailed)
  {
    hide C.AudioValid;
    var a := Seen(user, x);
    LocalOne(p, used, disposed, a, S.StopAudio(id));
    LocalThen(p, used, disposed, a, [S.StopAudio(id)], S.FailStart(id));
  }

  lemma AnswerSimulates(p: S.ServicePolicy, used: nat, disposed: bool, user: S.UserId, id: S.SessionId, x: C.Session, e: C.Event)
    requires C.Valid(x) && C.Enabled(x, e) && e.UsageWritten?
    ensures Simulates(p, used, disposed, user, id, x, e)
  {
    hide C.AudioValid;
    var a := Seen(user, x);
    LocalOne(p, used, disposed, a, S.WriteUsage(id, e.recorded));
    LocalThen(p, used, disposed, a, [S.WriteUsage(id, e.recorded)], S.FreeSlot(id));
  }

  /** The session just before the tail: it still streams if it did, and its terminal has not begun. */
  ghost predicate BeforeTail(user: S.UserId, x: C.Session, y: C.Session, a: S.Session) {
    var b := Seen(user, y);
    && a == b.(end := a.end, stream := b.stream.(open := a.stream.open))
    && (a.stream.open ==> x.phase == C.Streaming)
    && (y.phase == C.Streaming ==> a.stream.open)
    && (x.terminal.Some? || y.terminal.None? ==> a.end == b.end)
    && (x.terminal.None? && y.terminal.Some? ==>
          (S.Providing(a) || (a.end == S.Ending(0) && !C.Bills(y.terminal.value))) && y.settled == !C.Bills(y.terminal.value))
  }

  lemma TailSimulates(p: S.ServicePolicy, used: nat, disposed: bool, user: S.UserId, id: S.SessionId, x: C.Session, y: C.Session, a: S.Session)
    requires C.Valid(y) && BeforeTail(user, x, y, a) && (x.phase == C.Streaming ==> x.terminal.None?)
    ensures Local(p, used, disposed, a, Tail(id, x, y)) ==
            Effect(Seen(user, y), x.terminal.None? && y.terminal.Some? && !C.Bills(y.terminal.value), None)
  {
    BillAgrees(p, user, y, a);
    hide C.AudioValid, S.Bill;
    var stops := if x.phase == C.Streaming && y.phase != C.Streaming then [S.StopAudio(id)] else [];
    var b := a.(stream := a.stream.(open := y.phase == C.Streaming));
    assert Local(p, used, disposed, a, stops) == Effect(b, false, None) by {
      LocalOne(p, used, disposed, a, S.StopAudio(id));
    }
    hide S.React;
    if x.terminal.Some? || y.terminal.None? {
      assert Tail(id, x, y) == stops;
    } else if C.Bills(y.terminal.value) {
      BillingEnds(p, used, disposed, user, id, y, b);
      LocalCompose(p, used, disposed, a, b, stops, [S.BeginTerminal(id, true)]);
    } else {
      SilentEnds(p, used, disposed, user, id, y, b);
      LocalCompose(p, used, disposed, a, b, stops, [S.BeginTerminal(id, false)] + [S.WriteUsage(id, false)] + [S.FreeSlot(id)]);
    }
  }

  lemma BillingEnds(p: S.ServicePolicy, used: nat, disposed: bool, user: S.UserId, id: S.SessionId, y: C.Session, b: S.Session)
    requires C.Valid(y) && y.terminal.Some? && C.Bills(y.terminal.value) && !y.settled
    requires b == Seen(user, y).(end := S.Live) && S.Providing(b) && S.Bill(b) == C.Billable(y) >= 0
    ensures Local(p, used, disposed, b, [S.BeginTerminal(id, true)]) == Effect(Seen(user, y), false, None)
  {
    hide C.AudioValid, S.Bill;
    LocalOne(p, used, disposed, b, S.BeginTerminal(id, true));
  }

  lemma SilentEnds(p: S.ServicePolicy, used: nat, disposed: bool, user: S.UserId, id: S.SessionId, y: C.Session, b: S.Session)
    requires y.terminal.Some? && y.settled && b == Seen(user, y).(end := b.end) && (S.Providing(b) || b.end == S.Ending(0))
    ensures Local(p, used, disposed, b, [S.BeginTerminal(id, false)] + [S.WriteUsage(id, false)] + [S.FreeSlot(id)]) ==
            Effect(Seen(user, y), true, None)
  {
    hide S.Bill;
    LocalOne(p, used, disposed, b, S.BeginTerminal(id, false));
    LocalThen(p, used, disposed, b, [S.BeginTerminal(id, false)], S.WriteUsage(id, false));
    LocalThen(p, used, disposed, b, [S.BeginTerminal(id, false)] + [S.WriteUsage(id, false)], S.FreeSlot(id));
  }

  predicate InSession(e: C.Event) {
    !e.BudgetRead? && !e.ProviderConnected? && !e.StartReturned? && !e.StartFailed? && !e.UsageWritten?
  }

  lemma AudioHead(p: S.ServicePolicy, used: nat, disposed: bool, user: S.UserId, id: S.SessionId, x: C.Session, e: C.Event)
    requires C.Valid(x) && C.Enabled(x, e) && x.policy.burstSeconds == p.audioPaceBurstSeconds
    requires e.ClientAudio? && x.phase == C.Streaming
    ensures var h := Local(p, used, disposed, Seen(user, x), Head(id, x, e));
            h == Effect(h.next, false, None) && BeforeTail(user, x, C.Next(x, e), h.next)
  {
    LocalOne(p, used, disposed, Seen(user, x), S.Audio(id, e.frame));
    Audio.FrameOutcome(x.policy, x.attemptedBytes, e.frame);
    C.EventStaysValid(x, e);
  }

  lemma TranscriptHead(p: S.ServicePolicy, used: nat, disposed: bool, user: S.UserId, id: S.SessionId, x: C.Session, e: C.Event)
    requires C.Valid(x) && C.Enabled(x, e) && e.Transcript? && x.phase != C.Closed
    ensures var h := Local(p, used, disposed, Seen(user, x), Head(id, x, e));
            h == Effect(h.next, false, None) && BeforeTail(user, x, C.Next(x, e), h.next)
  {
    LocalOne(p, used, disposed, Seen(user, x), S.Progress(id, e.finalMs, e.totalMs));
  }

  lemma EmptyHead(p: S.ServicePolicy, used: nat, disposed: bool, user: S.UserId, id: S.SessionId, x: C.Session, e: C.Event)
    requires C.Valid(x) && C.Enabled(x, e) && InSession(e) && Head(id, x, e) == []
    ensures BeforeTail(user, x, C.Next(x, e), Seen(user, x))
  {
  }

  lemma HeadSimulates(p: S.ServicePolicy, used: nat, disposed: bool, user: S.UserId, id: S.SessionId, x: C.Session, e: C.Event)
    requires C.Valid(x) && C.Enabled(x, e) && InSession(e) && x.policy.burstSeconds == p.audioPaceBurstSeconds
    ensures var h := Local(p, used, disposed, Seen(user, x), Head(id, x, e));
            h == Effect(h.next, false, None) && BeforeTail(user, x, C.Next(x, e), h.next)
  {
    hide C.Valid, C.Next, BeforeTail, S.React;
    if e.ClientAudio? && x.phase == C.Streaming {
      AudioHead(p, used, disposed, user, id, x, e);
    } else if e.Transcript? && x.phase != C.Closed {
      TranscriptHead(p, used, disposed, user, id, x, e);
    } else {
      EmptyHead(p, used, disposed, user, id, x, e);
    }
  }

  /** Which terminal an event begins, and what it releases, is all the tail depends on. */
  lemma InSessionReleases(x: C.Session, e: C.Event)
    requires C.Valid(x) && C.Enabled(x, e) && InSession(e)
    ensures var y := C.Next(x, e);
            && (y.releases > x.releases <==> x.terminal.None? && y.terminal.Some? && !C.Bills(y.terminal.value))
            && (x.phase == C.Streaming ==> x.terminal.None?)
  {
    C.EventStaysValid(x, e);
    hide C.AudioValid;
  }

  lemma InSessionSimulates(p: S.ServicePolicy, used: nat, disposed: bool, user: S.UserId, id: S.SessionId, x: C.Session, e: C.Event)
    requires C.Valid(x) && C.Enabled(x, e) && InSession(e) && x.policy.burstSeconds == p.audioPaceBurstSeconds
    ensures Simulates(p, used, disposed, user, id, x, e)
  {
    hide C.Valid, C.Next, C.Enabled, BeforeTail, S.React, Local, Head, Tail, Seen;
    var y, h := C.Next(x, e), Local(p, used, disposed, Seen(user, x), Head(id, x, e));
    C.EventStaysValid(x, e);
    InSessionReleases(x, e);
    HeadSimulates(p, used, disposed, user, id, x, e);
    TailSimulates(p, used, disposed, user, id, x, y, h.next);
    LocalCompose(p, used, disposed, Seen(user, x), h.next, Head(id, x, e), Tail(id, x, y));
  }

  /**
   * Every event of a controller is a few steps of the service: they lead to the controller as the service then
   * sees it, free its slot exactly when the controller releases it, and record exactly what it asked for.
   */
  lemma EventSimulates(p: S.ServicePolicy, used: nat, disposed: bool, user: S.UserId, id: S.SessionId, x: C.Session, e: C.Event)
    requires C.Valid(x) && x.policy.burstSeconds == p.audioPaceBurstSeconds && Offered(p, used, disposed, e)
    ensures Simulates(p, used, disposed, user, id, x, e)
  {
    if C.Enabled(x, e) {
      hide Simulates, C.AudioValid, C.Handle;
      if e.StartFailed? {
        FailureSimulates(p, used, disposed, user, id, x);
      } else if e.UsageWritten? {
        AnswerSimulates(p, used, disposed, user, id, x, e);
      } else if InSession(e) {
        InSessionSimulates(p, used, disposed, user, id, x, e);
      } else {
        StartSimulates(p, used, disposed, user, id, x, e);
      }
    }
  }

  // ----- all controllers under one service -----

  datatype Owned = Owned(user: S.UserId, session: C.Session)

  datatype System = System(disposed: bool, slots: S.Slots, sessions: map<S.SessionId, Owned>, usedSeconds: map<S.UserId, nat>)

  datatype SystemStep =
    | Admit(id: S.SessionId, user: S.UserId, format: Audio.AudioFormat)
    | Happen(id: S.SessionId, event: C.Event)
    | Shutdown

  function Used(s: System, user: S.UserId): nat {
    if user in s.usedSeconds then s.usedSeconds[user] else 0
  }

  function Happens(p: S.ServicePolicy, s: System, id: S.SessionId, e: C.Event): System
    requires id in s.sessions
  {
    var user, x := s.sessions[id].user, s.sessions[id].session;
    var y := C.Next(x, e);
    System(
      s.disposed,
      if y.releases > x.releases then S.Release(s.slots, id) else s.slots,
      s.sessions[id := Owned(user, y)],
      if Records(x, e) then s.usedSeconds[user := Used(s, user) + Requested(x)] else s.usedSeconds)
  }

  function Next(p: S.ServicePolicy, s: System, step: SystemStep): System {
    match step
    case Shutdown => s.(disposed := true)
    case Admit(id, user, format) =>
      if s.disposed || id in s.sessions || S.AtCapacity(p, s.slots, user) then s
      else
        s.(slots := S.Acquire(s.slots, id, user),
           sessions := s.sessions[id := Owned(user, C.Opened(format, p.audioPaceBurstSeconds))])
    case Happen(id, e) =>
      if id !in s.sessions || !Offered(p, Used(s, s.sessions[id].user), s.disposed, e) then s else Happens(p, s, id, e)
  }

  const IDLE := System(false, S.NO_SLOTS, map[], map[])

  function Run(p: S.ServicePolicy, steps: seq<SystemStep>): System {
    if steps == [] then IDLE else Next(p, Run(p, steps[..|steps| - 1]), steps[|steps| - 1])
  }

  function ServiceOf(s: System): S.Service {
    S.Service(s.disposed, s.slots, map id | id in s.sessions :: Seen(s.sessions[id].user, s.sessions[id].session), s.usedSeconds)
  }

  /** The service steps behind one step of the system. */
  function StepsFor(p: S.ServicePolicy, s: System, step: SystemStep): seq<S.Step> {
    match step
    case Shutdown => [S.Shutdown]
    case Admit(id, user, format) => [S.Admit(id, user, format)]
    case Happen(id, e) =>
      if id !in s.sessions || !Offered(p, Used(s, s.sessions[id].user), s.disposed, e) then []
      else StepsOf(id, s.sessions[id].session, e)
  }

  function Trace(p: S.ServicePolicy, steps: seq<SystemStep>): seq<S.Step> {
    if steps == [] then []
    else
      var n := |steps| - 1;
      Trace(p, steps[..n]) + StepsFor(p, Run(p, steps[..n]), steps[n])
  }

  ghost predicate SystemValid(p: S.ServicePolicy, s: System) {
    forall id <- s.sessions :: C.Valid(s.sessions[id].session) && s.sessions[id].session.policy.burstSeconds == p.audioPaceBurstSeconds
  }

  lemma StepIsValid(p: S.ServicePolicy, s: System, step: SystemStep)
    requires SystemValid(p, s)
    ensures SystemValid(p, Next(p, s, step))
  {
    hide C.Valid, C.Handle;
    match step
    case Admit(_, _, format) => C.OpenedIsValid(format, p.audioPaceBurstSeconds);
    case Happen(id, e) =>
      if id in s.sessions {
        C.EventStaysValid(s.sessions[id].session, e);
        C.StepKeepsPolicy(s.sessions[id].session, e);
        hide C.Next;
      }
    case Shutdown =>
  }

  lemma {:induction false} RunIsValid(p: S.ServicePolicy, steps: seq<SystemStep>)
    ensures SystemValid(p, Run(p, steps))
  {
    if steps != [] {
      RunIsValid(p, steps[..|steps| - 1]);
      hide SystemValid, Next;
      StepIsValid(p, Run(p, steps[..|steps| - 1]), steps[|steps| - 1]);
    }
  }

  function After(p: S.ServicePolicy, s: S.Service, steps: seq<S.Step>): S.Service {
    if steps == [] then s else S.Next(p, After(p, s, steps[..|steps| - 1]), steps[|steps| - 1])
  }

  lemma {:induction false} RunAfter(p: S.ServicePolicy, steps: seq<S.Step>, more: seq<S.Step>)
    ensures S.Run(p, steps + more) == After(p, S.Run(p, steps), more)
  {
    hide S.Next;
    if more == [] {
      assert steps + more == steps;
    } else {
      var n := |more| - 1;
      RunAfter(p, steps, more[..n]);
      assert (steps + more)[..|steps| + n] == steps + more[..n];
    }
  }

  function Lift(s: S.Service, id: S.SessionId, e: Effect): S.Service
    requires id in s.sessions
  {
    var user := s.sessions[id].user;
    S.Service(
      s.disposed,
      if e.released then S.Release(s.slots, id) else s.slots,
      s.sessions[id := e.next],
      if e.recorded.Some? then s.usedSeconds[user := S.Used(s, user) + e.recorded.value] else s.usedSeconds)
  }

  predicate Concerns(step: S.Step, id: S.SessionId) {
    !step.Shutdown? && !step.Admit? && step.id == id
  }

  lemma KeepsUser(p: S.ServicePolicy, used: nat, disposed: bool, x: S.Session, step: S.Step)
    ensures var r := S.React(p, used, disposed, x, step); r != S.Stay ==> r.next.user == x.user
  {}

  lemma LiftApply(p: S.ServicePolicy, s: S.Service, id: S.SessionId, e: Effect, r: S.Reaction)
    requires id in s.sessions && S.Release(S.Release(s.slots, id), id) == S.Release(s.slots, id)
    requires e.next.user == s.sessions[id].user && (r != S.Stay ==> r.next.user == e.next.user)
    ensures S.Apply(Lift(s, id, e), id, r) == Lift(s, id, Then(e, r))
  {
    hide S.Release;
    if r != S.Stay {
      assert s.sessions[id := e.next][id := r.next] == s.sessions[id := r.next];
    }
  }

  lemma LiftStep(p: S.ServicePolicy, s: S.Service, id: S.SessionId, e: Effect, step: S.Step)
    requires id in s.sessions && S.SlotsExact(s.slots) && S.WithinCeilings(p, s.slots) && Concerns(step, id)
    requires e.next.user == s.sessions[id].user
    ensures var r := S.React(p, S.Used(s, e.next.user) + e.recorded.GetOr(0), s.disposed, e.next, step);
            S.Next(p, Lift(s, id, e), step) == Lift(s, id, Then(e, r))
  {
    S.ReleaseIsIdempotent(p, s.slots, id);
    hide S.Release, S.React, S.SlotsExact, S.WithinCeilings, S.Apply, Then;
    var t := Lift(s, id, e);
    assert S.Used(t, e.next.user) == S.Used(s, e.next.user) + e.recorded.GetOr(0);
    var r := S.React(p, S.Used(s, e.next.user) + e.recorded.GetOr(0), s.disposed, e.next, step);
    KeepsUser(p, S.Used(s, e.next.user) + e.recorded.GetOr(0), s.disposed, e.next, step);
    LiftApply(p, s, id, e, r);
  }

  lemma {:induction false} LocalLifts(p: S.ServicePolicy, s: S.Service, id: S.SessionId, steps: seq<S.Step>)
    requires id in s.sessions && S.SlotsExact(s.slots) && S.WithinCeilings(p, s.slots)
    requires forall step <- steps :: Concerns(step, id)
    ensures var e := Local(p, S.Used(s, s.sessions[id].user), s.disposed, s.sessions[id], steps);
            e.next.user == s.sessions[id].user && After(p, s, steps) == Lift(s, id, e)
  {
    hide S.Next, S.React, S.SlotsExact, S.WithinCeilings, S.Release;
    var user := s.sessions[id].user;
    if steps == [] {
      assert s.sessions[id := s.sessions[id]] == s.sessions;
    } else {
      var n := |steps| - 1;
      LocalLifts(p, s, id, steps[..n]);
      var e := Local(p, S.Used(s, user), s.disposed, s.sessions[id], steps[..n]);
      LiftStep(p, s, id, e, steps[n]);
      KeepsUser(p, S.Used(s, user) + e.recorded.GetOr(0), s.disposed, e.next, steps[n]);
      hide Lift;
    }
  }

  lemma StepsConcern(id: S.SessionId, x: C.Session, e: C.Event)
    ensures forall step <- StepsOf(id, x, e) :: Concerns(step, id)
  {
    hide C.Enabled, C.Handle;
  }

  lemma HappensLifts(p: S.ServicePolicy, s: System, id: S.SessionId, e: C.Event)
    requires id in s.sessions
    ensures ServiceOf(Happens(p, s, id, e)) == Lift(ServiceOf(s), id, Expected(s.sessions[id].user, s.sessions[id].session, e))
  {
    hide C.Next, S.Release, Records;
    var user, x := s.sessions[id].user, s.sessions[id].session;
    assert ServiceOf(Happens(p, s, id, e)).sessions == ServiceOf(s).sessions[id := Seen(user, C.Next(x, e))];
  }

  lemma HappenRefines(p: S.ServicePolicy, s: System, id: S.SessionId, e: C.Event)
    requires SystemValid(p, s) && S.SlotsExact(s.slots) && S.WithinCeilings(p, s.slots)
    requires id in s.sessions && Offered(p, Used(s, s.sessions[id].user), s.disposed, e)
    ensures ServiceOf(Happens(p, s, id, e)) == After(p, ServiceOf(s), StepsOf(id, s.sessions[id].session, e))
  {
    hide StepsOf, C.Valid, C.Next, S.SlotsExact, S.WithinCeilings, S.Release, Offered, After, Local, Lift, Expected, Happens;
    var user, x := s.sessions[id].user, s.sessions[id].session;
    EventSimulates(p, Used(s, user), s.disposed, user, id, x, e);
    StepsConcern(id, x, e);
    LocalLifts(p, ServiceOf(s), id, StepsOf(id, x, e));
    HappensLifts(p, s, id, e);
  }

  lemma AfterOne(p: S.ServicePolicy, s: S.Service, step: S.Step)
    ensures After(p, s, [step]) == S.Next(p, s, step)
  {
    hide S.Next;
    assert After(p, s, [step][..0]) == s;
  }

  lemma StepRefines(p: S.ServicePolicy, s: System, step: SystemStep)
    requires SystemValid(p, s) && S.SlotsExact(s.slots) && S.WithinCeilings(p, s.slots)
    ensures ServiceOf(Next(p, s, step)) == After(p, ServiceOf(s), StepsFor(p, s, step))
  {
    match step
    case Happen(id, e) =>
      hide S.SlotsExact, S.WithinCeilings;
      if id in s.sessions && Offered(p, Used(s, s.sessions[id].user), s.disposed, e) {
        HappenRefines(p, s, id, e);
      }
    case Shutdown => AfterOne(p, ServiceOf(s), S.Shutdown);
    case Admit(id, user, format) =>
      AfterOne(p, ServiceOf(s), S.Admit(id, user, format));
      AdmitRefines(p, s, id, user, format);
  }

  lemma AdmitRefines(p: S.ServicePolicy, s: System, id: S.SessionId, user: S.UserId, format: Audio.AudioFormat)
    ensures ServiceOf(Next(p, s, Admit(id, user, format))) == S.Next(p, ServiceOf(s), S.Admit(id, user, format))
  {
    hide S.Acquire, S.AtCapacity;
    var t := Next(p, s, Admit(id, user, format));
    if t != s {
      assert ServiceOf(t).sessions == ServiceOf(s).sessions[id := S.Newcomer(user, format)];
    }
  }

  /** Every run of controllers under their service is, step for step, a run of the service model. */
  lemma {:induction false} RunRefines(p: S.ServicePolicy, steps: seq<SystemStep>)
    ensures ServiceOf(Run(p, steps)) == S.Run(p, Trace(p, steps))
  {
    if steps == [] {
      assert ServiceOf(IDLE).sessions == map[];
    } else {
      var n := |steps| - 1;
      RunRefines(p, steps[..n]);
      RunIsValid(p, steps[..n]);
      S.RunIsValid(p, Trace(p, steps[..n]));
      var s := Run(p, steps[..n]);
      assert s.slots == ServiceOf(s).slots;
      StepRefines(p, s, steps[n]);
      RunAfter(p, Trace(p, steps[..n]), StepsFor(p, s, steps[n]));
      hide S.Next, S.Run, Next, After, ServiceOf, SystemValid;
    }
  }

  /**
   * The bound on daily usage, of the controllers themselves: over every interleaving of their events the
   * recorded seconds of a user stay within it.
   */
  lemma ControllersStayWithinBudget(p: S.ServicePolicy, steps: seq<SystemStep>, user: S.UserId)
    ensures Used(Run(p, steps), user) <= p.dailyLimitSeconds + S.Overshoot(p) + S.BilledByFailed(p, Trace(p, steps), user)
  {
    RunRefines(p, steps);
    S.OvershootBound(p, Trace(p, steps), user);
    hide Run, Trace, S.Run, S.BilledByFailed;
  }

  /** The start of a controller fails while its terminal, with seconds to bill, awaits the usage write. */
  predicate FailsOwing(s: System, step: SystemStep) {
    && step.Happen? && step.event.StartFailed? && step.id in s.sessions
    && var x := s.sessions[step.id].session;
       C.Enabled(x, C.StartFailed) && x.terminal.Some? && !x.settled && Requested(x) > 0
  }

  ghost predicate NoStartFailsOwing(p: S.ServicePolicy, steps: seq<SystemStep>) {
    forall m :: 0 <= m < |steps| ==> !FailsOwing(Run(p, steps[..m]), steps[m])
  }

  lemma OnlyStartFailures(id: S.SessionId, x: C.Session, e: C.Event, m: nat)
    requires m < |StepsOf(id, x, e)| && StepsOf(id, x, e)[m].FailStart?
    ensures e.StartFailed? && C.Enabled(x, e) && m == 1
  {
    hide C.Enabled, C.Handle;
  }

  lemma StopKeepsOwing(p: S.ServicePolicy, s: S.Service, id: S.SessionId)
    requires id in s.sessions
    ensures var t := S.Next(p, s, S.StopAudio(id));
            id in t.sessions && t.sessions[id].start == s.sessions[id].start && t.sessions[id].end == s.sessions[id].end
  {}

  lemma FailsOwingAlike(p: S.ServicePolicy, s: System, step: SystemStep, m: nat)
    requires m < |StepsFor(p, s, step)| && !FailsOwing(s, step)
    ensures !S.FailsOwing(After(p, ServiceOf(s), StepsFor(p, s, step)[..m]), StepsFor(p, s, step)[m])
  {
    hide StepsOf, After;
    var steps := StepsFor(p, s, step);
    if steps[m].FailStart? {
      OnlyStartFailures(step.id, s.sessions[step.id].session, step.event, m);
      hide S.Next, C.Enabled;
      StartFailureSteps(step.id, s.sessions[step.id].session);
      assert steps == [S.StopAudio(step.id), S.FailStart(step.id)];
      assert steps[..m] == [S.StopAudio(step.id)];
      AfterOne(p, ServiceOf(s), S.StopAudio(step.id));
      StopKeepsOwing(p, ServiceOf(s), step.id);
    }
  }

  lemma StartFailureSteps(id: S.SessionId, x: C.Session)
    requires C.Enabled(x, C.StartFailed)
    ensures StepsOf(id, x, C.StartFailed) == [S.StopAudio(id), S.FailStart(id)]
  {}

  lemma StepFailsAlike(p: S.ServicePolicy, s: System, step: SystemStep, before: seq<S.Step>)
    requires S.Run(p, before) == ServiceOf(s) && S.NoStartFailsOwing(p, before) && !FailsOwing(s, step)
    ensures S.NoStartFailsOwing(p, before + StepsFor(p, s, step))
  {
    hide S.Run, StepsFor, FailsOwing, S.FailsOwing, After, ServiceOf;
    var more := StepsFor(p, s, step);
    forall m | 0 <= m < |before + more| ensures !S.FailsOwing(S.Run(p, (before + more)[..m]), (before + more)[m]) {
      if m < |before| {
        assert (before + more)[..m] == before[..m];
      } else {
        assert (before + more)[..m] == before + more[..m - |before|];
        RunAfter(p, before, more[..m - |before|]);
        FailsOwingAlike(p, s, step, m - |before|);
      }
    }
  }

  lemma NothingOwedInPrefix(p: S.ServicePolicy, steps: seq<SystemStep>)
    requires NoStartFailsOwing(p, steps) && steps != []
    ensures var n := |steps| - 1; NoStartFailsOwing(p, steps[..n]) && !FailsOwing(Run(p, steps[..n]), steps[n])
  {
    hide Run, FailsOwing;
    assert forall m :: 0 <= m < |steps| - 1 ==> steps[..|steps| - 1][..m] == steps[..m];
  }

  lemma {:induction false} TraceFailsAlike(p: S.ServicePolicy, steps: seq<SystemStep>)
    requires NoStartFailsOwing(p, steps)
    ensures S.NoStartFailsOwing(p, Trace(p, steps))
  {
    if steps != [] {
      var n := |steps| - 1;
      hide Run, S.Run, StepsFor, FailsOwing, NoStartFailsOwing, S.NoStartFailsOwing, ServiceOf;
      NothingOwedInPrefix(p, steps);
      TraceFailsAlike(p, steps[..n]);
      RunRefines(p, steps[..n]);
      StepFailsAlike(p, Run(p, steps[..n]), steps[n], Trace(p, steps[..n]));
    }
  }

  /** Unless such a start fails, the documented bound holds of the controllers, and the sharper one. */
  lemma ControllersKeepDocumentedBound(p: S.ServicePolicy, steps: seq<SystemStep>, user: S.UserId)
    requires NoStartFailsOwing(p, steps)
    ensures Used(Run(p, steps), user) <= p.dailyLimitSeconds + S.Overshoot(p)
    ensures Used(Run(p, steps), user) <= p.dailyLimitSeconds + p.maxConcurrentSessionsPerUser * p.maxSessionSeconds
  {
    RunRefines(p, steps);
    TraceFailsAlike(p, steps);
    S.DocumentedBound(p, Trace(p, steps), user);
    hide Run, Trace, S.Run, S.NoStartFailsOwing, NoStartFailsOwing;
  }

  lemma HoldsUntilOver(user: S.UserId, x: C.Session)
    requires C.Valid(x)
    ensures S.HoldsSlot(Seen(user, x)) <==> !x.settled && x.start != C.Failed
  {
    hide C.AudioValid;
  }

  /** No slot leaks or is freed early: a controller holds one exactly until it settles or its start fails. */
  lemma SlotsFollowControllers(p: S.ServicePolicy, steps: seq<SystemStep>)
    ensures var s := Run(p, steps);
            forall id :: id in s.slots.active <==>
              id in s.sessions && !s.sessions[id].session.settled && s.sessions[id].session.start != C.Failed
  {
    RunRefines(p, steps);
    S.RunIsValid(p, Trace(p, steps));
    RunIsValid(p, steps);
    var s := Run(p, steps);
    hide Run, Trace, S.Run, C.Valid, S.SessionsValid, S.SlotsExact, S.WithinCeilings, S.HoldsSlot, Seen;
    forall id | id in s.sessions
      ensures S.HoldsSlot(ServiceOf(s).sessions[id]) <==> !s.sessions[id].session.settled && s.sessions[id].session.start != C.Failed
    {
      HoldsUntilOver(s.sessions[id].user, s.sessions[id].session);
    }
  }
}
