/**
 * The client socket in front of a realtime session. Frames, timers, shutdown, the session's callbacks
 * and resumed awaits interleave freely; every send may succeed, be refused or throw.
 */
module RealtimeSocket {
  datatype Code =
    | ProviderUnavailable | ProviderRejected | ProviderTimeout | ProviderCapacity
    | StartTimeout | AudioTimeout | ServiceRestarting | QuotaExhausted
    | InvalidAudio | InvalidMessage | UnsupportedProtocol | InternalError | SlowClient

  datatype Frame = ReadyFrame | TranscriptFrame | CompleteFrame | ErrorFrame(code: Code)

  predicate IsTerminal(f: Frame) {
    f.CompleteFrame? || f.ErrorFrame?
  }

  datatype RouteState = AwaitingStart | Starting | Streaming | Finishing | Closed

  /** `waiting` holds the error codes of terminations suspended in the session's cancel. */
  datatype Socket = Socket(
    state: RouteState,
    terminalSent: bool,
    open: bool,
    hasSession: bool,
    startPending: bool,
    waiting: seq<Code>,
    frames: seq<Frame>)

  const CONNECTED := Socket(AwaitingStart, false, true, false, false, [], [])

  /** What happens to one send: delivered, refused for a slow peer or an oversized event (with or without room for the notice), or thrown. */
  datatype Wire = Delivered | Slow(noticeSent: bool) | Oversized(noticeSent: bool) | Throws

  /** The environment of one step: the fate of its send, and whether closing the socket works. */
  datatype Env = Env(wire: Wire, closes: bool)

  datatype StartFrame = ValidStart | InvalidStart | UnsupportedStart

  datatype Message =
    | Binary(acceptable: bool)
    | FinishControl
    | CancelControl
    | BadControl

  datatype Event =
    | StartDeadline
    | Disconnected(stillOpen: bool)
    | ShutdownBegins
    | FirstMessage(binary: bool, start: StartFrame)
    | ClientMessage(message: Message)
    | StartResolved
    | StartRejected(code: Code)
    | TerminationResumed
    | CancelResumed
    | ControlRejected
    | OnReady
    | OnTranscript
    | OnComplete
    | OnError(code: Code)

  // ----- sending -----

  function CloseSocket(s: Socket, env: Env): Socket {
    s.(open := s.open && !env.closes)
  }

  function Emit(s: Socket, f: Frame): Socket {
    s.(frames := s.frames + [f])
  }

  function SendEvent(s: Socket, f: Frame, env: Env): Socket {
    if !s.open then s
    else
      match env.wire
      case Delivered => Emit(s, f)
      case Slow(noticeSent) => CloseSocket(if noticeSent then Emit(s, ErrorFrame(SlowClient)) else s, env)
      case Oversized(noticeSent) => CloseSocket(if noticeSent then Emit(s, ErrorFrame(InternalError)) else s, env)
      case Throws => CloseSocket(s, env)
  }

  predicate SendWorks(s: Socket, env: Env) {
    s.open && env.wire == Delivered
  }

  // ----- handlers -----

  function EndWith(s: Socket, f: Frame, env: Env): Socket {
    CloseSocket(SendEvent(s.(state := Closed, terminalSent := true), f, env), env)
  }

  function BeginRouteError(s: Socket, code: Code, env: Env): Socket {
    if s.terminalSent then s else EndWith(s, ErrorFrame(code), env)
  }

  /** Up to the await of the session's cancel; without a session there is nothing to await. */
  function TerminateActive(s: Socket, code: Code, env: Env): Socket {
    if s.hasSession then s.(state := Closed, terminalSent := true, waiting := s.waiting + [code])
    else EndWith(s, ErrorFrame(code), env)
  }

  function ResumeTermination(s: Socket, env: Env): Socket {
    if s.waiting == [] then s
    else CloseSocket(SendEvent(s.(waiting := s.waiting[1..]), ErrorFrame(s.waiting[0]), env), env)
  }

  function Forward(s: Socket, f: Frame, env: Env): Socket {
    if s.state == Closed then s
    else
      var sent := SendEvent(s, f, env);
      if SendWorks(s, env) then sent else sent.(terminalSent := true, state := Closed)
  }

  function SessionTerminal(s: Socket, f: Frame, env: Env): Socket {
    if s.terminalSent then s else EndWith(s, f, env)
  }

  function HandleFirst(s: Socket, binary: bool, start: StartFrame, env: Env): Socket {
    var starting := s.(state := Starting);
    if binary then BeginRouteError(starting, InvalidAudio, env)
    else
      match start
      case UnsupportedStart => BeginRouteError(starting, UnsupportedProtocol, env)
      case InvalidStart => BeginRouteError(starting, InvalidMessage, env)
      case ValidStart => starting.(startPending := true)
  }

  function HandleMessage(s: Socket, m: Message, env: Env): Socket {
    match s.state
    case Closed => s
    case Finishing => if m.Binary? then TerminateActive(s, InvalidAudio, env) else s
    case Starting => BeginRouteError(s, if m.Binary? then InvalidAudio else InvalidMessage, env)
    case AwaitingStart => s
    case Streaming =>
      match m
      case Binary(acceptable) =>
        if !acceptable then TerminateActive(s, InvalidAudio, env)
        else if !s.hasSession then BeginRouteError(s, InternalError, env)
        else s
      case FinishControl => s.(state := Finishing)
      case CancelControl => s.(state := Closed)
      case BadControl => TerminateActive(s, InvalidMessage, env)
  }

  function Next(s: Socket, e: Event, env: Env): Socket {
    match e
    case StartDeadline => if s.state != AwaitingStart then s else EndWith(s, ErrorFrame(StartTimeout), env)
    case ShutdownBegins => if s.state != AwaitingStart then s else EndWith(s, ErrorFrame(ServiceRestarting), env)
    case Disconnected(stillOpen) => s.(state := Closed, terminalSent := true, open := s.open && stillOpen)
    case FirstMessage(binary, start) => if s.state != AwaitingStart then s else HandleFirst(s, binary, start, env)
    case ClientMessage(message) => HandleMessage(s, message, env)
    case StartResolved =>
      if !s.startPending then s
      else if s.state == Closed then s.(startPending := false)
      else s.(startPending := false, hasSession := true, state := Streaming)
    case StartRejected(code) =>
      if !s.startPending then s
      else if s.state == Closed then s.(startPending := false)
      else BeginRouteError(s.(startPending := false), code, env)
    case TerminationResumed => ResumeTermination(s, env)
    case CancelResumed => CloseSocket(s, env)
    case ControlRejected => BeginRouteError(s, ProviderUnavailable, env)
    case OnReady => Forward(s, ReadyFrame, env)
    case OnTranscript => Forward(s, TranscriptFrame, env)
    case OnComplete => SessionTerminal(s, CompleteFrame, env)
    case OnError(code) => SessionTerminal(s, ErrorFrame(code), env)
  }

  datatype Step = Step(event: Event, env: Env)

  function Run(steps: seq<Step>): Socket {
    if steps == [] then CONNECTED
    else Next(Run(steps[..|steps| - 1]), steps[|steps| - 1].event, steps[|steps| - 1].env)
  }

  // ----- what the client can see -----

  predicate Over(frames: seq<Frame>) {
    frames != [] && IsTerminal(frames[|frames| - 1])
  }

  /** No frame before the last one is terminal. */
  ghost predicate Orderly(frames: seq<Frame>) {
    forall i :: 0 <= i < |frames| - 1 ==> !IsTerminal(frames[i])
  }

  /** A terminal frame, sent or suspended, is unique and last; until one is decided, none has been sent. */
  ghost predicate Valid(s: Socket) {
    && Orderly(s.frames)
    && |s.waiting| <= 1
    && (s.terminalSent ==> s.state == Closed)
    && (!s.terminalSent ==> !Over(s.frames) && s.waiting == [])
    && (s.waiting != [] ==> !Over(s.frames))
    && (s.startPending ==> s.state == Starting || s.state == Closed)
  }

  lemma EmitIsOrderly(frames: seq<Frame>, f: Frame)
    requires Orderly(frames) && !Over(frames)
    ensures Orderly(frames + [f]) && (Over(frames + [f]) <==> IsTerminal(f))
  {}

  /** A send adds at most one frame, and anything but the frame asked for is terminal. */
  lemma SendIsOrderly(s: Socket, f: Frame, env: Env)
    requires Orderly(s.frames) && !Over(s.frames)
    ensures var t := SendEvent(s, f, env);
            && Orderly(t.frames)
            && t == s.(frames := t.frames, open := t.open)
            && (SendWorks(s, env) && !IsTerminal(f) ==> !Over(t.frames))
            && (t.frames == s.frames || exists g :: t.frames == s.frames + [g] && (g == f || IsTerminal(g)))
  {
    EmitIsOrderly(s.frames, f);
    EmitIsOrderly(s.frames, ErrorFrame(SlowClient));
    EmitIsOrderly(s.frames, ErrorFrame(InternalError));
  }

  /** The route ends validly: closed, and adding at most one frame, a terminal one. */
  ghost predicate EndsFrom(s: Socket, t: Socket) {
    && Valid(t)
    && t.state == Closed
    && (t.frames == s.frames || exists g :: t.frames == s.frames + [g] && IsTerminal(g))
  }

  lemma EndWithEnds(s: Socket, f: Frame, env: Env)
    requires Valid(s) && !s.terminalSent && IsTerminal(f)
    ensures EndsFrom(s, EndWith(s, f, env))
  {
    hide Orderly;
    SendIsOrderly(s.(state := Closed, terminalSent := true), f, env);
  }

  lemma ResumeEnds(s: Socket, env: Env)
    requires Valid(s) && s.waiting != []
    ensures EndsFrom(s, ResumeTermination(s, env))
  {
    hide Orderly;
    SendIsOrderly(s.(waiting := s.waiting[1..]), ErrorFrame(s.waiting[0]), env);
  }

  lemma ForwardIsValid(s: Socket, f: Frame, env: Env)
    requires Valid(s) && !IsTerminal(f)
    ensures Valid(Forward(s, f, env))
    ensures s.state == Closed ==> Forward(s, f, env) == s
  {
    hide Orderly;
    if s.state != Closed {
      SendIsOrderly(s, f, env);
    }
  }

  lemma MessageIsValid(s: Socket, m: Message, env: Env)
    requires Valid(s)
    ensures Valid(HandleMessage(s, m, env))
    ensures s.state == Closed ==> HandleMessage(s, m, env) == s
  {
    hide Orderly, SendEvent, CloseSocket;
    if !s.terminalSent {
      EndWithEnds(s, ErrorFrame(InvalidAudio), env);
      EndWithEnds(s, ErrorFrame(InvalidMessage), env);
      EndWithEnds(s, ErrorFrame(InternalError), env);
    }
  }

  lemma FirstIsValid(s: Socket, binary: bool, start: StartFrame, env: Env)
    requires Valid(s) && s.state == AwaitingStart
    ensures Valid(HandleFirst(s, binary, start, env))
  {
    hide Orderly, SendEvent, CloseSocket;
    var starting := s.(state := Starting);
    EndWithEnds(starting, ErrorFrame(InvalidAudio), env);
    EndWithEnds(starting, ErrorFrame(UnsupportedProtocol), env);
    EndWithEnds(starting, ErrorFrame(InvalidMessage), env);
  }

  lemma StepIsValid(s: Socket, e: Event, env: Env)
    requires Valid(s)
    ensures Valid(Next(s, e, env))
    ensures s.state == Closed ==> EndsFrom(s, Next(s, e, env))
  {
    hide Orderly, SendEvent, HandleMessage, HandleFirst, Forward;
    if !s.terminalSent {
      EndWithEnds(s, ErrorFrame(StartTimeout), env);
      EndWithEnds(s, ErrorFrame(ServiceRestarting), env);
      EndWithEnds(s, ErrorFrame(ProviderUnavailable), env);
    }
    match e
    case FirstMessage(binary, start) => if s.state == AwaitingStart { FirstIsValid(s, binary, start, env); }
    case ClientMessage(message) => MessageIsValid(s, message, env);
    case StartRejected(code) =>
      if s.startPending && s.state != Closed { EndWithEnds(s.(startPending := false), ErrorFrame(code), env); }
    case TerminationResumed => if s.waiting != [] { ResumeEnds(s, env); }
    case OnReady => ForwardIsValid(s, ReadyFrame, env);
    case OnTranscript => ForwardIsValid(s, TranscriptFrame, env);
    case OnComplete => if !s.terminalSent { EndWithEnds(s, CompleteFrame, env); }
    case OnError(code) => if !s.terminalSent { EndWithEnds(s, ErrorFrame(code), env); }
    case _ =>
  }

  /**
   * Over every interleaving of frames, timers, callbacks, resumptions and shutdown, and whatever each
   * send does: the client sees at most one terminal frame, and nothing after it.
   */
  lemma {:induction false} OneTerminalFrame(steps: seq<Step>)
    ensures var frames := Run(steps).frames;
            forall i :: 0 <= i < |frames| - 1 ==> !IsTerminal(frames[i])
    ensures Valid(Run(steps))
  {
    if steps != [] {
      var last := steps[|steps| - 1];
      OneTerminalFrame(steps[..|steps| - 1]);
      StepIsValid(Run(steps[..|steps| - 1]), last.event, last.env);
    }
  }

  function RunFrom(s: Socket, steps: seq<Step>): Socket {
    if steps == [] then s
    else Next(RunFrom(s, steps[..|steps| - 1]), steps[|steps| - 1].event, steps[|steps| - 1].env)
  }

  /** Running from the connected socket is running. */
  lemma {:induction false} RunFromConnected(steps: seq<Step>)
    ensures RunFrom(CONNECTED, steps) == Run(steps)
  {
    if steps != [] { RunFromConnected(steps[..|steps| - 1]); }
  }

  /** Once the route is closed it never opens again, and all the client can still get is one terminal frame. */
  lemma {:induction false} ClosedRouteOnlyEnds(s: Socket, steps: seq<Step>)
    requires Valid(s) && s.state == Closed
    ensures var t := RunFrom(s, steps);
            && Valid(t) && t.state == Closed
            && (t.frames == s.frames || (!Over(s.frames) && exists g :: t.frames == s.frames + [g] && IsTerminal(g)))
  {
    if steps != [] {
      var n := |steps| - 1;
      var t := RunFrom(s, steps[..n]);
      ClosedRouteOnlyEnds(s, steps[..n]);
      StepIsValid(t, steps[n].event, steps[n].env);
      LateFramesEnd(s, t, Next(t, steps[n].event, steps[n].env));
    }
  }

  lemma MoreMeansNotOver(frames: seq<Frame>, g: Frame)
    requires Orderly(frames + [g])
    ensures !Over(frames)
  {
    var longer := frames + [g];
    assert forall i :: 0 <= i < |frames| ==> !IsTerminal(longer[i]) && longer[i] == frames[i];
  }

  lemma LateFramesEnd(s: Socket, t: Socket, u: Socket)
    requires Valid(s) && Valid(t) && EndsFrom(t, u)
    requires t.frames == s.frames || (!Over(s.frames) && exists g :: t.frames == s.frames + [g] && IsTerminal(g))
    ensures u.frames == s.frames || (!Over(s.frames) && exists g :: u.frames == s.frames + [g] && IsTerminal(g))
  {
    if u.frames != t.frames {
      var g :| u.frames == t.frames + [g] && IsTerminal(g);
      MoreMeansNotOver(t.frames, g);
    }
  }

  // ----- what the client hears -----

  /** The route is over: the client got this frame last, and the socket is closed if closing works. */
  ghost predicate Ended(s: Socket, t: Socket, f: Frame, env: Env) {
    t == s.(state := Closed, terminalSent := true, frames := s.frames + [f], open := s.open && !env.closes)
  }

  /** A client that can be reached gets the frame it is sent; otherwise it gets the notice there was room for, or nothing. */
  lemma SendReaches(s: Socket, f: Frame, closes: bool, notice: bool)
    ensures !s.open ==> SendEvent(s, f, Env(Delivered, closes)) == s
    ensures s.open ==> SendEvent(s, f, Env(Delivered, closes)) == s.(frames := s.frames + [f])
    ensures s.open ==> SendEvent(s, f, Env(Slow(notice), closes)) ==
                       s.(frames := s.frames + (if notice then [ErrorFrame(SlowClient)] else []), open := !closes)
    ensures s.open ==> SendEvent(s, f, Env(Oversized(notice), closes)) ==
                       s.(frames := s.frames + (if notice then [ErrorFrame(InternalError)] else []), open := !closes)
    ensures s.open ==> SendEvent(s, f, Env(Throws, closes)) == s.(open := !closes)
  {}

  ghost predicate Reachable(s: Socket, env: Env) {
    Valid(s) && s.open && env.wire == Delivered
  }

  lemma EndWithReaches(s: Socket, f: Frame, env: Env)
    requires s.open && env.wire == Delivered
    ensures Ended(s, EndWith(s, f, env), f, env)
  {}

  /** Until the first message, the start deadline and a shutdown end the route with their own error; later they do nothing. */
  lemma WaitingEnds(s: Socket, env: Env)
    requires Reachable(s, env)
    ensures s.state == AwaitingStart ==>
              && Ended(s, Next(s, StartDeadline, env), ErrorFrame(StartTimeout), env)
              && Ended(s, Next(s, ShutdownBegins, env), ErrorFrame(ServiceRestarting), env)
    ensures s.state != AwaitingStart ==> Next(s, StartDeadline, env) == s && Next(s, ShutdownBegins, env) == s
  {
    hide EndWith;
    EndWithReaches(s, ErrorFrame(StartTimeout), env);
    EndWithReaches(s, ErrorFrame(ServiceRestarting), env);
  }

  /** The first message starts the session if it is a valid start frame; anything else ends the route, each with its error. */
  lemma FirstMessageStarts(s: Socket, binary: bool, start: StartFrame, env: Env)
    requires Reachable(s, env)
    ensures var t := Next(s, FirstMessage(binary, start), env);
            if s.state != AwaitingStart then t == s
            else if binary then Ended(s, t, ErrorFrame(InvalidAudio), env)
            else match start
                 case ValidStart => t == s.(state := Starting, startPending := true)
                 case InvalidStart => Ended(s, t, ErrorFrame(InvalidMessage), env)
                 case UnsupportedStart => Ended(s, t, ErrorFrame(UnsupportedProtocol), env)
  {
    hide EndWith;
    var starting := s.(state := Starting);
    EndWithReaches(starting, ErrorFrame(InvalidAudio), env);
    EndWithReaches(starting, ErrorFrame(InvalidMessage), env);
    EndWithReaches(starting, ErrorFrame(UnsupportedProtocol), env);
  }

  /** The route is over as soon as the session's cancel returns; without a session, at once. */
  ghost predicate Terminating(s: Socket, t: Socket, code: Code, env: Env) {
    if s.hasSession then t == s.(state := Closed, terminalSent := true, waiting := s.waiting + [code])
    else Ended(s, t, ErrorFrame(code), env)
  }

  lemma TerminatesActive(s: Socket, code: Code, env: Env)
    requires s.open && env.wire == Delivered
    ensures Terminating(s, TerminateActive(s, code, env), code, env)
  {
    EndWithReaches(s, ErrorFrame(code), env);
  }

  /** While streaming, audio goes to the session, controls finish or cancel it, and malformed messages terminate it. */
  lemma StreamingHandles(s: Socket, m: Message, env: Env)
    requires Reachable(s, env) && s.state == Streaming
    ensures var t := Next(s, ClientMessage(m), env);
            match m
            case Binary(acceptable) =>
              if !acceptable then Terminating(s, t, InvalidAudio, env)
              else if s.hasSession then t == s
              else Ended(s, t, ErrorFrame(InternalError), env)
            case FinishControl => t == s.(state := Finishing)
            case CancelControl => t == s.(state := Closed)
            case BadControl => Terminating(s, t, InvalidMessage, env)
  {
    hide EndWith, TerminateActive;
    EndWithReaches(s, ErrorFrame(InternalError), env);
    TerminatesActive(s, InvalidAudio, env);
    TerminatesActive(s, InvalidMessage, env);
  }

  /** Outside streaming a message is out of order: it ends a start, audio ends a finish, and a closed route ignores it. */
  lemma OthersRefuse(s: Socket, m: Message, env: Env)
    requires Reachable(s, env)
    ensures var t := Next(s, ClientMessage(m), env);
            match s.state
            case Starting => Ended(s, t, ErrorFrame(if m.Binary? then InvalidAudio else InvalidMessage), env)
            case Finishing => if m.Binary? then Terminating(s, t, InvalidAudio, env) else t == s
            case Closed => t == s
            case _ => true
  {
    hide EndWith, TerminateActive;
    EndWithReaches(s, ErrorFrame(InvalidAudio), env);
    EndWithReaches(s, ErrorFrame(InvalidMessage), env);
    TerminatesActive(s, InvalidAudio, env);
  }

  /** A start that resolves opens the stream, and one that is refused tells the client why, unless the route closed meanwhile. */
  lemma StartsSettle(s: Socket, code: Code, env: Env)
    requires Reachable(s, env)
    ensures s.startPending && s.state != Closed ==>
              && Next(s, StartResolved, env) == s.(startPending := false, hasSession := true, state := Streaming)
              && Ended(s.(startPending := false), Next(s, StartRejected(code), env), ErrorFrame(code), env)
    ensures s.startPending && s.state == Closed ==>
              && Next(s, StartResolved, env) == s.(startPending := false)
              && Next(s, StartRejected(code), env) == s.(startPending := false)
    ensures !s.startPending ==> Next(s, StartResolved, env) == s && Next(s, StartRejected(code), env) == s
  {
    hide EndWith;
    EndWithReaches(s.(startPending := false), ErrorFrame(code), env);
  }

  /** While the route is open the session's frames reach the client. */
  lemma FramesReach(s: Socket, env: Env)
    requires Reachable(s, env)
    ensures s.state != Closed ==>
              && Next(s, OnReady, env) == s.(frames := s.frames + [ReadyFrame])
              && Next(s, OnTranscript, env) == s.(frames := s.frames + [TranscriptFrame])
    ensures s.state == Closed ==> Next(s, OnReady, env) == s && Next(s, OnTranscript, env) == s
  {
    hide Valid;
  }

  /** The end of the session, or of a control that failed, is told to the client unless its end was decided before. */
  lemma EndsReach(s: Socket, code: Code, env: Env)
    requires Reachable(s, env)
    ensures !s.terminalSent ==>
              && Ended(s, Next(s, OnComplete, env), CompleteFrame, env)
              && Ended(s, Next(s, OnError(code), env), ErrorFrame(code), env)
              && Ended(s, Next(s, ControlRejected, env), ErrorFrame(ProviderUnavailable), env)
    ensures s.terminalSent ==>
              Next(s, OnComplete, env) == s && Next(s, OnError(code), env) == s && Next(s, ControlRejected, env) == s
  {
    hide EndWith, Valid, Ended;
    EndWithReaches(s, CompleteFrame, env);
    EndWithReaches(s, ErrorFrame(code), env);
    EndWithReaches(s, ErrorFrame(ProviderUnavailable), env);
  }

  /** A client that cannot be reached any more is abandoned: the route closes, and no other end is sent. */
  lemma UnreachableIsAbandoned(s: Socket, env: Env)
    requires Valid(s) && s.state != Closed && (!s.open || env.wire != Delivered)
    ensures var t := Next(s, OnTranscript, env); t.state == Closed && t.terminalSent && (t.open ==> s.open && !env.closes)
    ensures var t := Next(s, OnReady, env); t.state == Closed && t.terminalSent && (t.open ==> s.open && !env.closes)
  {}

  /** After the session's cancel the termination is told to the client and the socket closed; a cancelled session closes silently. */
  lemma CancelsReturn(s: Socket, env: Env)
    requires Reachable(s, env)
    ensures s.waiting != [] ==>
              var t := Next(s, TerminationResumed, env);
              t == s.(waiting := s.waiting[1..], frames := s.frames + [ErrorFrame(s.waiting[0])], open := !env.closes)
    ensures s.waiting == [] ==> Next(s, TerminationResumed, env) == s
    ensures Next(s, CancelResumed, env) == s.(open := !env.closes)
  {}

  /** A disconnect closes the route without another frame. */
  lemma DisconnectEnds(s: Socket, stillOpen: bool, env: Env)
    ensures Next(s, Disconnected(stillOpen), env) == s.(state := Closed, terminalSent := true, open := s.open && stillOpen)
  {}

  lemma RunThen(steps: seq<Step>, event: Event, env: Env)
    ensures Run(steps + [Step(event, env)]) == Next(Run(steps), event, env)
  {
    assert (steps + [Step(event, env)])[..|steps|] == steps;
  }

  /** The whole of an ordinary session: ready, transcript and completion, in this order, and then the socket is closed. */
  lemma OrdinarySession(env: Env) returns (steps: seq<Step>)
    requires env == Env(Delivered, true)
    ensures var s := Run(steps); s.frames == [ReadyFrame, TranscriptFrame, CompleteFrame] && s.state == Closed && !s.open
  {
    steps := [];
    hide Next;
    var events := [FirstMessage(false, ValidStart), OnReady, StartResolved, ClientMessage(Binary(true)), OnTranscript,
                   ClientMessage(FinishControl), OnComplete];
    RunThen([], events[0], env);
    steps := [] + [Step(events[0], env)];
    RunThen(steps, events[1], env);
    steps := steps + [Step(events[1], env)];
    RunThen(steps, events[2], env);
    steps := steps + [Step(events[2], env)];
    RunThen(steps, events[3], env);
    steps := steps + [Step(events[3], env)];
    RunThen(steps, events[4], env);
    steps := steps + [Step(events[4], env)];
    RunThen(steps, events[5], env);
    steps := steps + [Step(events[5], env)];
    RunThen(steps, events[6], env);
    steps := steps + [Step(events[6], env)];
    OrdinarySteps(env);
    assert Run([]) == CONNECTED;
    hide Run;
  }

  lemma OrdinarySteps(env: Env)
    requires env == Env(Delivered, true)
    ensures var s1 := Next(CONNECTED, FirstMessage(false, ValidStart), env);
            var s2 := Next(Next(s1, OnReady, env), StartResolved, env);
            var s3 := Next(Next(s2, ClientMessage(Binary(true)), env), OnTranscript, env);
            var s4 := Next(Next(s3, ClientMessage(FinishControl), env), OnComplete, env);
            s4.frames == [ReadyFrame, TranscriptFrame, CompleteFrame] && s4.state == Closed && !s4.open
  {}

  // ----- the socket object -----

  /** The mutable context of one connection. `frames` is what reached the client. */
  class SocketContext {
    var state: RouteState
    var terminalSent: bool
    var open: bool
    var hasSession: bool
    var startPending: bool
    var waiting: seq<Code>
    var frames: seq<Frame>

    ghost function View(): Socket
      reads this
    {
      Socket(state, terminalSent, open, hasSession, startPending, waiting, frames)
    }

    constructor ()
      ensures View() == CONNECTED
    {
      state, terminalSent, open, hasSession, startPending, waiting, frames := AwaitingStart, false, true, false, false, [], [];
    }

    method Close(env: Env)
      modifies this`open
      ensures View() == CloseSocket(old(View()), env)
    {
      if open && env.closes {
        open := false;
      }
    }

    /** Hands one event to the socket; a refused send leaves its own notice and closes. */
    method Send(f: Frame, env: Env) returns (delivered: bool)
      modifies this`open, this`frames
      ensures View() == SendEvent(old(View()), f, env) && delivered == SendWorks(old(View()), env)
    {
      if !open {
        return false;
      }
      match env.wire {
        case Delivered =>
          frames := frames + [f];
          return true;
        case Slow(noticeSent) =>
          if noticeSent { frames := frames + [ErrorFrame(SlowClient)]; }
        case Oversized(noticeSent) =>
          if noticeSent { frames := frames + [ErrorFrame(InternalError)]; }
        case Throws =>
      }
      Close(env);
      return false;
    }

    method Finally(f: Frame, env: Env)
      modifies this
      ensures View() == EndWith(old(View()), f, env)
    {
      state := Closed;
      terminalSent := true;
      var _ := Send(f, env);
      Close(env);
    }

    method RouteError(code: Code, env: Env)
      modifies this
      ensures View() == BeginRouteError(old(View()), code, env)
    {
      if terminalSent {
        return;
      }
      Finally(ErrorFrame(code), env);
    }

    method Terminate(code: Code, env: Env)
      modifies this
      ensures View() == TerminateActive(old(View()), code, env)
    {
      if !hasSession {
        Finally(ErrorFrame(code), env);
        return;
      }
      terminalSent := true;
      state := Closed;
      waiting := waiting + [code];
    }

    method TerminationContinues(env: Env)
      modifies this
      ensures View() == ResumeTermination(old(View()), env)
    {
      if waiting == [] {
        return;
      }
      var code := waiting[0];
      waiting := waiting[1..];
      var _ := Send(ErrorFrame(code), env);
      Close(env);
    }

    method ForwardOrAbandon(f: Frame, env: Env)
      modifies this
      ensures View() == Forward(old(View()), f, env)
    {
      if state == Closed {
        return;
      }
      var delivered := Send(f, env);
      if !delivered {
        terminalSent := true;
        state := Closed;
      }
    }

    method SessionEnds(f: Frame, env: Env)
      modifies this
      ensures View() == SessionTerminal(old(View()), f, env)
    {
      if !terminalSent {
        Finally(f, env);
      }
    }

    method OnMessage(m: Message, env: Env)
      modifies this
      ensures View() == HandleMessage(old(View()), m, env)
    {
      match state {
        case Closed => return;
        case AwaitingStart => return;
        case Starting => RouteError(if m.Binary? then InvalidAudio else InvalidMessage, env);
        case Finishing =>
          if m.Binary? {
            Terminate(InvalidAudio, env);
          }
        case Streaming =>
          match m {
            case Binary(acceptable) =>
              if !acceptable {
                Terminate(InvalidAudio, env);
              } else if !hasSession {
                RouteError(InternalError, env);
              }
            case FinishControl => state := Finishing;
            case CancelControl => state := Closed;
            case BadControl => Terminate(InvalidMessage, env);
          }
      }
    }

    method OnFirstMessage(binary: bool, start: StartFrame, env: Env)
      requires state == AwaitingStart
      modifies this
      ensures View() == HandleFirst(old(View()), binary, start, env)
    {
      state := Starting;
      if binary {
        RouteError(InvalidAudio, env);
        return;
      }
      match start {
        case UnsupportedStart => RouteError(UnsupportedProtocol, env);
        case InvalidStart => RouteError(InvalidMessage, env);
        case ValidStart => startPending := true;
      }
    }
  }
}
