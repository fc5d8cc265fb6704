/**
 * One realtime session, from the call that starts it: client frames, provider events, timers, client
 * commands and shutdown race to end it, and at most one of them becomes the terminal that bills, reports
 * and frees the slot. A failing start closes the session by force and frees the slot as well.
 */
module RealtimeSession {
  import opened Prelude
  import Audio = AudioAccounting

  datatype FinishReason = Finished | SessionLimit | QuotaLimit

  datatype ErrorCode =
    | InvalidAudio | AudioTimeout | ProviderTimeout | InternalError | ProviderUnavailable
    | ProviderRejected | ProviderCapacity | ServiceRestarting

  datatype Decision =
    | Complete(reason: FinishReason)
    | Silent
    | Error(code: ErrorCode, recordUsage: bool)

  datatype TerminalEvent =
    | CompleteEvent(reason: FinishReason, dailySecondsRemaining: nat)
    | ErrorEvent(code: ErrorCode)

  datatype Phase = Streaming | Finishing | Closed

  /** How far the call that starts the session has come. */
  datatype Start = Reading | Connecting | Connected | Returned | Failed

  datatype Session = Session(
    start: Start,
    policy: Audio.Policy,
    remainingAtAdmission: nat,
    readyLimitReason: FinishReason,
    phase: Phase,
    finishReason: Option<FinishReason>,
    terminal: Option<Decision>,
    settled: bool,
    attemptedBytes: nat,
    forwarded: Audio.Data,
    progressMs: real,
    audioDeadlineArmed: bool,
    wallClockArmed: bool,
    usageRequests: seq<int>,
    emitted: seq<TerminalEvent>,
    releases: nat)

  /** A new session has no seconds until its budget is read; the source's placeholder limit is never looked at before. */
  function Opened(format: Audio.AudioFormat, burstSeconds: nat): Session {
    Session(Reading, Audio.Policy(format, 0, burstSeconds), 0, SessionLimit, Streaming, None, None, false, 0, [], 0.0,
            false, false, [], [], 0)
  }

  function Billable(s: Session): int {
    Audio.BillableSeconds(s.attemptedBytes, s.policy.format, s.progressMs)
  }

  // ----- terminal -----

  function TerminalEventOf(d: Decision, remaining: nat): seq<TerminalEvent> {
    match d
    case Complete(reason) => [CompleteEvent(reason, remaining)]
    case Error(code, _) => [ErrorEvent(code)]
    case Silent => []
  }

  function Settle(s: Session, d: Decision, remaining: nat): Session {
    s.(settled := true, emitted := s.emitted + TerminalEventOf(d, remaining), releases := s.releases + 1)
  }

  predicate Bills(d: Decision) {
    !(d.Error? && !d.recordUsage)
  }

  /** Up to the await of the usage write; a decision that must not bill settles at once. */
  function BeginTerminal(s: Session, d: Decision): Session {
    if s.terminal.Some? then s
    else
      var closing := s.(audioDeadlineArmed := false, wallClockArmed := false, phase := Closed, terminal := Some(d));
      if Bills(d) then closing.(usageRequests := s.usageRequests + [Billable(s)])
      else Settle(closing, d, s.remainingAtAdmission)
  }

  /** The usage write has been answered, whether or not it succeeded. */
  function UsageAnswered(s: Session, remaining: nat): Session {
    if s.terminal.Some? && !s.settled then Settle(s, s.terminal.value, remaining) else s
  }

  function BeginFinish(s: Session, reason: FinishReason): Session {
    if s.phase == Closed || s.finishReason.Some? then s
    else
      var finishing := s.(audioDeadlineArmed := false, phase := Finishing, finishReason := Some(reason), wallClockArmed := false);
      if Billable(s) == 0 then BeginTerminal(finishing, Complete(reason)) else finishing
  }

  // ----- client and provider -----

  /** `failure` is the code of the error the provider throws, if it throws. */
  function SendAudio(s: Session, frame: Audio.Frame, failure: ErrorCode): Session {
    if s.phase != Streaming then s
    else
      match Audio.SendFrame(s.policy, s.attemptedBytes, frame)
      case Sent(total, reachedLimit) =>
        var sent := s.(
          attemptedBytes := total,
          forwarded := s.forwarded + Audio.AcceptedPrefix(s.policy, s.attemptedBytes, frame.data),
          audioDeadlineArmed := true);
        if reachedLimit then BeginFinish(sent, s.readyLimitReason) else sent
      case Limit => BeginFinish(s, s.readyLimitReason)
      case Pace => BeginTerminal(s, Error(InvalidAudio, true))
      case Invalid => BeginTerminal(s, Error(InvalidAudio, true))
      case ProviderError => BeginTerminal(s, Error(failure, true))
  }

  function ProviderTranscript(s: Session, finalMs: real, totalMs: real, emitted: bool): Session {
    if s.phase == Closed then s
    else if finalMs > s.policy.limitSeconds as real * 1000.0 || totalMs > s.policy.limitSeconds as real * 1000.0 then
      BeginTerminal(s, Error(InternalError, false))
    else
      var heard := s.(progressMs := Audio.MaxReal(s.progressMs, Audio.MaxReal(finalMs, totalMs)));
      if emitted then heard else BeginTerminal(heard, Error(InternalError, true))
  }

  function ProviderFinished(s: Session): Session {
    if s.phase == Finishing && s.finishReason.Some? then BeginTerminal(s, Complete(s.finishReason.value)) else s
  }

  function ProviderClosed(s: Session, malformed: bool, code: ErrorCode): Session {
    if s.phase == Closed then s
    else BeginTerminal(s, if malformed then Error(InternalError, false) else Error(code, true))
  }

  // ----- the call that starts the session -----

  function SetAdmission(s: Session, limit: nat, remaining: nat, reason: FinishReason): Session {
    s.(start := Connecting, policy := s.policy.(limitSeconds := limit), remainingAtAdmission := remaining, readyLimitReason := reason)
  }

  function ForceClose(s: Session): Session {
    s.(audioDeadlineArmed := false, wallClockArmed := false, phase := Closed)
  }

  /** The failure path of `start`: the slot goes first, whatever a terminal does about it. */
  function FailStart(s: Session): Session {
    ForceClose(s).(start := Failed, releases := s.releases + 1)
  }

  datatype Event =
    | BudgetRead(limit: nat, remaining: nat, reason: FinishReason)
    | ProviderConnected
    | StartReturned
    | StartFailed
    | ClientAudio(frame: Audio.Frame, failure: ErrorCode)
    | ClientFinish
    | ClientCancel
    | ClientGone
    | WallClock
    | AudioDeadline
    | Transcript(finalMs: real, totalMs: real, emits: bool)
    | ProviderDone
    | ProviderFailed(malformed: bool, code: ErrorCode)
    | FinishFailed(code: ErrorCode)
    | ServiceShutdown
    | UsageWritten(remaining: nat, recorded: bool)

  /**
   * Client and shutdown reach a session only once its start has returned it, and no timer fires before:
   * nothing but microtasks runs between the connection and that return.
   */
  predicate Enabled(s: Session, e: Event) {
    match e
    case BudgetRead(limit, _, _) => s.start == Reading && limit > 0
    case ProviderConnected => s.start == Connecting && s.phase != Closed
    case StartReturned => s.start == Connected
    case StartFailed => s.start != Returned && s.start != Failed
    case Transcript(_, _, _) => s.start != Reading
    case ProviderFailed(_, _) => s.start == Connected || s.start == Returned
    case WallClock => s.start == Returned && s.wallClockArmed
    case AudioDeadline => s.start == Returned && s.audioDeadlineArmed
    case FinishFailed(_) => s.finishReason.Some?
    case UsageWritten(_, _) => s.terminal.Some? && !s.settled
    case ProviderDone => true
    case _ => s.start == Returned
  }

  function Handle(s: Session, e: Event): Session {
    match e
    case BudgetRead(limit, remaining, reason) => SetAdmission(s, limit, remaining, reason)
    case ProviderConnected => s.(start := Connected, audioDeadlineArmed := true, wallClockArmed := true)
    case StartReturned => s.(start := Returned)
    case StartFailed => FailStart(s)
    case ClientAudio(frame, failure) => SendAudio(s, frame, failure)
    case ClientFinish => BeginFinish(s, Finished)
    case ClientCancel => BeginTerminal(s, Silent)
    case ClientGone => BeginTerminal(s, Silent)
    case WallClock => BeginFinish(s, s.readyLimitReason)
    case AudioDeadline => BeginTerminal(s, Error(AudioTimeout, true))
    case Transcript(finalMs, totalMs, emits) => ProviderTranscript(s, finalMs, totalMs, emits)
    case ProviderDone => ProviderFinished(s)
    case ProviderFailed(malformed, code) => ProviderClosed(s, malformed, code)
    case FinishFailed(code) => BeginTerminal(s, Error(code, true))
    case ServiceShutdown => BeginTerminal(s, Error(ServiceRestarting, true))
    case UsageWritten(remaining, _) => UsageAnswered(s, remaining)
  }

  function Next(s: Session, e: Event): Session {
    if Enabled(s, e) then Handle(s, e) else s
  }

  function Run(s: Session, events: seq<Event>): Session {
    if events == [] then s else Next(Run(s, events[..|events| - 1]), events[|events| - 1])
  }

  // ----- what every session keeps -----

  ghost predicate AudioValid(s: Session) {
    && Audio.StreamValid(s.policy, Audio.Stream(s.attemptedBytes, s.forwarded, s.phase == Streaming))
    && 0.0 <= s.progressMs <= s.policy.limitSeconds as real * 1000.0
  }

  /** The releases of a session: one by its settled terminal, and one by its start if that failed. */
  function ReleasesDue(s: Session): nat {
    (if s.settled then 1 else 0) + if s.start == Failed then 1 else 0
  }

  /** One terminal at most: one usage request, one client event, and what they say. */
  ghost predicate TerminalValid(s: Session) {
    && s.releases == ReleasesDue(s)
    && (s.terminal.None? ==> s.usageRequests == [] && s.emitted == [] && !s.settled)
    && (s.terminal.Some? ==>
          && s.phase == Closed
          && s.start != Reading
          && s.usageRequests == (if Bills(s.terminal.value) then [Billable(s)] else [])
          && (!s.settled ==> s.emitted == [] && Bills(s.terminal.value))
          && (s.settled ==> exists remaining :: s.emitted == TerminalEventOf(s.terminal.value, remaining))
          && (s.terminal.value.Complete? ==> s.finishReason == Some(s.terminal.value.reason)))
  }

  ghost predicate PhaseValid(s: Session) {
    && (s.audioDeadlineArmed || s.wallClockArmed ==> s.phase == Streaming && (s.start == Connected || s.start == Returned))
    && (s.phase == Finishing ==> s.finishReason.Some?)
    && (s.phase == Streaming ==> s.finishReason.None?)
    && (s.phase == Streaming && (s.start == Connected || s.start == Returned) ==> s.audioDeadlineArmed && s.wallClockArmed)
    && (s.phase == Closed && s.terminal.None? ==> s.start == Failed)
    && (s.finishReason.Some? ==> s.start == Returned)
  }

  ghost predicate StartValid(s: Session) {
    && (s.start == Reading ==> s.policy.limitSeconds == 0 && s.phase == Streaming && s.attemptedBytes == 0 && s.progressMs == 0.0)
    && (s.start != Reading && s.start != Failed ==> s.policy.limitSeconds > 0)
    && (s.start == Failed ==> s.phase == Closed)
    && (s.start != Returned ==> s.attemptedBytes == 0)
  }

  ghost predicate Valid(s: Session) {
    AudioValid(s) && TerminalValid(s) && PhaseValid(s) && StartValid(s)
  }

  lemma OpenedIsValid(format: Audio.AudioFormat, burstSeconds: nat)
    ensures Valid(Opened(format, burstSeconds))
  {}

  lemma TerminalStaysValid(s: Session, d: Decision)
    requires Valid(s) && s.start != Reading && s.start != Failed && (d.Complete? ==> s.finishReason == Some(d.reason))
    ensures Valid(BeginTerminal(s, d))
  {
    if s.terminal.None? && !Bills(d) {
      assert BeginTerminal(s, d).emitted == TerminalEventOf(d, s.remainingAtAdmission);
    }
  }

  lemma UsageAnsweredStaysValid(s: Session, remaining: nat)
    requires Valid(s)
    ensures Valid(UsageAnswered(s, remaining))
  {
    if s.terminal.Some? && !s.settled {
      assert UsageAnswered(s, remaining).emitted == TerminalEventOf(s.terminal.value, remaining);
    }
  }

  /** Finishing is safe even from a session whose last frame has just reached the cap. */
  lemma FinishStaysValid(s: Session, reason: FinishReason)
    requires TerminalValid(s) && PhaseValid(s) && StartValid(s) && AudioValid(s.(phase := Finishing)) && s.start == Returned
    requires s.phase != Streaming || s.finishReason.Some? ==> Valid(s)
    ensures Valid(BeginFinish(s, reason))
  {
    if s.phase != Closed && s.finishReason.None? {
      var finishing := s.(audioDeadlineArmed := false, phase := Finishing, finishReason := Some(reason), wallClockArmed := false);
      assert Valid(finishing);
      TerminalStaysValid(finishing, Complete(reason));
    }
  }

  lemma AudioStaysValid(s: Session, frame: Audio.Frame, failure: ErrorCode)
    requires Valid(s) && s.start == Returned
    ensures Valid(SendAudio(s, frame, failure))
  {
    if s.phase == Streaming {
      Audio.FrameOutcome(s.policy, s.attemptedBytes, frame);
      match Audio.SendFrame(s.policy, s.attemptedBytes, frame)
      case Sent(total, reachedLimit) =>
        var sent := s.(
          attemptedBytes := total,
          forwarded := s.forwarded + Audio.AcceptedPrefix(s.policy, s.attemptedBytes, frame.data),
          audioDeadlineArmed := true);
        if reachedLimit {
          FinishStaysValid(sent, s.readyLimitReason);
        }
      case Limit => FinishStaysValid(s, s.readyLimitReason);
      case Pace => TerminalStaysValid(s, Error(InvalidAudio, true));
      case Invalid => TerminalStaysValid(s, Error(InvalidAudio, true));
      case ProviderError => TerminalStaysValid(s, Error(failure, true));
    }
  }

  lemma TranscriptStaysValid(s: Session, finalMs: real, totalMs: real, emits: bool)
    requires Valid(s) && s.start != Reading
    ensures Valid(ProviderTranscript(s, finalMs, totalMs, emits))
  {
    if s.phase != Closed { TerminalStaysValid(s, Error(InternalError, false)); }
    if s.phase != Closed && finalMs <= s.policy.limitSeconds as real * 1000.0 && totalMs <= s.policy.limitSeconds as real * 1000.0 {
      var heard := s.(progressMs := Audio.MaxReal(s.progressMs, Audio.MaxReal(finalMs, totalMs)));
      assert Valid(heard);
      TerminalStaysValid(heard, Error(InternalError, true));
    }
  }

  lemma StartStaysValid(s: Session, e: Event)
    requires Valid(s) && Enabled(s, e)
    requires e.BudgetRead? || e.ProviderConnected? || e.StartReturned? || e.StartFailed?
    ensures Valid(Handle(s, e))
  {
    if e.BudgetRead? {
      Audio.MulPositive(e.limit, Audio.BytesPerSecond(s.policy.format));
    }
  }

  lemma EventStaysValid(s: Session, e: Event)
    requires Valid(s)
    ensures Valid(Next(s, e))
  {
    if Enabled(s, e) {
      hide BeginTerminal, BeginFinish, Settle, AudioValid;
      match e
      case ClientAudio(frame, failure) => AudioStaysValid(s, frame, failure);
      case Transcript(finalMs, totalMs, emits) => TranscriptStaysValid(s, finalMs, totalMs, emits);
      case UsageWritten(remaining, _) => UsageAnsweredStaysValid(s, remaining);
      case ClientFinish => FinishStaysValid(s, Finished);
      case WallClock => FinishStaysValid(s, s.readyLimitReason);
      case ClientCancel => TerminalStaysValid(s, Silent);
      case ClientGone => TerminalStaysValid(s, Silent);
      case AudioDeadline => TerminalStaysValid(s, Error(AudioTimeout, true));
      case ProviderDone =>
        if s.phase == Finishing { TerminalStaysValid(s, Complete(s.finishReason.value)); }
      case ProviderFailed(malformed, code) =>
        TerminalStaysValid(s, if malformed then Error(InternalError, false) else Error(code, true));
      case FinishFailed(code) => TerminalStaysValid(s, Error(code, true));
      case ServiceShutdown => TerminalStaysValid(s, Error(ServiceRestarting, true));
      case _ => StartStaysValid(s, e);
    }
  }

  lemma {:induction false} RunIsValid(s: Session, events: seq<Event>)
    requires Valid(s)
    ensures Valid(Run(s, events))
  {
    if events != [] {
      RunIsValid(s, events[..|events| - 1]);
      EventStaysValid(Run(s, events[..|events| - 1]), events[|events| - 1]);
    }
  }

  /**
   * However the events race from the first call on, a session asks for at most one usage write, for at most
   * its admitted seconds and exactly for the audio it forwarded; it reports to the client at most once and
   * after that write is answered; its terminal frees the slot once when it settles, and so does a failed start.
   */
  lemma OneTerminal(format: Audio.AudioFormat, burstSeconds: nat, events: seq<Event>)
    ensures var s := Run(Opened(format, burstSeconds), events);
            && |s.usageRequests| <= 1 && |s.emitted| <= 1
            && s.releases == ReleasesDue(s)
            && (s.emitted != [] ==> s.settled)
            && (forall bill <- s.usageRequests :: bill == Billable(s) && 0 <= bill <= s.policy.limitSeconds)
            && |s.forwarded| == s.attemptedBytes <= Audio.CapBytes(s.policy.format, s.policy.limitSeconds)
            && (s.start == Failed && s.terminal.None? ==> s.usageRequests == [] && s.releases == 1)
  {
    OpenedIsValid(format, burstSeconds);
    RunIsValid(Opened(format, burstSeconds), events);
    var s := Run(Opened(format, burstSeconds), events);
    hide Run;
    Audio.BillWithinLimit(s.policy, s.attemptedBytes, s.progressMs);
  }

  /** The seconds admitted are set once, by the budget read. */
  lemma StepKeepsPolicy(s: Session, e: Event)
    ensures Next(s, e).policy == if e.BudgetRead? && Enabled(s, e) then s.policy.(limitSeconds := e.limit) else s.policy
  {}

  function Rank(p: Phase): nat {
    match p
    case Streaming => 0
    case Finishing => 1
    case Closed => 2
  }

  /** The first terminal decision stands, and from then on no audio is forwarded and no bill changes. */
  lemma TerminalIsFinal(s: Session, e: Event)
    requires Valid(s)
    ensures Rank(Next(s, e).phase) >= Rank(s.phase)
    ensures s.finishReason.Some? ==> Next(s, e).finishReason == s.finishReason
    ensures s.phase == Closed ==> Next(s, e).forwarded == s.forwarded && Next(s, e).progressMs == s.progressMs
    ensures s.terminal.Some? ==> Next(s, e).terminal == s.terminal && Next(s, e).usageRequests == s.usageRequests
    ensures s.settled ==> Next(s, e) == s.(start := Next(s, e).start, releases := Next(s, e).releases)
    ensures s.settled && (s.start == Returned || s.start == Failed) ==> Next(s, e) == s
  {}

  /** A settled session whose start is over is inert: whatever still fires afterwards changes nothing at all. */
  lemma {:induction false} SettledIsInert(s: Session, events: seq<Event>)
    requires Valid(s) && s.settled && (s.start == Returned || s.start == Failed)
    ensures Run(s, events) == s
  {
    if events != [] {
      SettledIsInert(s, events[..|events| - 1]);
      TerminalIsFinal(s, events[|events| - 1]);
    }
  }

  lemma StepStaysAbandoned(s: Session, e: Event)
    requires Valid(s) && s.start == Failed && s.terminal.None?
    ensures Next(s, e) == s
  {}

  /** A start that fails before any terminal has begun leaves a session that never bills, reports or changes again. */
  lemma {:induction false} AbandonedIsInert(s: Session, events: seq<Event>)
    requires Valid(s) && s.start == Failed && s.terminal.None?
    ensures Run(s, events) == s
  {
    if events != [] {
      AbandonedIsInert(s, events[..|events| - 1]);
      StepStaysAbandoned(s, events[|events| - 1]);
    }
  }

  lemma {:induction false} FirstDecisionStands(s: Session, events: seq<Event>)
    requires Valid(s) && s.terminal.Some?
    ensures var t := Run(s, events);
            && t.terminal == s.terminal && t.usageRequests == s.usageRequests && t.forwarded == s.forwarded
            && (s.settled ==> t == s.(start := t.start, releases := t.releases))
            && forall event <- t.emitted :: event.CompleteEvent? ==> s.terminal == Some(Complete(event.reason))
  {
    if events == [] {
    } else {
      var shorter := events[..|events| - 1];
      FirstDecisionStands(s, shorter);
      RunIsValid(s, shorter);
      TerminalIsFinal(Run(s, shorter), events[|events| - 1]);
      RunIsValid(s, events);
    }
  }

  // ----- which decision each event makes, and what it records and reports -----

  /** Over every run: a terminal asks for the usage write unless it is an error that must not be recorded. */
  lemma UsageFollowsDecision(format: Audio.AudioFormat, burstSeconds: nat, events: seq<Event>)
    ensures var s := Run(Opened(format, burstSeconds), events);
            match s.terminal
            case None => s.usageRequests == [] && s.emitted == []
            case Some(Complete(reason)) =>
              && s.usageRequests == [Billable(s)]
              && (if s.settled then exists remaining :: s.emitted == [CompleteEvent(reason, remaining)] else s.emitted == [])
            case Some(Silent) => s.usageRequests == [Billable(s)] && s.emitted == []
            case Some(Error(code, true)) =>
              s.usageRequests == [Billable(s)] && s.emitted == if s.settled then [ErrorEvent(code)] else []
            case Some(Error(code, false)) => s.usageRequests == [] && s.settled && s.emitted == [ErrorEvent(code)]
  {
    OpenedIsValid(format, burstSeconds);
    RunIsValid(Opened(format, burstSeconds), events);
    hide Run, AudioValid, Billable;
  }

  /** The terminal begins with this decision: the bill is asked for and awaited, or the session settles unbilled. */
  ghost predicate Terminates(s: Session, t: Session, d: Decision) {
    && t.terminal == Some(d) && t.phase == Closed && !t.audioDeadlineArmed && !t.wallClockArmed
    && match d
       case Error(code, false) =>
         t.usageRequests == [] && t.settled && t.emitted == [ErrorEvent(code)] && t.releases == s.releases + 1
       case _ => t.usageRequests == [Billable(t)] && !t.settled && t.emitted == [] && t.releases == s.releases
  }

  /** The provider is being finished: nothing more is streamed, and no terminal has begun yet. */
  ghost predicate Finishes(s: Session, t: Session, reason: FinishReason) {
    && t == s.(phase := Finishing, finishReason := Some(reason), audioDeadlineArmed := false, wallClockArmed := false)
  }

  ghost predicate Running(s: Session) {
    Valid(s) && s.start != Reading && s.start != Failed && s.terminal.None?
  }

  ghost predicate Open(s: Session) {
    Running(s) && s.start == Returned
  }

  lemma TerminalBegins(s: Session, d: Decision)
    requires Running(s)
    ensures Terminates(s, BeginTerminal(s, d), d)
    ensures !(d.Error? && !d.recordUsage) ==> BeginTerminal(s, d).usageRequests == [Billable(s)]
  {
    hide AudioValid;
  }

  /** Cancelling, disconnecting, a silent client and shutdown end the session, each billed for what it used. */
  lemma ClientEndings(s: Session)
    requires Open(s)
    ensures Terminates(s, Next(s, ClientCancel), Silent) && Next(s, ClientCancel).usageRequests == [Billable(s)]
    ensures Terminates(s, Next(s, ClientGone), Silent) && Next(s, ClientGone).usageRequests == [Billable(s)]
    ensures Terminates(s, Next(s, ServiceShutdown), Error(ServiceRestarting, true))
    ensures Next(s, ServiceShutdown).usageRequests == [Billable(s)]
    ensures s.phase == Streaming ==>
              Terminates(s, Next(s, AudioDeadline), Error(AudioTimeout, true)) && Next(s, AudioDeadline).usageRequests == [Billable(s)]
  {
    hide AudioValid, BeginTerminal, Terminates, Billable;
    TerminalBegins(s, Silent);
    TerminalBegins(s, Error(ServiceRestarting, true));
    TerminalBegins(s, Error(AudioTimeout, true));
  }

  /** A failing provider ends the session billed, one that breaks the protocol unbilled; its end completes a finish. */
  lemma ProviderEndings(s: Session, code: ErrorCode)
    requires Running(s) && s.start != Connecting
    ensures Terminates(s, Next(s, ProviderFailed(false, code)), Error(code, true))
    ensures Next(s, ProviderFailed(false, code)).usageRequests == [Billable(s)]
    ensures Terminates(s, Next(s, ProviderFailed(true, code)), Error(InternalError, false))
    ensures s.phase == Finishing ==>
              && Terminates(s, Next(s, FinishFailed(code)), Error(code, true))
              && Terminates(s, Next(s, ProviderDone), Complete(s.finishReason.value))
    ensures s.phase == Streaming ==> Next(s, ProviderDone) == s
  {
    hide AudioValid, BeginTerminal, Terminates, Billable;
    TerminalBegins(s, Error(code, true));
    TerminalBegins(s, Error(InternalError, false));
    if s.phase == Finishing { TerminalBegins(s, Complete(s.finishReason.value)); }
  }

  /** Finishing waits for the provider if anything is to be billed, and completes at once otherwise. */
  lemma FinishingFinishes(s: Session)
    requires Open(s) && s.phase == Streaming
    ensures Billable(s) != 0 ==> Finishes(s, Next(s, ClientFinish), Finished) && Finishes(s, Next(s, WallClock), s.readyLimitReason)
    ensures Billable(s) == 0 ==>
              && Terminates(s, Next(s, ClientFinish), Complete(Finished))
              && Terminates(s, Next(s, WallClock), Complete(s.readyLimitReason))
  {
    hide AudioValid;
  }

  /** Progress past the admitted seconds ends the session unbilled; any other progress only ever grows. */
  lemma TranscriptsProgress(s: Session, finalMs: real, totalMs: real, emits: bool)
    requires Running(s)
    ensures var t, top := Next(s, Transcript(finalMs, totalMs, emits)), s.policy.limitSeconds as real * 1000.0;
            if finalMs > top || totalMs > top then Terminates(s, t, Error(InternalError, false)) && t.progressMs == s.progressMs
            else
              && t.progressMs >= s.progressMs && t.progressMs >= finalMs && t.progressMs >= totalMs
              && t.progressMs in {s.progressMs, finalMs, totalMs}
              && (if emits then t == s.(progressMs := t.progressMs) else Terminates(s, t, Error(InternalError, true)))
  {
    hide AudioValid;
  }

  /** A frame is forwarded up to the cap, whose last byte starts the finish; a frame the rules refuse ends the session, billed. */
  lemma FramesStream(s: Session, frame: Audio.Frame, failure: ErrorCode)
    requires Open(s) && s.phase == Streaming
    ensures var t, p := Next(s, ClientAudio(frame, failure)), s.policy;
            var room := Audio.CapBytes(p.format, p.limitSeconds) - s.attemptedBytes;
            var size := Min(|frame.data|, room);
            if !Audio.IsAlignedPcm(|frame.data|, p.format) then Terminates(s, t, Error(InvalidAudio, true))
            else if s.attemptedBytes + size > Audio.AllowedBytes(p.format, frame.elapsedMs, p.burstSeconds) then
              Terminates(s, t, Error(InvalidAudio, true))
            else if frame.providerFails then Terminates(s, t, Error(failure, true))
            else
              && t.forwarded == s.forwarded + frame.data[..size]
              && t.attemptedBytes == s.attemptedBytes + size
              && (if size < room then t.phase == Streaming && t.terminal.None? && t.audioDeadlineArmed && t.wallClockArmed
                  else t.finishReason == Some(s.readyLimitReason) && t.phase != Streaming)
  {
    var p := s.policy;
    assert s.attemptedBytes < Audio.CapBytes(p.format, p.limitSeconds);
    if Audio.IsAlignedPcm(|frame.data|, p.format) {
      Audio.AcceptedIsExact(p, s.attemptedBytes, |frame.data|);
    }
    hide Audio.CapBytes, Audio.AllowedBytes, Audio.AcceptedFrameBytes, Audio.IsAlignedPcm, Billable;
  }

  /** The answer of the usage write settles the terminal: the client hears of it with what is left, and the slot is freed. */
  lemma AnswersSettle(s: Session, remaining: nat, recorded: bool)
    requires Valid(s) && s.terminal.Some? && !s.settled
    ensures var t := Next(s, UsageWritten(remaining, recorded));
            && t.settled && t.releases == s.releases + 1
            && t.emitted == match s.terminal.value
                            case Complete(reason) => [CompleteEvent(reason, remaining)]
                            case Silent => []
                            case Error(code, _) => [ErrorEvent(code)]
  {
    hide AudioValid;
  }

  /** The steps of a start, each in its turn: a budget read admits once, and a session closed while connecting is not connected. */
  lemma StartProceeds(s: Session, limit: nat, remaining: nat, reason: FinishReason)
    ensures Next(s, BudgetRead(limit, remaining, reason)) ==
            if s.start == Reading && limit > 0
            then s.(start := Connecting, policy := Audio.Policy(s.policy.format, limit, s.policy.burstSeconds),
                    remainingAtAdmission := remaining, readyLimitReason := reason)
            else s
    ensures Next(s, ProviderConnected) ==
            if s.start == Connecting && s.phase != Closed
            then s.(start := Connected, audioDeadlineArmed := true, wallClockArmed := true) else s
    ensures Next(s, StartReturned) == if s.start == Connected then s.(start := Returned) else s
  {}

  /** A start that fails closes the session by force and frees the slot, and leaves a terminal that has begun to itself. */
  lemma FailingStartsRelease(s: Session)
    ensures Next(s, StartFailed) ==
            if s.start == Returned || s.start == Failed then s
            else s.(start := Failed, phase := Closed, audioDeadlineArmed := false, wallClockArmed := false, releases := s.releases + 1)
  {}

  /** Before its start returns, nobody but the provider reaches a session; before it connects, not even that. */
  lemma NobodyComesEarly(s: Session, e: Event)
    requires s.start != Returned
    ensures e.ClientAudio? || e.ClientFinish? || e.ClientCancel? || e.ClientGone? || e.WallClock? || e.AudioDeadline? || e.ServiceShutdown?
            ==> Next(s, e) == s
    ensures s.start == Reading && (e.Transcript? || e.ProviderFailed?) ==> Next(s, e) == s
    ensures s.start == Connecting && e.ProviderFailed? ==> Next(s, e) == s
    ensures s.terminal.None? && e.UsageWritten? ==> Next(s, e) == s
  {
    hide BeginTerminal, BeginFinish;
  }

  /** The way in: the budget read admits for its seconds, the connection arms both timers, and the start returns the session. */
  lemma StartingOpens(format: Audio.AudioFormat, burstSeconds: nat, limit: nat, remaining: nat, reason: FinishReason)
    requires limit > 0
    ensures var s := Run(Opened(format, burstSeconds), [BudgetRead(limit, remaining, reason), ProviderConnected, StartReturned]);
            && Open(s) && s.phase == Streaming && s.audioDeadlineArmed && s.wallClockArmed
            && s.policy == Audio.Policy(format, limit, burstSeconds)
            && s.remainingAtAdmission == remaining && s.readyLimitReason == reason
  {
    var e := [BudgetRead(limit, remaining, reason), ProviderConnected, StartReturned];
    OpenedIsValid(format, burstSeconds);
    RunIsValid(Opened(format, burstSeconds), e);
    var none: seq<Event> := [];
    assert e[..2] == [e[0], e[1]] && e[..2][..1] == [e[0]] && [e[0]][..0] == none;
    assert Run(Opened(format, burstSeconds), none) == Opened(format, burstSeconds);
    assert Run(Opened(format, burstSeconds), [e[0]]) == Next(Opened(format, burstSeconds), e[0]);
    assert Run(Opened(format, burstSeconds), e[..2]) == Next(Run(Opened(format, burstSeconds), [e[0]]), e[1]);
    hide AudioValid;
  }

  // ----- the session object -----

  class RealtimeSessionController {
    /** Not a field of the source: how far the call of the service that made this session has come. */
    ghost var start: Start
    var policy: Audio.Policy
    var remainingAtAdmission: nat
    var readyLimitReason: FinishReason
    var state: Phase
    var finishReason: Option<FinishReason>
    var terminal: Option<Decision>
    var settled: bool
    var attemptedBytes: nat
    var forwarded: Audio.Data
    var providerProgressMs: real
    var audioDeadlineArmed: bool
    var wallClockArmed: bool
    var usageRequests: seq<int>
    var emitted: seq<TerminalEvent>
    var releases: nat

    ghost function View(): Session
      reads this
    {
      Session(start, policy, remainingAtAdmission, readyLimitReason, state, finishReason, terminal, settled, attemptedBytes,
              forwarded, providerProgressMs, audioDeadlineArmed, wallClockArmed, usageRequests, emitted, releases)
    }

    constructor (format: Audio.AudioFormat, burstSeconds: nat)
      ensures View() == Opened(format, burstSeconds)
    {
      start, policy := Reading, Audio.Policy(format, 0, burstSeconds);
      remainingAtAdmission, readyLimitReason := 0, SessionLimit;
      state, finishReason, terminal, settled := Streaming, None, None, false;
      attemptedBytes, forwarded, providerProgressMs := 0, [], 0.0;
      audioDeadlineArmed, wallClockArmed := false, false;
      usageRequests, emitted, releases := [], [], 0;
    }

    method Admit(limit: nat, remaining: nat, reason: FinishReason)
      requires start == Reading && limit > 0
      modifies this`start, this`policy, this`remainingAtAdmission, this`readyLimitReason
      ensures View() == Next(old(View()), BudgetRead(limit, remaining, reason))
    {
      start := Connecting;
      policy := policy.(limitSeconds := limit);
      remainingAtAdmission, readyLimitReason := remaining, reason;
    }

    /** The tail of connecting: a session that was closed meanwhile refuses, any other one arms its timers. */
    method Connect() returns (refused: bool)
      requires start == Connecting
      modifies this`start, this`audioDeadlineArmed, this`wallClockArmed
      ensures refused <==> old(state) == Closed
      ensures View() == Next(old(View()), ProviderConnected)
    {
      refused := state == Closed;
      if !refused {
        start := Connected;
        audioDeadlineArmed, wallClockArmed := true, true;
      }
    }

    method RunTerminal(decision: Decision)
      modifies this
      ensures View() == BeginTerminal(old(View()), decision)
    {
      if terminal.Some? {
        return;
      }
      terminal := Some(decision);
      audioDeadlineArmed, wallClockArmed := false, false;
      state := Closed;
      if Bills(decision) {
        usageRequests := usageRequests + [Audio.BillableSeconds(attemptedBytes, policy.format, providerProgressMs)];
      } else {
        Report(decision, remainingAtAdmission);
      }
    }

    /** The tail of the terminal: report to the client, then free the slot. */
    method Report(decision: Decision, remaining: nat)
      modifies this`settled, this`emitted, this`releases
      ensures View() == Settle(old(View()), decision, remaining)
    {
      match decision {
        case Complete(reason) => emitted := emitted + [CompleteEvent(reason, remaining)];
        case Error(code, _) => emitted := emitted + [ErrorEvent(code)];
        case Silent => emitted := emitted + [];
      }
      releases := releases + 1;
      settled := true;
    }

    method OnUsageAnswered(remaining: nat)
      modifies this`settled, this`emitted, this`releases
      ensures View() == UsageAnswered(old(View()), remaining)
    {
      if terminal.Some? && !settled {
        Report(terminal.value, remaining);
      }
    }

    method Finish(reason: FinishReason)
      modifies this
      ensures View() == BeginFinish(old(View()), reason)
    {
      if state == Closed || finishReason.Some? {
        return;
      }
      audioDeadlineArmed := false;
      state := Finishing;
      finishReason := Some(reason);
      wallClockArmed := false;
      if Audio.BillableSeconds(attemptedBytes, policy.format, providerProgressMs) == 0 {
        RunTerminal(Complete(reason));
      }
    }

    method SendFrame(frame: Audio.Frame, failure: ErrorCode)
      modifies this
      ensures View() == SendAudio(old(View()), frame, failure)
    {
      if state != Streaming {
        return;
      }
      match Audio.SendFrame(policy, attemptedBytes, frame) {
        case Sent(total, reachedLimit) =>
          forwarded := forwarded + Audio.AcceptedPrefix(policy, attemptedBytes, frame.data);
          attemptedBytes := total;
          audioDeadlineArmed := true;
          if reachedLimit {
            Finish(readyLimitReason);
          }
        case Limit => Finish(readyLimitReason);
        case Pace => RunTerminal(Error(InvalidAudio, true));
        case Invalid => RunTerminal(Error(InvalidAudio, true));
        case ProviderError => RunTerminal(Error(failure, true));
      }
    }

    method OnTranscript(finalMs: real, totalMs: real, emits: bool)
      modifies this
      ensures View() == ProviderTranscript(old(View()), finalMs, totalMs, emits)
    {
      if state == Closed {
        return;
      }
      var top := policy.limitSeconds as real * 1000.0;
      if finalMs > top || totalMs > top {
        RunTerminal(Error(InternalError, false));
        return;
      }
      providerProgressMs := Audio.MaxReal(providerProgressMs, Audio.MaxReal(finalMs, totalMs));
      if !emits {
        RunTerminal(Error(InternalError, true));
      }
    }

    method OnFinished()
      modifies this
      ensures View() == ProviderFinished(old(View()))
    {
      if state == Finishing && finishReason.Some? {
        RunTerminal(Complete(finishReason.value));
      }
    }

    method OnProviderClosed(malformed: bool, code: ErrorCode)
      modifies this
      ensures View() == ProviderClosed(old(View()), malformed, code)
    {
      if state == Closed {
        return;
      }
      RunTerminal(if malformed then Error(InternalError, false) else Error(code, true));
    }

    method CloseByForce()
      modifies this`audioDeadlineArmed, this`wallClockArmed, this`state
      ensures View() == ForceClose(old(View()))
    {
      audioDeadlineArmed, wallClockArmed := false, false;
      state := Closed;
    }
  }
}
