/**
 * What each operation on a live sign-in session does to it, and what each kind of long poll is told; stated
 * on the fields of the session and on the answers, and carried over runs.
 */
module PendingAuthActions {
  import opened Prelude
  import opened PendingAuthTable
  import opened PendingAuthStore
  import opened PendingAuthHistory

  predicate LiveAt(s: Store, k: TokenHash, at: Instant) {
    k in s.table.sessions && at < s.table.sessions[k].expiresAt
  }

  predicate Undecided(status: Status) {
    status == Pending || status == AwaitingConfirmation
  }

  /** An action on a session that is live at both of its clock readings leaves everything but what it decides. */
  lemma ActionTouchesOneSession(s: Store, k: TokenHash, a: Action, now: Instant, later: Instant)
    requires LiveAt(s, k, now) && LiveAt(s, k, later)
    ensures var t := Act(s, k, a, now, later);
            && t.table.sessions.Keys == s.table.sessions.Keys
            && (forall j <- s.table.sessions :: j != k ==> t.table.sessions[j] == s.table.sessions[j])
            && t.table.sessions[k].state == s.table.sessions[k].state
            && t.table.sessions[k].userCode == s.table.sessions[k].userCode
            && t.table.sessions[k].expiresAt == s.table.sessions[k].expiresAt
  {
    ActLeaves(s, k, a, now, later);
    hide Act;
  }

  lemma ActLeaves(s: Store, k: TokenHash, a: Action, now: Instant, later: Instant)
    requires LiveAt(s, k, now) && LiveAt(s, k, later)
    ensures Act(s, k, a, now, later).table.sessions ==
            s.table.sessions[k := Patched(s.table.sessions[k], a).GetOr(s.table.sessions[k])]
  {
    hide Patched, Look, Notify;
    LookKeepsLive(s, k, now);
    if Patched(s.table.sessions[k], a).Some? {
      ActsOnLive(s, k, a, now, later);
    } else {
      assert s.table.sessions[k := s.table.sessions[k]] == s.table.sessions;
    }
  }

  /** A session that is not decided yet is denied, failed, marked and staged as asked, whatever was staged before. */
  lemma UndecidedObeys(s: Store, k: TokenHash, now: Instant, later: Instant, d: Completion, message: string)
    requires LiveAt(s, k, now) && LiveAt(s, k, later) && Undecided(s.table.sessions[k].status)
    ensures var y := Act(s, k, Deny, now, later).table.sessions[k];
            y.status == Denied && y.staged.None? && y.completion.None? && y.errorMessage.None?
    ensures var y := Act(s, k, Fail(message), now, later).table.sessions[k];
            y.status == Error && y.errorMessage == Some(message) && y.staged.None? && y.completion.None?
    ensures var y := Act(s, k, MarkAwaiting, now, later).table.sessions[k];
            y.status == AwaitingConfirmation && y.staged.None? && y.completion.None? && y.errorMessage.None?
    ensures var y := Act(s, k, Stage(d), now, later).table.sessions[k];
            y.status == AwaitingConfirmation && y.staged == Some(d) && y.completion.None? && y.errorMessage.None?
  {
    forall a: Action { ActLeaves(s, k, a, now, later); }
    hide Act;
  }

  /** Confirming completes exactly a staged session that awaits it, with the staged data. */
  lemma ConfirmationCompletes(s: Store, k: TokenHash, now: Instant, later: Instant)
    requires LiveAt(s, k, now) && LiveAt(s, k, later)
    ensures var x, y := s.table.sessions[k], Act(s, k, Confirm, now, later).table.sessions[k];
            if x.status == AwaitingConfirmation && x.staged.Some?
            then y.status == Complete && y.completion == x.staged && y.staged.None? && y.errorMessage.None?
            else y == x
  {
    ActLeaves(s, k, Confirm, now, later);
    hide Act;
  }

  /** A decided session refuses; the test seam alone overwrites a completed one, and not a denied or failed one. */
  lemma DecidedRefuses(s: Store, k: TokenHash, a: Action, now: Instant, later: Instant)
    requires LiveAt(s, k, now) && LiveAt(s, k, later) && s.table.sessions[k].status in {Complete, Consumed, Denied, Error}
    ensures var x, y := s.table.sessions[k], Act(s, k, a, now, later).table.sessions[k];
            match a
            case CompleteDirectly(d) =>
              if x.status == Denied || x.status == Error then y == x
              else y.status == Complete && y.completion == Some(d) && y.staged.None? && y.errorMessage.None?
            case _ => y == x
  {
    ActLeaves(s, k, a, now, later);
    hide Act;
  }

  /** The test seam completes a session that is not decided yet. */
  lemma SeamCompletes(s: Store, k: TokenHash, d: Completion, now: Instant, later: Instant)
    requires LiveAt(s, k, now) && LiveAt(s, k, later) && Undecided(s.table.sessions[k].status)
    ensures var y := Act(s, k, CompleteDirectly(d), now, later).table.sessions[k];
            y.status == Complete && y.completion == Some(d) && y.staged.None? && y.errorMessage.None?
  {
    ActLeaves(s, k, CompleteDirectly(d), now, later);
    hide Act;
  }

  /** A session past its time is removed by the first read of an action; past it only at the second, by that one. */
  lemma ExpiredIsNotActedOn(s: Store, k: TokenHash, a: Action, now: Instant, later: Instant)
    requires k in s.table.sessions && !LiveAt(s, k, now)
    ensures Act(s, k, a, now, later).table.sessions == s.table.sessions - {k}
  {
    hide Patched, Notify;
  }

  lemma ExpiredMeanwhileIsNotActedOn(s: Store, k: TokenHash, a: Action, now: Instant, later: Instant)
    requires LiveAt(s, k, now) && !LiveAt(s, k, later)
    ensures var t := Act(s, k, a, now, later);
            t.table.sessions == s.table.sessions || t.table.sessions == s.table.sessions - {k}
  {
    hide Patched, Notify;
  }

  // ----- creation -----

  /** A new session is pending for the whole time to live, with nothing staged; a used code creates nothing. */
  lemma CreationIsPending(l: Limits, s: Store, k: TokenHash, state: OAuthState, code: UserCode, now: Instant)
    requires Valid(l, s) && l.maxSessions > 0
    ensures code in s.table.byCode ==> Create(l, s, k, state, code, now) == s
    ensures code !in s.table.byCode ==>
              var t := Create(l, s, k, state, code, now);
              && k in t.table.sessions
              && var x := t.table.sessions[k];
                 && x.status == Pending && x.state == state && x.userCode == code && x.expiresAt == now + l.sessionTtlMs
                 && x.staged.None? && x.completion.None? && x.errorMessage.None?
  {
    PutStores(s.table, l.maxSessions, k, NewSession(l, state, code, now));
    hide Put, TableValid, WaitsValid, Notify, Victim;
  }

  // ----- decisions are for good -----


  ghost predicate Decides(l: Limits, steps: seq<Step>, i: nat, k: TokenHash)
    requires i < |steps|
  {
    && ActsOn(steps[i], k) && (steps[i].action == Deny || steps[i].action.Fail?)
    && var s := Run(l, steps[..i]);
       LiveAt(s, k, steps[i].now) && LiveAt(s, k, steps[i].later) && Undecided(s.table.sessions[k].status)
  }

  lemma DecisionLands(l: Limits, steps: seq<Step>, i: nat, k: TokenHash)
    requires i < |steps| && Decides(l, steps, i, k)
    ensures var t := Run(l, steps[..i + 1]);
            && k in t.table.sessions
            && t.table.sessions[k].status == (if steps[i].action == Deny then Denied else Error)
            && t.table.sessions[k].errorMessage == (if steps[i].action == Deny then None else Some(steps[i].action.message))
            && t.table.sessions[k].completion.None?
  {
    var s := Run(l, steps[..i]);
    assert steps[..i + 1][..i] == steps[..i];
    assert Run(l, steps[..i + 1]) == Act(s, k, steps[i].action, steps[i].now, steps[i].later);
    var message := if steps[i].action.Fail? then steps[i].action.message else "";
    hide Run, Act;
    ActionTouchesOneSession(s, k, steps[i].action, steps[i].now, steps[i].later);
    UndecidedObeys(s, k, steps[i].now, steps[i].later, Completion(0, 0, 0), message);
  }

  /**
   * After a denial or a failure that took effect no completion becomes readable, whatever is staged and
   * confirmed later, until the session is created anew; while it lives it shows the decision.
   */
  lemma DecisionIsForGood(l: Limits, steps: seq<Step>, i: nat, k: TokenHash, now: Instant)
    requires l.maxSessions > 0 && SuppliedThroughout(l, steps) && i < |steps| && Decides(l, steps, i, k)
    requires forall m :: i < m < |steps| ==> Seamless(steps[m], k) && !Creates(l, steps, m, k)
    ensures Completed(Run(l, steps), k, now).None?
    ensures var t := Run(l, steps).table;
            k in t.sessions ==>
              && t.sessions[k].status == (if steps[i].action == Deny then Denied else Error)
              && t.sessions[k].errorMessage == (if steps[i].action == Deny then None else Some(steps[i].action.message))
  {
    DecisionLands(l, steps, i, k);
    RunIsValid(l, steps);
    hide Run, SuppliedThroughout, Decides, Creates, Completed, Valid;
    TerminalStays(l, steps, i + 1, k);
    CompletedIsStored(l, Run(l, steps), k, now);
  }

  // ----- reading and expiry -----

  lemma ExpiredLook(s: Store, k: TokenHash, now: Instant)
    requires k in s.table.sessions && s.table.sessions[k].expiresAt <= now
    ensures Look(s, k, now) == Remove(s.(table := Touch(s.table, k)), k, Some(Expired))
  {
    hide Remove, Without;
  }

  /** A read leaves a live session alone and removes an expired one, telling everyone who waits on it that it expired. */
  lemma ReadsExpire(l: Limits, s: Store, k: TokenHash, now: Instant)
    requires BaseValid(l, s)
    ensures LiveAt(s, k, now) ==> Look(s, k, now).table.sessions == s.table.sessions && Look(s, k, now).waits == s.waits
    ensures !LiveAt(s, k, now) ==> Look(s, k, now).table.sessions == s.table.sessions - {k}
    ensures k in s.table.sessions && !LiveAt(s, k, now) ==>
              forall x <- WaitersOf(s.waits, k) :: AnsweredWith(Look(s, k, now), x.id, Some(Expired))
    ensures k !in s.table.sessions ==> Look(s, k, now) == s
  {
    hide TableValid, SessionsShaped, WaitsValid;
    if k !in s.table.sessions {
      assert s.table.sessions - {k} == s.table.sessions;
    } else if LiveAt(s, k, now) {
      hide Without;
    } else {
      var touched := s.(table := Touch(s.table, k));
      assert touched.table.sessions == s.table.sessions && touched.waits == s.waits by { hide Without; }
      ExpiredLook(s, k, now);
      RemovalAnswers(l, touched, k, Some(Expired));
      assert Remove(touched, k, Some(Expired)).table.sessions == s.table.sessions - {k} by { hide Without, Notify; }
      hide Look, Remove, Touch;
    }
  }

  ghost predicate AnsweredWith(s: Store, id: WaiterId, outcome: Option<Status>) {
    id in s.waits.woken && s.waits.woken[id] == outcome
  }

  lemma RemovalAnswers(l: Limits, s: Store, k: TokenHash, outcome: Option<Status>)
    requires WaitsValid(s.waits)
    ensures forall x <- WaitersOf(s.waits, k) :: AnsweredWith(Remove(s, k, outcome), x.id, outcome)
    ensures WaitersOf(Remove(s, k, outcome).waits, k) == {}
    ensures forall j :: j != k ==> WaitersOf(Remove(s, k, outcome).waits, j) == WaitersOf(s.waits, j)
  {
    NotifyFacts(s.waits, k, outcome, true);
    assert Waking(s.waits, k, outcome, true) == WaitersOf(s.waits, k);
    hide Notify, WaitsValid, Known, Drop;
  }

  /** Consuming a readable completion removes the session, and everyone who waits on it hears that it was consumed. */
  lemma ConsumptionTells(l: Limits, s: Store, k: TokenHash, now: Instant)
    requires Valid(l, s)
    ensures Completed(s, k, now).Some? ==>
              && Consume(s, k, now).table.sessions == s.table.sessions - {k}
              && forall x <- WaitersOf(s.waits, k) :: AnsweredWith(Consume(s, k, now), x.id, Some(Consumed))
    ensures Completed(s, k, now).None? ==> Consume(s, k, now) == Look(s, k, now)
  {
    if Completed(s, k, now).Some? {
      CompletedIsStored(l, s, k, now);
      ReadsExpire(l, s, k, now);
      RemovalAnswers(l, Look(s, k, now), k, Some(Consumed));
    }
    hide Look, Notify, TableValid, WaitsValid, Completed;
  }

  /** The sweep removes the expired sessions and no other. */
  lemma SweepRemovesExpired(l: Limits, s: Store, now: Instant, k: TokenHash)
    requires Valid(l, s)
    ensures var t := Next(l, s, DoSweep(now));
            && (k in t.table.sessions <==> LiveAt(s, k, now))
            && (k in t.table.sessions ==> t.table.sessions[k] == s.table.sessions[k])
    ensures k in s.table.sessions && !LiveAt(s, k, now) ==>
              forall x <- WaitersOf(s.waits, k) :: AnsweredWith(Next(l, s, DoSweep(now)), x.id, Some(Expired))
  {
    assert k in s.table.recency <==> k in s.table.sessions by { assert Lists(s.table.recency, s.table.sessions.Keys); }
    hide TableValid, WaitsValid;
    SweepEvolves(l, s, s.table.recency, now);
    SweepKeepsLive(l, s, s.table.recency, now, k);
  }

  lemma {:induction false} SweepKeepsLive(l: Limits, s: Store, keys: seq<TokenHash>, now: Instant, k: TokenHash)
    requires BaseValid(l, s)
    ensures var t := SweepEach(s, keys, now);
            && (LiveAt(s, k, now) ==> k in t.table.sessions && t.table.sessions[k] == s.table.sessions[k])
            && (k in t.table.sessions ==> k in s.table.sessions && t.table.sessions[k] == s.table.sessions[k])
            && (k in s.table.sessions && k !in t.table.sessions ==>
                  forall x <- WaitersOf(s.waits, k) :: AnsweredWith(t, x.id, Some(Expired)))
            && (k in t.table.sessions ==> WaitersOf(t.waits, k) == WaitersOf(s.waits, k))
  {
    hide BaseValid, Remove;
    if keys != [] {
      var n := |keys| - 1;
      var swept, j := SweepEach(s, keys[..n], now), keys[n];
      SweepKeepsLive(l, s, keys[..n], now, k);
      SweepEvolves(l, s, keys[..n], now);
      if j in swept.table.sessions && swept.table.sessions[j].expiresAt <= now {
        RemoveEvolves(l, swept, j, Some(Expired));
        BaseHasWaits(l, swept);
        RemovalAnswers(l, swept, j, Some(Expired));
        DroppingKeepsOthers(swept, j);
      }
    }
  }

  lemma BaseHasWaits(l: Limits, s: Store)
    requires BaseValid(l, s)
    ensures WaitsValid(s.waits)
  {}

  lemma DroppingKeepsOthers(s: Store, j: TokenHash)
    ensures Remove(s, j, Some(Expired)).table.sessions == s.table.sessions - {j}
  {
    if j !in s.table.sessions { assert s.table.sessions - {j} == s.table.sessions; }
  }

  // ----- what a long poll is told -----

  lemma BeforeThePoll(l: Limits, s: Store, k: TokenHash, id: WaiterId, now: Instant)
    requires Valid(l, s) && id !in Known(s.waits)
    ensures id !in Registered(s.waits) && id !in s.waits.woken && BaseValid(l, s)
    ensures var seen := Look(s, k, now);
            BaseValid(l, seen) && id !in Known(seen.waits) && seen.waits.released == s.waits.released
  {
    assert BaseValid(l, s);
    LookEvolves(l, s, k, now);
    hide BaseValid, Registered, Look;
  }

  lemma RegisteredPoll(l: Limits, seen: Store, k: TokenHash, x: Waiter, later: Instant)
    requires BaseValid(l, seen) && k in seen.table.sessions && x.id !in Known(seen.waits)
    ensures var t := Look(seen.(waits := AddWaiter(seen.waits, k, x)), k, later);
            if LiveAt(seen, k, later) then x in WaitersOf(t.waits, k) && t.waits.woken == seen.waits.woken
            else AnsweredWith(t, x.id, Some(Expired))
  {
    RegisteredBase(l, seen, k, x);
    var added := seen.(waits := AddWaiter(seen.waits, k, x));
    assert x in WaitersOf(added.waits, k) && added.waits.woken == seen.waits.woken;
    hide AddWaiter, BaseValid, Known;
    ReadsExpire(l, added, k, later);
    hide Look;
  }

  /**
   * A new long poll is answered at once with nothing if there is no live session or the client is gone, with
   * shutdown if the store was released, and with the status if there is no time to wait; otherwise it waits
   * from the present status, unless its session has expired by the second look.
   */
  lemma PollsAreAnswered(l: Limits, s: Store, k: TokenHash, id: WaiterId, mode: WaitMode, now: Instant, later: Instant)
    requires Valid(l, s) && id !in Known(s.waits)
    ensures var t := Wait(s, k, id, mode, now, later);
            if !LiveAt(s, k, now) || mode == Aborted then AnsweredWith(t, id, None)
            else if s.waits.released then AnsweredWith(t, id, Some(Shutdown))
            else if mode == NoBudget then AnsweredWith(t, id, Some(s.table.sessions[k].status))
            else if LiveAt(s, k, later) then Waiter(id, s.table.sessions[k].status) in WaitersOf(t.waits, k) && t.waits.woken == s.waits.woken
            else AnsweredWith(t, id, Some(Expired))
  {
    hide BaseValid, Known, Registered, Valid, Look, AddWaiter;
    BeforeThePoll(l, s, k, id, now);
    ReadsExpire(l, s, k, now);
    var seen := Look(s, k, now);
    if LiveAt(s, k, now) {
      RegisteredPoll(l, seen, k, Waiter(id, s.table.sessions[k].status), later);
    }
  }

  /** An abort answers its own poll with nothing and nobody else. */
  lemma AbortAnswersItself(l: Limits, s: Store, k: TokenHash, x: Waiter)
    requires Valid(l, s) && x in WaitersOf(s.waits, k)
    ensures var t := Abort(s, k, x);
            && t.table == s.table && AnsweredWith(t, x.id, None) && WaitersOf(t.waits, k) == WaitersOf(s.waits, k) - {x}
            && forall j :: j != k ==> WaitersOf(t.waits, j) == WaitersOf(s.waits, j)
  {
    SettleFacts(s.waits, k, {x}, None);
    hide Settle, WaitsValid, TableValid;
  }

  /** The timer of a poll reports the expiry of its session, its status, or that there is none. */
  lemma TimersAnswer(l: Limits, s: Store, k: TokenHash, x: Waiter, now: Instant, later: Instant)
    requires Valid(l, s) && x in WaitersOf(s.waits, k)
    ensures AnsweredWith(TimerFires(s, k, x, now, later), x.id,
              if k in s.table.sessions && !LiveAt(s, k, now) then Some(Expired)
              else if LiveAt(s, k, later) then Some(s.table.sessions[k].status)
              else None)
  {
    var alone := s.(waits := Keeping(s.waits, k, WaitersOf(s.waits, k) - {x}));
    LookedUp(alone, k, later);
    hide Look, Keeping, Valid;
  }

  lemma LookedUp(s: Store, k: TokenHash, now: Instant)
    ensures k in Look(s, k, now).table.sessions <==> LiveAt(s, k, now)
    ensures LiveAt(s, k, now) ==> Look(s, k, now).table.sessions[k] == s.table.sessions[k]
  {
    hide Notify, Without;
  }

  function ReleaseOutcome(s: Store, k: TokenHash, now: Instant): Option<Status> {
    if LiveAt(s, k, now) then Some(Shutdown) else if k in s.table.sessions then Some(Expired) else None
  }

  /** One key's turn in the shutdown. */
  lemma ReleaseTurn(l: Limits, s: Store, k: TokenHash, now: Instant, j: TokenHash)
    requires BaseValid(l, s)
    ensures var seen := Look(s, k, now);
            var t := seen.(waits := Notify(seen.waits, k, if k in seen.table.sessions then Some(Shutdown) else None, true));
            && (forall x <- WaitersOf(s.waits, k) :: AnsweredWith(t, x.id, ReleaseOutcome(s, k, now)))
            && (j != k ==> WaitersOf(t.waits, j) == WaitersOf(s.waits, j) && (LiveAt(t, j, now) <==> LiveAt(s, j, now))
                           && (j in t.table.sessions <==> j in s.table.sessions))
  {
    hide Look, Notify, BaseValid, WaitsValid, Known, Evolves;
    var seen := Look(s, k, now);
    LookEvolves(l, s, k, now);
    EvolvedBase(l, s, seen);
    BaseHasWaits(l, seen);
    AnswersKept(l, s, seen);
    ReadsExpire(l, s, k, now);
    NotifyFacts(seen.waits, k, if k in seen.table.sessions then Some(Shutdown) else None, true);
    assert Waking(seen.waits, k, if k in seen.table.sessions then Some(Shutdown) else None, true) == WaitersOf(seen.waits, k);
    LookLeavesOthers(l, s, k, now, j);
    hide Waking;
  }

  lemma AnswersKept(l: Limits, s: Store, t: Store)
    requires Evolves(l, s, t)
    ensures forall id, outcome :: AnsweredWith(s, id, outcome) ==> AnsweredWith(t, id, outcome)
  {
    hide BaseValid, Known;
  }

  lemma LookLeavesOthers(l: Limits, s: Store, k: TokenHash, now: Instant, j: TokenHash)
    requires BaseValid(l, s)
    ensures j != k ==> WaitersOf(Look(s, k, now).waits, j) == WaitersOf(s.waits, j)
  {
    if k in s.table.sessions && s.table.sessions[k].expiresAt <= now {
      ExpiredLook(s, k, now);
      RemovalAnswers(l, s.(table := Touch(s.table, k)), k, Some(Expired));
    }
    hide Remove, Without, TableValid, WaitsValid, SessionsShaped;
  }

  lemma {:induction false} EachIsReleased(l: Limits, s: Store, keys: seq<TokenHash>, now: Instant, k: TokenHash)
    requires BaseValid(l, s)
    ensures var t := ReleaseEach(s, keys, now);
            if k in keys then forall x <- WaitersOf(s.waits, k) :: AnsweredWith(t, x.id, ReleaseOutcome(s, k, now))
            else WaitersOf(t.waits, k) == WaitersOf(s.waits, k) && (LiveAt(t, k, now) <==> LiveAt(s, k, now))
                 && (k in t.table.sessions <==> k in s.table.sessions)
  {
    if keys != [] {
      var n := |keys| - 1;
      hide BaseValid, Look, Notify, Evolves;
      EachIsReleased(l, s, keys[..n], now, k);
      ReleaseEvolves(l, s, keys[..n], now);
      var before := ReleaseEach(s, keys[..n], now);
      EvolvedBase(l, s, before);
      ReleaseTurn(l, before, keys[n], now, k);
      AnswersStay(l, s, keys, now);
      assert k in keys <==> k in keys[..n] || k == keys[n];
    }
  }

  lemma EvolvedBase(l: Limits, s: Store, t: Store)
    requires Evolves(l, s, t)
    ensures BaseValid(l, t)
  {
    hide BaseValid;
  }

  lemma AnswersStay(l: Limits, s: Store, keys: seq<TokenHash>, now: Instant)
    requires BaseValid(l, s) && keys != []
    ensures var before := ReleaseEach(s, keys[..|keys| - 1], now);
            forall id, outcome :: AnsweredWith(before, id, outcome) ==> AnsweredWith(ReleaseEach(s, keys, now), id, outcome)
  {
    var n := |keys| - 1;
    var before := ReleaseEach(s, keys[..n], now);
    ReleaseEvolves(l, s, keys[..n], now);
    EvolvedBase(l, s, before);
    assert [keys[n]][..0] == [];
    ReleaseEvolves(l, before, [keys[n]], now);
    assert ReleaseEach(before, [keys[n]], now) == ReleaseEach(s, keys, now);
    hide BaseValid, Known, ReleaseEach;
  }

  lemma OutcomeIs(s: Store, closing: Store, k: TokenHash, now: Instant)
    requires closing.table == s.table
    ensures ReleaseOutcome(closing, k, now) ==
            if LiveAt(s, k, now) then Some(Shutdown) else if k in s.table.sessions then Some(Expired) else None
  {}

  /** Shutdown tells every poll: that it is one, or that its session has expired, or that there is none. */
  lemma ShutdownTells(l: Limits, s: Store, order: seq<TokenHash>, now: Instant, k: TokenHash, x: Waiter)
    requires Valid(l, s) && !s.waits.released && (forall j :: j in order <==> j in s.waits.waiters) && x in WaitersOf(s.waits, k)
    ensures var t := Next(l, s, DoRelease(order, now));
            t.waits.released && AnsweredWith(t, x.id, if LiveAt(s, k, now) then Some(Shutdown)
                                                      else if k in s.table.sessions then Some(Expired) else None)
  {
    hide BaseValid, ReleaseEach, Evolves, Known, ReleaseOutcome;
    var closing := s.(waits := s.waits.(released := true));
    assert CanRelease(s, order) && k in order;
    ClosingIsValid(l, s);
    ReleaseEmpties(l, s, order, now);
    EachIsReleased(l, closing, order, now, k);
    OutcomeIs(s, closing, k, now);
  }
}
