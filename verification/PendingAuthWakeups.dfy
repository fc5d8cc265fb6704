/**
 * Long polls on the pending sign-in store: within one session life no status change is missed, every poll
 * is answered exactly once, and after shutdown nobody is left waiting.
 */
module PendingAuthWakeups {
  import opened Prelude
  import opened PendingAuthTable
  import opened PendingAuthStore
  import opened PendingAuthHistory

  /** Everyone waiting on `k` waits for a change away from the live session's status. */
  ghost predicate FreshAt(s: Store, k: TokenHash) {
    forall x <- WaitersOf(s.waits, k) :: k in s.table.sessions && x.initialStatus == s.table.sessions[k].status
  }

  ghost predicate WaitFromPending(s: Store, k: TokenHash) {
    forall x <- WaitersOf(s.waits, k) :: x.initialStatus == Pending
  }

  lemma EvolvesFresh(l: Limits, s: Store, t: Store, k: TokenHash)
    requires Evolves(l, s, t) && FreshAt(s, k)
    ensures FreshAt(t, k)
  {
    hide BaseValid, Known;
    assert WaitersOf(t.waits, k) <= WaitersOf(s.waits, k);
  }

  /** Overwriting a session answers, with the new status, everyone who waited from another one. */
  lemma OverwriteWakes(s: Store, k: TokenHash, y: Session)
    requires WaitsValid(s.waits)
    ensures var t := Overwrite(s, k, y);
            && (forall j :: j != k ==> WaitersOf(t.waits, j) == WaitersOf(s.waits, j))
            && (forall x <- WaitersOf(t.waits, k) :: x.initialStatus == y.status)
            && (forall x <- WaitersOf(s.waits, k) :: x.initialStatus != y.status ==>
                  x.id in t.waits.woken && t.waits.woken[x.id] == Some(y.status))
  {
    var waking := Waking(s.waits, k, Some(y.status), false);
    NotifyFacts(s.waits, k, Some(y.status), false);
    hide Notify, WaitsValid, Known;
    forall x | x in WaitersOf(s.waits, k) && x.initialStatus != y.status ensures x in waking {}
  }

  lemma OverwriteFresh(s: Store, k: TokenHash, y: Session, j: TokenHash)
    requires WaitsValid(s.waits) && FreshAt(s, j)
    ensures FreshAt(Overwrite(s, k, y), j)
  {
    OverwriteWakes(s, k, y);
    hide Notify, WaitsValid;
  }

  lemma EvolvedWaits(l: Limits, s: Store, t: Store)
    requires Evolves(l, s, t)
    ensures BaseValid(l, t) && WaitsValid(t.waits) && Known(t.waits) == Known(s.waits)
  {
    hide TableValid, WaitsValid, SessionsShaped, Known;
  }

  lemma ActFresh(l: Limits, s: Store, k: TokenHash, a: Action, now: Instant, later: Instant, j: TokenHash)
    requires BaseValid(l, s) && FreshAt(s, j)
    ensures FreshAt(Act(s, k, a, now, later), j)
  {
    hide BaseValid, FreshAt, Evolves, Look, Overwrite, Patched, WaitsValid, Known;
    var seen := Look(s, k, now);
    var again := Look(seen, k, later);
    ActLooks(l, s, k, now, later);
    EvolvesFresh(l, s, seen, j);
    EvolvesFresh(l, s, again, j);
    EvolvedWaits(l, s, again);
    if k in seen.table.sessions && Patched(seen.table.sessions[k], a).Some? && k in again.table.sessions {
      OverwriteFresh(again, k, Patched(seen.table.sessions[k], a).value, j);
    }
  }

  lemma AnswerFresh(s: Store, id: WaiterId, outcome: Option<Status>, k: TokenHash)
    requires FreshAt(s, k)
    ensures FreshAt(Answer(s, id, outcome), k)
  {
    assert WaitersOf(Answer(s, id, outcome).waits, k) == WaitersOf(s.waits, k);
  }

  lemma RegisterFresh(s: Store, k: TokenHash, id: WaiterId, j: TokenHash)
    requires FreshAt(s, j) && k in s.table.sessions
    ensures FreshAt(s.(waits := AddWaiter(s.waits, k, Waiter(id, s.table.sessions[k].status))), j)
  {
    var x := Waiter(id, s.table.sessions[k].status);
    assert WaitersOf(AddWaiter(s.waits, k, x), j) == WaitersOf(s.waits, j) + if j == k then {x} else {};
  }

  lemma WaitFresh(l: Limits, s: Store, k: TokenHash, id: WaiterId, mode: WaitMode, now: Instant, later: Instant, j: TokenHash)
    requires BaseValid(l, s) && FreshAt(s, j)
    ensures FreshAt(Wait(s, k, id, mode, now, later), j)
  {
    var seen := Look(s, k, now);
    LookEvolves(l, s, k, now);
    EvolvesFresh(l, s, seen, j);
    EvolvedWaits(l, s, seen);
    assert id !in Known(s.waits) <==> !(id in Registered(s.waits) || id in s.waits.woken);
    hide BaseValid, Known, Registered, Look, Evolves, FreshAt, AddWaiter, Answer;
    if id !in Known(s.waits) {
      if k !in seen.table.sessions || mode == Aborted {
        AnswerFresh(seen, id, None, j);
      } else if seen.waits.released {
        AnswerFresh(seen, id, Some(Shutdown), j);
      } else if mode == NoBudget {
        AnswerFresh(seen, id, Some(seen.table.sessions[k].status), j);
      } else {
        var waiter := Waiter(id, seen.table.sessions[k].status);
        var added := seen.(waits := AddWaiter(seen.waits, k, waiter));
        RegisterFresh(seen, k, id, j);
        RegisteredBase(l, seen, k, waiter);
        LookEvolves(l, added, k, later);
        EvolvesFresh(l, added, Look(added, k, later), j);
      }
    }
  }

  lemma ReleaseFresh(l: Limits, s: Store, order: seq<TokenHash>, now: Instant, j: TokenHash)
    requires BaseValid(l, s) && FreshAt(s, j)
    ensures FreshAt(Release(s, order, now), j)
  {
    if CanRelease(s, order) {
      ReleaseEmpties(l, s, order, now);
    }
  }

  /** Removing an entry answers everyone waiting on it, with the given outcome. */
  lemma RemoveWakes(s: Store, k: TokenHash, outcome: Option<Status>)
    requires WaitsValid(s.waits)
    ensures WaitersOf(Notify(s.waits, k, outcome, true), k) == {}
    ensures forall j :: j != k ==> WaitersOf(Notify(s.waits, k, outcome, true), j) == WaitersOf(s.waits, j)
    ensures forall x <- WaitersOf(s.waits, k) ::
              x.id in Notify(s.waits, k, outcome, true).woken && Notify(s.waits, k, outcome, true).woken[x.id] == outcome
  {
    NotifyFacts(s.waits, k, outcome, true);
    assert Waking(s.waits, k, outcome, true) == WaitersOf(s.waits, k);
    hide Notify, WaitsValid, Known;
  }

  /** The sessions and waits of `j` after a creation on another key: untouched, or both gone with an eviction. */
  lemma CreateFresh(l: Limits, s: Store, step: Step, j: TokenHash)
    requires Valid(l, s) && l.maxSessions > 0 && step.DoCreate? && FreshAt(s, j)
    ensures !CreatesIn(s, step, j) ==> FreshAt(Next(l, s, step), j)
    ensures CreatesIn(s, step, j) ==> (FreshAt(Next(l, s, step), j) <==> WaitFromPending(s, j))
  {
    if step.code !in s.table.byCode {
      var victim := Victim(s.table, l.maxSessions, step.key);
      VictimIsLive(s.table, l.maxSessions, step.key);
      PutStores(s.table, l.maxSessions, step.key, NewSession(l, step.state, step.code, step.now));
      if victim.Some? { RemoveWakes(s, victim.value, None); }
      hide TableValid, WaitsValid, SessionsShaped, Put, Notify, Victim;
    }
  }

  lemma StepFresh(l: Limits, s: Store, step: Step, k: TokenHash)
    requires Valid(l, s) && l.maxSessions > 0 && FreshAt(s, k) && (CreatesIn(s, step, k) ==> WaitFromPending(s, k))
    ensures FreshAt(Next(l, s, step), k)
  {
    assert BaseValid(l, s);
    hide Valid, BaseValid, FreshAt, WaitFromPending, Create, Act, Wait, Release, Look, Consume, Abort, TimerFires, SweepEach, Evolves;
    match step
    case DoCreate(_, _, _, _) => CreateFresh(l, s, step, k);
    case DoAct(j, a, now, later) => ActFresh(l, s, j, a, now, later, k);
    case DoWait(j, id, mode, now, later) => WaitFresh(l, s, j, id, mode, now, later, k);
    case DoRelease(order, now) => ReleaseFresh(l, s, order, now, k);
    case _ =>
      EvolvingStep(l, s, step);
      EvolvesFresh(l, s, Next(l, s, step), k);
  }

  /** A waiter answered by a step: settled, and registered nowhere any more. */
  ghost predicate Answered(t: Store, x: Waiter) {
    x.id in t.waits.woken && x.id !in Registered(t.waits)
  }

  lemma NowhereRegistered(w: Waits, id: WaiterId)
    requires forall j, y :: y in WaitersOf(w, j) ==> y.id != id
    ensures id !in Registered(w)
  {
    forall j, y | j in w.waiters && y in w.waiters[j] ensures y.id != id {
      assert y in WaitersOf(w, j);
    }
  }

  lemma GoneIsAnswered(l: Limits, s: Store, t: Store, step: Step, k: TokenHash, x: Waiter)
    requires Valid(l, s) && StepFacts(l, s, t, step) && x in WaitersOf(s.waits, k) && x !in WaitersOf(t.waits, k)
    ensures Answered(t, x)
  {
    IsRegistered(s.waits, k, x);
    assert x.id in Known(s.waits) && x.id in Known(t.waits);
    assert WaitsValid(s.waits) && WaitsStep(s.waits, t.waits, NewWaiter(step));
    hide Valid, StepFacts, Registered;
    forall j, y | y in WaitersOf(t.waits, j) ensures y.id != x.id {
      assert y in WaitersOf(s.waits, j) || y.id !in Known(s.waits);
      assert y.id == x.id && y in WaitersOf(s.waits, j) ==> j == k && x == y;
    }
    NowhereRegistered(t.waits, x.id);
  }

  /**
   * No lost wake-up: whatever the step, if it changes the status of a session, or removes the session, then
   * everyone who was waiting on it has been answered.
   */
  lemma NoLostWakeUp(l: Limits, s: Store, step: Step, k: TokenHash, x: Waiter)
    requires Valid(l, s) && l.maxSessions > 0 && StatesSupplied(s, step) && FreshAt(s, k)
    requires x in WaitersOf(s.waits, k) && !CreatesIn(s, step, k)
    ensures var t := Next(l, s, step);
            k !in t.table.sessions || t.table.sessions[k].status != s.table.sessions[k].status ==> Answered(t, x)
  {
    var t := Next(l, s, step);
    StepFresh(l, s, step, k);
    StepIsFactual(l, s, step);
    hide Valid, Next, StepFacts, Answered, StatesSupplied;
    if x !in WaitersOf(t.waits, k) {
      GoneIsAnswered(l, s, t, step, k, x);
    }
  }

  lemma NextInRun(l: Limits, steps: seq<Step>, i: nat)
    requires i < |steps|
    ensures Run(l, steps[..i + 1]) == Next(l, Run(l, steps[..i]), steps[i])
  {
    assert steps[..i + 1][..i] == steps[..i];
    hide Next;
  }

  /** Within one session life nobody waits from a status that is already past. */
  lemma {:induction false} FreshThroughout(l: Limits, steps: seq<Step>, i: nat, k: TokenHash)
    requires l.maxSessions > 0 && SuppliedThroughout(l, steps) && i <= |steps| && FreshAt(Run(l, steps[..i]), k)
    requires forall m :: i <= m < |steps| && Creates(l, steps, m, k) ==> WaitFromPending(Run(l, steps[..m]), k)
    ensures FreshAt(Run(l, steps), k)
    decreases |steps| - i
  {
    if i == |steps| {
      assert steps[..i] == steps;
    } else {
      hide Run, Valid, FreshAt, WaitFromPending, Next, StepFacts, SuppliedThroughout;
      PrefixStep(l, steps, i);
      assert Creates(l, steps, i, k) ==> WaitFromPending(Run(l, steps[..i]), k);
      NextInRun(l, steps, i);
      StepFresh(l, Run(l, steps[..i]), steps[i], k);
      FreshThroughout(l, steps, i + 1, k);
    }
  }

  /** What an answer says: the new status, or why the session is gone. */
  lemma AnswersAreRight(l: Limits, s: Store, k: TokenHash, x: Waiter, now: Instant)
    requires BaseValid(l, s) && k in s.table.sessions && x in WaitersOf(s.waits, k)
    ensures s.table.sessions[k].expiresAt <= now ==>
              x.id in Look(s, k, now).waits.woken && Look(s, k, now).waits.woken[x.id] == Some(Expired)
    ensures Completed(s, k, now).Some? ==>
              x.id in Consume(s, k, now).waits.woken && Consume(s, k, now).waits.woken[x.id] == Some(Consumed)
  {
    var touched := s.(table := Touch(s.table, k));
    RemoveWakes(touched, k, Some(Expired));
    RemoveWakes(touched, k, Some(Consumed));
    hide TableValid, WaitsValid, SessionsShaped, Notify, Drop, Without;
  }

  lemma ActionAnswersStatus(l: Limits, s: Store, k: TokenHash, a: Action, now: Instant, later: Instant, x: Waiter)
    requires BaseValid(l, s) && k in s.table.sessions && now < s.table.sessions[k].expiresAt && later < s.table.sessions[k].expiresAt
    requires FreshAt(s, k) && x in WaitersOf(s.waits, k)
    ensures var t := Act(s, k, a, now, later);
            && k in t.table.sessions
            && (t.table.sessions[k].status != s.table.sessions[k].status ==>
                  x.id in t.waits.woken && t.waits.woken[x.id] == Some(t.table.sessions[k].status))
  {
    var touched := s.(table := Touch(s.table, k));
    var again := touched.(table := Touch(touched.table, k));
    if Patched(s.table.sessions[k], a).Some? {
      OverwriteWakes(again, k, Patched(s.table.sessions[k], a).value);
    }
    hide TableValid, WaitsValid, SessionsShaped, Notify, Without, Patched;
  }

  // ----- everyone is answered once, and nobody waits after shutdown -----

  /** The waiters a run brought in. */
  ghost function Asked(steps: seq<Step>): set<WaiterId> {
    if steps == [] then {} else Asked(steps[..|steps| - 1]) + NewWaiter(steps[|steps| - 1])
  }

  /** Whoever asked is still registered or has been answered, never both. */
  lemma {:induction false} NobodyIsForgotten(l: Limits, steps: seq<Step>)
    requires l.maxSessions > 0 && SuppliedThroughout(l, steps)
    ensures var w := Run(l, steps).waits;
            Registered(w) + w.woken.Keys == Asked(steps) && Registered(w) !! w.woken.Keys
  {
    RunIsValid(l, steps);
    assert WaitsValid(Run(l, steps).waits);
    if steps != [] {
      var n := |steps| - 1;
      assert steps[..n + 1] == steps;
      PrefixStep(l, steps, n);
      PrefixIsSupplied(l, steps, n);
      NobodyIsForgotten(l, steps[..n]);
      assert WaitsStep(Run(l, steps[..n]).waits, Run(l, steps).waits, NewWaiter(steps[n]));
      hide Run, Valid, Registered;
    }
  }

  /** An answer is never revised. */
  lemma {:induction false} AnsweredOnce(l: Limits, steps: seq<Step>, i: nat, id: WaiterId)
    requires l.maxSessions > 0 && SuppliedThroughout(l, steps) && i <= |steps| && id in Run(l, steps[..i]).waits.woken
    ensures id in Run(l, steps).waits.woken && Run(l, steps).waits.woken[id] == Run(l, steps[..i]).waits.woken[id]
    decreases |steps| - i
  {
    if i == |steps| {
      assert steps[..i] == steps;
    } else {
      PrefixStep(l, steps, i);
      assert WaitsStep(Run(l, steps[..i]).waits, Run(l, steps[..i + 1]).waits, NewWaiter(steps[i]));
      hide Run, Valid, Known, SuppliedThroughout, StepFacts;
      AnsweredOnce(l, steps, i + 1, id);
    }
  }

  /** From shutdown on the store keeps no waiter, whatever is asked of it. */
  lemma {:induction false} NobodyWaitsAfterRelease(l: Limits, steps: seq<Step>, i: nat)
    requires l.maxSessions > 0 && SuppliedThroughout(l, steps) && i <= |steps| && Run(l, steps[..i]).waits.released
    ensures Run(l, steps).waits.released && Run(l, steps).waits.waiters == map[]
    decreases |steps| - i
  {
    if i == |steps| {
      assert steps[..i] == steps;
      RunIsValid(l, steps);
    } else {
      PrefixStep(l, steps, i);
      assert WaitsStep(Run(l, steps[..i]).waits, Run(l, steps[..i + 1]).waits, NewWaiter(steps[i]));
      hide Run, Valid, Known, SuppliedThroughout, StepFacts;
      NobodyWaitsAfterRelease(l, steps, i + 1);
    }
  }

  // ----- the limit of the guarantee -----

  /** A session re-created and marked again, seen by someone who waits from the later status. */
  lemma LeftBehind(l: Limits, s: Store, k: TokenHash, x: Waiter, state: OAuthState, code: UserCode, now: Instant)
    requires l.sessionTtlMs > 0 && k in s.table.sessions && code !in s.table.byCode
    requires x in WaitersOf(s.waits, k) && x.initialStatus == AwaitingConfirmation
    ensures var t := Create(l, s, k, state, code, now);
            var u := Act(t, k, MarkAwaiting, now, now);
            && k in t.table.sessions && t.table.sessions[k].status == Pending && x in WaitersOf(t.waits, k)
            && k in u.table.sessions && u.table.sessions[k].status == AwaitingConfirmation && x in WaitersOf(u.waits, k)
  {
    var t := Create(l, s, k, state, code, now);
    assert t.waits == s.waits && t.table.sessions[k] == NewSession(l, state, code, now);
    hide Create, Without;
    ActsOnLive(t, k, MarkAwaiting, now, now);
    assert x !in Waking(t.waits, k, Some(AwaitingConfirmation), false);
  }

  /**
   * Re-creating a session while someone waits from a later status leaves that waiter behind: the session
   * goes back to pending and on to awaiting confirmation, and the waiter hears of neither.
   */
  lemma RecreationLosesAWakeUp(l: Limits)
    requires l.maxSessions > 0 && l.sessionTtlMs > 0
    ensures var x := Waiter(7, AwaitingConfirmation);
            var s0 := Create(l, EMPTY, 1, 1, "AAAA", 0);
            var s1 := Act(s0, 1, MarkAwaiting, 0, 0);
            var s2 := Wait(s1, 1, 7, Waiting, 0, 0);
            var s3 := Create(l, s2, 1, 2, "BBBB", 0);
            var s4 := Act(s3, 1, MarkAwaiting, 0, 0);
            && 1 in s3.table.sessions && s3.table.sessions[1].status == Pending && x in WaitersOf(s3.waits, 1)
            && 1 in s4.table.sessions && s4.table.sessions[1].status == AwaitingConfirmation && x in WaitersOf(s4.waits, 1)
  {
    var s0 := Create(l, EMPTY, 1, 1, "AAAA", 0);
    assert 1 in s0.table.sessions && s0.table.sessions[1] == NewSession(l, 1, "AAAA", 0);
    assert s0.table.byCode == map["AAAA" := 1] && s0.waits == EMPTY.waits;
    hide Create, Without;
    ActsOnLive(s0, 1, MarkAwaiting, 0, 0);
    var s1 := Act(s0, 1, MarkAwaiting, 0, 0);
    assert s1.waits == EMPTY.waits && s1.table.byCode == s0.table.byCode;
    hide Act;
    var s2 := Wait(s1, 1, 7, Waiting, 0, 0);
    assert s2.waits == AddWaiter(s1.waits, 1, Waiter(7, AwaitingConfirmation)) && s2.table.sessions == s1.table.sessions;
    assert s2.table.byCode == s1.table.byCode;
    hide Wait;
    assert "AAAA"[0] != "BBBB"[0];
    LeftBehind(l, s2, 1, Waiter(7, AwaitingConfirmation), 2, "BBBB", 0);
  }

}
