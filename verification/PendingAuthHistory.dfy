/**
 * What every history of the pending sign-in store keeps: exact indexes, completions that were staged and
 * then confirmed, one consumption per creation, and no lost wake-up.
 */
module PendingAuthHistory {
  import opened Prelude
  import opened PendingAuthTable
  import opened PendingAuthStore

  // ----- runs -----

  /** Every creation of the run supplied an OAuth state no other live session was using. */
  ghost predicate SuppliedThroughout(l: Limits, steps: seq<Step>) {
    forall m :: 0 <= m < |steps| ==> StatesSupplied(Run(l, steps[..m]), steps[m])
  }

  lemma PrefixIsSupplied(l: Limits, steps: seq<Step>, n: nat)
    requires SuppliedThroughout(l, steps) && n <= |steps|
    ensures SuppliedThroughout(l, steps[..n])
  {
    hide Run, StatesSupplied;
    forall m | 0 <= m < n ensures StatesSupplied(Run(l, steps[..n][..m]), steps[..n][m]) {
      assert steps[..n][..m] == steps[..m];
    }
  }

  lemma EmptyIsValid(l: Limits)
    ensures Valid(l, EMPTY)
  {}

  lemma {:induction false} RunIsValid(l: Limits, steps: seq<Step>)
    requires l.maxSessions > 0 && SuppliedThroughout(l, steps)
    ensures Valid(l, Run(l, steps))
  {
    if steps == [] {
      EmptyIsValid(l);
    } else {
      var n := |steps| - 1;
      PrefixIsSupplied(l, steps, n);
      RunIsValid(l, steps[..n]);
      RunStep(l, steps);
      hide Run, Valid, SuppliedThroughout, Next;
    }
  }

  /** What the last step of a run did. */
  lemma RunStep(l: Limits, steps: seq<Step>)
    requires l.maxSessions > 0 && SuppliedThroughout(l, steps) && steps != []
    requires Valid(l, Run(l, steps[..|steps| - 1]))
    ensures StepFacts(l, Run(l, steps[..|steps| - 1]), Run(l, steps), steps[|steps| - 1])
  {
    var n := |steps| - 1;
    assert Run(l, steps) == Next(l, Run(l, steps[..n]), steps[n]);
    assert StatesSupplied(Run(l, steps[..n]), steps[n]);
    hide Run, Next, Valid, StepFacts, StatesSupplied;
    StepIsFactual(l, Run(l, steps[..n]), steps[n]);
  }

  lemma PrefixStep(l: Limits, steps: seq<Step>, m: nat)
    requires l.maxSessions > 0 && SuppliedThroughout(l, steps) && m < |steps|
    ensures Valid(l, Run(l, steps[..m])) && Valid(l, Run(l, steps[..m + 1]))
    ensures StepFacts(l, Run(l, steps[..m]), Run(l, steps[..m + 1]), steps[m])
  {
    PrefixIsSupplied(l, steps, m);
    PrefixIsSupplied(l, steps, m + 1);
    RunIsValid(l, steps[..m]);
    RunIsValid(l, steps[..m + 1]);
    assert steps[..m + 1][..m] == steps[..m];
    RunStep(l, steps[..m + 1]);
    hide *;
  }

  /** The two reverse indexes are exact inverses of the live sessions, and the size stays bounded. */
  lemma IndexesAreExact(l: Limits, steps: seq<Step>, state: OAuthState, code: UserCode, k: TokenHash)
    requires l.maxSessions > 0 && SuppliedThroughout(l, steps)
    ensures var t := Run(l, steps).table;
            && (state in t.byState && t.byState[state] == k <==> k in t.sessions && t.sessions[k].state == state)
            && (code in t.byCode && t.byCode[code] == k <==> k in t.sessions && t.sessions[k].userCode == code)
            && (k in t.recency <==> k in t.sessions)
            && |t.sessions| <= l.maxSessions
  {
    RunIsValid(l, steps);
    var t := Run(l, steps).table;
    hide Run;
    assert TableValid(t, l.maxSessions);
    assert k in t.sessions ==> k in States(t.sessions) && k in Codes(t.sessions);
  }

  /** One creation with a state another live session uses leaves an index that no longer inverts the sessions. */
  lemma SuppliedStatesAreNeeded(l: Limits, s: Store, step: Step)
    requires Valid(l, s) && l.maxSessions > 0 && step.DoCreate? && step.code !in s.table.byCode
    ensures TableValid(Next(l, s, step).table, l.maxSessions) <==> StatesSupplied(s, step)
  {
    PutIsValid(s.table, l.maxSessions, step.key, NewSession(l, step.state, step.code, step.now));
    hide TableValid, WaitsValid, SessionsShaped, Put, Notify;
  }

  // ----- the status machine -----

  predicate ActsOn(step: Step, k: TokenHash) {
    step.DoAct? && step.key == k
  }

  predicate Seamless(step: Step, k: TokenHash) {
    ActsOn(step, k) ==> !step.action.CompleteDirectly?
  }

  /** Step `m` of the run creates, or re-creates, the session of `k`. */
  ghost predicate Creates(l: Limits, steps: seq<Step>, m: nat, k: TokenHash)
    requires m < |steps|
  {
    CreatesIn(Run(l, steps[..m]), steps[m], k)
  }

  predicate CreatesIn(s: Store, step: Step, k: TokenHash) {
    step.DoCreate? && step.key == k && step.code !in s.table.byCode
  }

  /** No transition leaves a terminal status: the whole session stays as it is. */
  lemma TerminalIsFinal(l: Limits, s: Store, t: Store, step: Step, k: TokenHash)
    requires StepFacts(l, s, t, step) && Seamless(step, k) && !CreatesIn(s, step, k)
    requires k in t.table.sessions && k in s.table.sessions && Terminal(s.table.sessions[k].status)
    ensures t.table.sessions[k] == s.table.sessions[k]
  {
    hide Valid, WaitsStep;
    assert SessionFollows(l, s, t, step, k);
  }

  /** ... over any stretch of a run without a re-creation. */
  lemma {:induction false} TerminalStays(l: Limits, steps: seq<Step>, i: nat, k: TokenHash)
    requires l.maxSessions > 0 && SuppliedThroughout(l, steps) && i <= |steps|
    requires forall m :: i <= m < |steps| ==> Seamless(steps[m], k) && !Creates(l, steps, m, k)
    requires k in Run(l, steps[..i]).table.sessions && Terminal(Run(l, steps[..i]).table.sessions[k].status)
    ensures k in Run(l, steps).table.sessions ==> Run(l, steps).table.sessions[k] == Run(l, steps[..i]).table.sessions[k]
    decreases |steps| - i
  {
    if i == |steps| {
      assert steps[..i] == steps;
    } else {
      PrefixStep(l, steps, i);
      assert Seamless(steps[i], k) && !Creates(l, steps, i, k);
      hide Run, StepFacts;
      if k in Run(l, steps[..i + 1]).table.sessions {
        TerminalIsFinal(l, Run(l, steps[..i]), Run(l, steps[..i + 1]), steps[i], k);
        TerminalStays(l, steps, i + 1, k);
      } else {
        AbsentUntilCreated(l, steps, i + 1, k);
      }
    }
  }

  lemma LiveWasLive(l: Limits, s: Store, t: Store, step: Step, k: TokenHash)
    requires StepFacts(l, s, t, step) && k in t.table.sessions && !CreatesIn(s, step, k)
    ensures k in s.table.sessions
  {
    hide Valid, WaitsStep;
    assert SessionFollows(l, s, t, step, k);
  }

  lemma {:induction false} AbsentUntilCreated(l: Limits, steps: seq<Step>, i: nat, k: TokenHash)
    requires l.maxSessions > 0 && SuppliedThroughout(l, steps) && i <= |steps|
    requires forall m :: i <= m < |steps| ==> !Creates(l, steps, m, k)
    requires k !in Run(l, steps[..i]).table.sessions
    ensures k !in Run(l, steps).table.sessions
    decreases |steps| - i
  {
    if i == |steps| {
      assert steps[..i] == steps;
    } else {
      PrefixStep(l, steps, i);
      assert !Creates(l, steps, i, k);
      hide Run, StepFacts;
      if k in Run(l, steps[..i + 1]).table.sessions {
        LiveWasLive(l, Run(l, steps[..i]), Run(l, steps[..i + 1]), steps[i], k);
      }
      AbsentUntilCreated(l, steps, i + 1, k);
    }
  }

  // ----- completions -----

  /** The session of `k` was staged with `d` at step `i`, and nothing was done to it since. */
  ghost predicate StagedAt(l: Limits, steps: seq<Step>, k: TokenHash, d: Completion, i: nat) {
    && i < |steps| && ActsOn(steps[i], k) && steps[i].action == Stage(d)
    && forall m :: i < m < |steps| ==> !ActsOn(steps[m], k) && !Creates(l, steps, m, k)
  }

  /** Staged at step `i`, confirmed at step `j` with nothing done in between, and not re-created since. */
  ghost predicate ConfirmedAt(l: Limits, steps: seq<Step>, k: TokenHash, d: Completion, i: nat, j: nat) {
    && i < j < |steps| && ActsOn(steps[j], k) && steps[j].action == Confirm
    && StagedAt(l, steps[..j], k, d, i)
    && forall m :: j <= m < |steps| ==> !Creates(l, steps, m, k)
  }

  ghost predicate Explained(l: Limits, steps: seq<Step>, k: TokenHash, x: Session) {
    && (x.staged.Some? ==> exists i :: StagedAt(l, steps, k, x.staged.value, i))
    && (x.completion.Some? ==> exists i, j :: ConfirmedAt(l, steps, k, x.completion.value, i, j))
  }

  lemma CreatesInPrefix(l: Limits, steps: seq<Step>, n: nat, m: nat, k: TokenHash)
    requires m < n <= |steps|
    ensures Creates(l, steps[..n], m, k) <==> Creates(l, steps, m, k)
  {
    assert steps[..n][..m] == steps[..m];
    hide Run;
  }

  lemma StagedStays(l: Limits, steps: seq<Step>, k: TokenHash, d: Completion, i: nat)
    requires steps != [] && StagedAt(l, steps[..|steps| - 1], k, d, i)
    requires !ActsOn(steps[|steps| - 1], k) && !Creates(l, steps, |steps| - 1, k)
    ensures StagedAt(l, steps, k, d, i)
  {
    var n := |steps| - 1;
    hide Creates;
    forall m | i < m < |steps| ensures !ActsOn(steps[m], k) && !Creates(l, steps, m, k) {
      if m < n {
        CreatesInPrefix(l, steps, n, m, k);
        assert !ActsOn(steps[..n][m], k);
      }
    }
  }

  lemma ConfirmedStays(l: Limits, steps: seq<Step>, k: TokenHash, d: Completion, i: nat, j: nat)
    requires steps != [] && ConfirmedAt(l, steps[..|steps| - 1], k, d, i, j)
    requires !Creates(l, steps, |steps| - 1, k)
    ensures ConfirmedAt(l, steps, k, d, i, j)
  {
    var n := |steps| - 1;
    hide Creates, StagedAt;
    assert steps[..n][..j] == steps[..j];
    forall m | j <= m < |steps| ensures !Creates(l, steps, m, k) {
      if m < n { CreatesInPrefix(l, steps, n, m, k); }
    }
  }

  lemma NewlyConfirmed(l: Limits, steps: seq<Step>, k: TokenHash, d: Completion, i: nat)
    requires steps != [] && StagedAt(l, steps[..|steps| - 1], k, d, i)
    requires ActsOn(steps[|steps| - 1], k) && steps[|steps| - 1].action == Confirm
    ensures ConfirmedAt(l, steps, k, d, i, |steps| - 1)
  {
    hide Run;
  }

  lemma NewlyStaged(l: Limits, steps: seq<Step>, k: TokenHash, d: Completion)
    requires steps != [] && ActsOn(steps[|steps| - 1], k) && steps[|steps| - 1].action == Stage(d)
    ensures StagedAt(l, steps, k, d, |steps| - 1)
  {}

  /** A session is explained by the history when the one it followed from was. */
  lemma ExplainedNext(l: Limits, steps: seq<Step>, k: TokenHash, x: Session, y: Session)
    requires steps != [] && Shaped(x) && Explained(l, steps[..|steps| - 1], k, x)
    requires Seamless(steps[|steps| - 1], k) && !Creates(l, steps, |steps| - 1, k)
    requires y == if ActsOn(steps[|steps| - 1], k) then Patched(x, steps[|steps| - 1].action).GetOr(x) else x
    ensures Explained(l, steps, k, y)
  {
    hide Creates, StagedAt, ConfirmedAt;
    var last := steps[|steps| - 1];
    if y.completion.Some? {
      if x.completion.Some? {
        var i, j :| ConfirmedAt(l, steps[..|steps| - 1], k, x.completion.value, i, j);
        ConfirmedStays(l, steps, k, x.completion.value, i, j);
      } else {
        var i :| StagedAt(l, steps[..|steps| - 1], k, x.staged.value, i);
        NewlyConfirmed(l, steps, k, x.staged.value, i);
      }
    }
    if y.staged.Some? {
      if ActsOn(last, k) {
        NewlyStaged(l, steps, k, y.staged.value);
      } else {
        var i :| StagedAt(l, steps[..|steps| - 1], k, x.staged.value, i);
        StagedStays(l, steps, k, x.staged.value, i);
      }
    }
  }

  lemma {:induction false} SessionsAreExplained(l: Limits, steps: seq<Step>, k: TokenHash)
    requires l.maxSessions > 0 && SuppliedThroughout(l, steps)
    requires forall m :: 0 <= m < |steps| ==> Seamless(steps[m], k)
    requires k in Run(l, steps).table.sessions
    ensures Explained(l, steps, k, Run(l, steps).table.sessions[k])
  {
    if steps != [] {
      hide Run, Valid, WaitsStep, SuppliedThroughout, Explained, Patched, Shaped;
      var n := |steps| - 1;
      var s, t, last := Run(l, steps[..n]), Run(l, steps), steps[n];
      assert steps[..n + 1] == steps;
      PrefixStep(l, steps, n);
      PrefixIsSupplied(l, steps, n);
      assert SessionFollows(l, s, t, last, k);
      if !CreatesIn(s, last, k) {
        SessionsAreExplained(l, steps[..n], k);
        LiveIsShaped(l, s, k);
        ExplainedNext(l, steps, k, s.table.sessions[k], t.table.sessions[k]);
      } else {
        NewIsExplained(l, steps, k, t.table.sessions[k]);
      }
    } else {
      NothingLive(l, k);
    }
  }

  lemma NewIsExplained(l: Limits, steps: seq<Step>, k: TokenHash, x: Session)
    requires x.staged.None? && x.completion.None?
    ensures Explained(l, steps, k, x)
  {}

  lemma NothingLive(l: Limits, k: TokenHash)
    ensures k !in Run(l, []).table.sessions
  {}

  lemma LiveIsShaped(l: Limits, s: Store, k: TokenHash)
    requires Valid(l, s) && k in s.table.sessions
    ensures Shaped(s.table.sessions[k])
  {
    hide TableValid, WaitsValid, Shaped;
  }

  /**
   * A completion can be read only after it was staged and then confirmed on the same session, with no
   * denial, failure or other action in between and no re-creation since; and it is what was staged last.
   */
  lemma ReadableMeansConfirmed(l: Limits, steps: seq<Step>, k: TokenHash, now: Instant)
    requires l.maxSessions > 0 && SuppliedThroughout(l, steps)
    requires forall m :: 0 <= m < |steps| ==> Seamless(steps[m], k)
    requires Completed(Run(l, steps), k, now).Some?
    ensures exists i, j :: ConfirmedAt(l, steps, k, Completed(Run(l, steps), k, now).value, i, j)
  {
    var s := Run(l, steps);
    RunIsValid(l, steps);
    hide Run, ConfirmedAt, StagedAt, SuppliedThroughout;
    CompletedIsStored(l, s, k, now);
    SessionsAreExplained(l, steps, k);
  }

  lemma CompletedIsStored(l: Limits, s: Store, k: TokenHash, now: Instant)
    requires Valid(l, s)
    ensures Completed(s, k, now).Some? <==>
              k in s.table.sessions && s.table.sessions[k].expiresAt > now && s.table.sessions[k].status == Complete
    ensures Completed(s, k, now).Some? ==> Completed(s, k, now) == s.table.sessions[k].completion
  {
    LookEvolves(l, s, k, now);
    if k in s.table.sessions { LiveIsShaped(l, s, k); }
    hide BaseValid, Known, Look;
  }

  lemma LookKeepsLive(s: Store, k: TokenHash, now: Instant)
    requires k in s.table.sessions && now < s.table.sessions[k].expiresAt
    ensures Look(s, k, now).table.sessions == s.table.sessions
  {}

  lemma ActsOnLive(s: Store, k: TokenHash, a: Action, now: Instant, later: Instant)
    requires k in s.table.sessions && now < s.table.sessions[k].expiresAt && later < s.table.sessions[k].expiresAt
    requires Patched(s.table.sessions[k], a).Some?
    ensures Act(s, k, a, now, later).table.sessions == s.table.sessions[k := Patched(s.table.sessions[k], a).value]
  {
    hide Look, Notify, Patched;
    LookKeepsLive(s, k, now);
    LookKeepsLive(Look(s, k, now), k, later);
  }

  /** The way there: staging and then confirming a live session that is not yet decided makes exactly that readable. */
  lemma StageThenConfirm(s: Store, k: TokenHash, d: Completion, t0: Instant, t1: Instant, t2: Instant, t3: Instant, now: Instant)
    requires k in s.table.sessions && s.table.sessions[k].status in {Pending, AwaitingConfirmation}
    requires var end := s.table.sessions[k].expiresAt; t0 < end && t1 < end && t2 < end && t3 < end && now < end
    ensures Completed(Act(Act(s, k, Stage(d), t0, t1), k, Confirm, t2, t3), k, now) == Some(d)
  {
    var x := s.table.sessions[k];
    assert Patched(x, Stage(d)).Some?;
    var staged := Act(s, k, Stage(d), t0, t1);
    ActsOnLive(s, k, Stage(d), t0, t1);
    assert staged.table.sessions[k].staged == Some(d);
    ActsOnLive(staged, k, Confirm, t2, t3);
    hide Look, Act;
    LookKeepsLive(Act(staged, k, Confirm, t2, t3), k, now);
  }

  // ----- consumption -----

  /** A consumption that yields its completion removes the session with it. */
  lemma ConsumeRemoves(l: Limits, s: Store, k: TokenHash, now: Instant)
    requires Valid(l, s) && Completed(s, k, now).Some?
    ensures k !in Consume(s, k, now).table.sessions
  {
    LookEvolves(l, s, k, now);
    hide BaseValid, Look, Completed;
    RemoveEvolves(l, Look(s, k, now), k, Some(Consumed));
  }

  ghost predicate Yields(l: Limits, steps: seq<Step>, m: nat, k: TokenHash)
    requires m < |steps|
  {
    steps[m].DoConsume? && steps[m].key == k && Completed(Run(l, steps[..m]), k, steps[m].now).Some?
  }

  lemma AbsentAfterYield(l: Limits, steps: seq<Step>, k: TokenHash, i: nat)
    requires l.maxSessions > 0 && SuppliedThroughout(l, steps) && i < |steps| && Yields(l, steps, i, k)
    ensures k !in Run(l, steps[..i + 1]).table.sessions
  {
    var s := Run(l, steps[..i]);
    PrefixIsSupplied(l, steps, i);
    RunIsValid(l, steps[..i]);
    assert steps[..i + 1][..i] == steps[..i];
    assert Run(l, steps[..i + 1]) == Consume(s, k, steps[i].now);
    hide Run, Valid, Consume, Completed;
    ConsumeRemoves(l, s, k, steps[i].now);
  }

  lemma YieldNeedsSession(l: Limits, steps: seq<Step>, k: TokenHash, j: nat)
    requires l.maxSessions > 0 && SuppliedThroughout(l, steps) && j < |steps| && Yields(l, steps, j, k)
    ensures k in Run(l, steps[..j]).table.sessions
  {
    PrefixIsSupplied(l, steps, j);
    RunIsValid(l, steps[..j]);
    hide Run, Valid, Completed, SuppliedThroughout;
    CompletedIsStored(l, Run(l, steps[..j]), k, steps[j].now);
  }

  lemma AbsentAcross(l: Limits, steps: seq<Step>, k: TokenHash, i: nat, j: nat)
    requires l.maxSessions > 0 && SuppliedThroughout(l, steps) && i < j <= |steps|
    requires k !in Run(l, steps[..i + 1]).table.sessions
    requires forall m :: i < m < j ==> !Creates(l, steps, m, k)
    ensures k !in Run(l, steps[..j]).table.sessions
  {
    PrefixIsSupplied(l, steps, j);
    hide Run, SuppliedThroughout, Creates;
    assert steps[..j][..i + 1] == steps[..i + 1];
    forall m | i + 1 <= m < |steps[..j]| ensures !Creates(l, steps[..j], m, k) {
      CreatesInPrefix(l, steps, j, m, k);
    }
    AbsentUntilCreated(l, steps[..j], i + 1, k);
  }

  /** Between two consumptions that yield, the session was created anew: at most one per creation. */
  lemma ConsumedOncePerCreation(l: Limits, steps: seq<Step>, k: TokenHash, i: nat, j: nat)
    requires l.maxSessions > 0 && SuppliedThroughout(l, steps)
    requires i < j < |steps| && Yields(l, steps, i, k) && Yields(l, steps, j, k)
    ensures exists m :: i < m < j && Creates(l, steps, m, k)
  {
    hide Run, Yields, SuppliedThroughout, Creates;
    AbsentAfterYield(l, steps, k, i);
    YieldNeedsSession(l, steps, k, j);
    if forall m :: i < m < j ==> !Creates(l, steps, m, k) {
      AbsentAcross(l, steps, k, i, j);
    }
  }

}
