/**
 * The pending sign-in store as an object: its maps are changed in place, and every method is shown to do
 * what the corresponding step of the store's specification says.
 */
module PendingAuthClass {
  import opened Prelude
  import opened PendingAuthTable
  import opened Spec = PendingAuthStore

  const USER_CODE_LENGTH := 4
  const MAX_CODE_DRAWS := 32

  /** Four characters, each an upper-case letter or a digit. */
  predicate IsUserCode(code: UserCode) {
    |code| == USER_CODE_LENGTH && forall c <- code :: 'A' <= c <= 'Z' || '0' <= c <= '9'
  }

  datatype CodeResult = Code(code: UserCode) | MalformedCode | NoUniqueCode

  lemma NotifyAllEmpties(w: Waits, k: TokenHash, outcome: Option<Status>)
    ensures k !in Notify(w, k, outcome, true).waiters
  {
    if k in w.waiters {
      assert WaitersOf(w, k) - Waking(w, k, outcome, true) == {};
    }
  }

  lemma OneMoreWoken(woken: map<WaiterId, Option<Status>>, done: set<Waiter>, x: Waiter, outcome: Option<Status>)
    ensures (woken + map id | id in Ids(done) :: outcome)[x.id := outcome] == woken + map id | id in Ids(done + {x}) :: outcome
  {
    assert Ids(done + {x}) == Ids(done) + {x.id};
  }

  lemma NobodyWokenYet(woken: map<WaiterId, Option<Status>>, outcome: Option<Status>)
    ensures woken == woken + map id | id in Ids({}) :: outcome
  {
    assert Ids({}) == {};
  }

  class PendingAuthStore {
    const limits: Limits
    var sessions: map<TokenHash, Session>
    var recency: seq<TokenHash>
    var byState: map<OAuthState, TokenHash>
    var byCode: map<UserCode, TokenHash>
    var waiters: map<TokenHash, set<Waiter>>
    var released: bool
    var woken: map<WaiterId, Option<Status>>

    function View(): Store
      reads this
    {
      Store(Table(sessions, recency, byState, byCode), Waits(waiters, released, woken))
    }

    constructor (limits: Limits)
      ensures View() == EMPTY && this.limits == limits
    {
      this.limits := limits;
      sessions, recency, byState, byCode := map[], [], map[], map[];
      waiters, released, woken := map[], false, map[];
    }

    // ----- waiters -----

    method WakeOne(k: TokenHash, x: Waiter, outcome: Option<Status>)
      requires k in waiters
      modifies `waiters, `woken
      ensures waiters == old(waiters)[k := old(waiters[k]) - {x}] && woken == old(woken)[x.id := outcome]
    {
      waiters := waiters[k := waiters[k] - {x}];
      woken := woken[x.id := outcome];
    }

    /** Settles a snapshot of the waiters of a key, one by one, and drops the emptied set. */
    method NotifyWaiters(k: TokenHash, outcome: Option<Status>, includeSameStatus: bool)
      modifies `waiters, `woken
      ensures View() == old(View()).(waits := Notify(old(View()).waits, k, outcome, includeSameStatus))
    {
      if k !in waiters { return; }
      hide Wakes, Ids;
      ghost var w := View().waits;
      var snapshot := waiters[k];
      var rest := snapshot;
      ghost var done: set<Waiter> := {};
      NobodyWokenYet(woken, outcome);
      while rest != {}
        invariant rest <= snapshot && k in waiters
        invariant done == set x | x in snapshot - rest && Wakes(x, outcome, includeSameStatus)
        invariant waiters[k] == snapshot - done && waiters == w.waiters[k := waiters[k]]
        invariant woken == w.woken + map id | id in Ids(done) :: outcome
      {
        var x :| x in rest;
        rest := rest - {x};
        if Wakes(x, outcome, includeSameStatus) {
          OneMoreWoken(w.woken, done, x, outcome);
          done := done + {x};
          WakeOne(k, x, outcome);
        }
      }
      assert done == Waking(w, k, outcome, includeSameStatus);
      if waiters[k] == {} {
        waiters := waiters - {k};
      }
    }

    method RemoveWaiter(k: TokenHash, x: Waiter)
      modifies `waiters
      ensures View() == if k !in old(waiters) then old(View())
                        else old(View()).(waits := Keeping(old(View()).waits, k, old(waiters[k]) - {x}))
    {
      if k in waiters {
        waiters := waiters[k := waiters[k] - {x}];
        if waiters[k] == {} {
          waiters := waiters - {k};
        }
      }
    }

    /** A promise is resolved at most once. */
    method Resolve(id: WaiterId, outcome: Option<Status>)
      modifies `woken
      ensures woken == if id in old(woken) then old(woken) else old(woken)[id := outcome]
    {
      if id !in woken {
        woken := woken[id := outcome];
      }
    }

    // ----- the cache -----

    method CacheGet(k: TokenHash) returns (r: Option<Session>)
      modifies `recency
      ensures View() == old(View()).(table := Touch(old(View()).table, k))
      ensures r == if k in sessions then Some(sessions[k]) else None
    {
      if k !in sessions { return None; }
      recency := Without(recency, k) + [k];
      r := Some(sessions[k]);
    }

    /** Disposal of a removed entry clears both indexes and settles whoever is still waiting with nothing. */
    method CacheDelete(k: TokenHash)
      modifies this
      ensures View() == if k in old(sessions) then Remove(old(View()), k, None) else old(View())
    {
      if k !in sessions { return; }
      var x := sessions[k];
      sessions, recency := sessions - {k}, Without(recency, k);
      byState, byCode := byState - {x.state}, byCode - {x.userCode};
      NotifyWaiters(k, None, true);
    }

    method CacheSet(k: TokenHash, x: Session)
      modifies this
      ensures var s := old(View());
              var victim := Victim(s.table, limits.maxSessions, k);
              var roomy := if victim.Some? && victim.value in s.table.sessions then Remove(s, victim.value, None) else s;
              View() == roomy.(table := roomy.table.(sessions := roomy.table.sessions[k := x], recency := Without(roomy.table.recency, k) + [k]))
    {
      if k !in sessions && |sessions| >= limits.maxSessions && recency != [] {
        CacheDelete(recency[0]);
      }
      sessions, recency := sessions[k := x], Without(recency, k) + [k];
    }

    // ----- entries -----

    method ExpireSession(k: TokenHash)
      requires k in sessions
      modifies this
      ensures View() == Remove(old(View()), k, Some(Expired))
    {
      NotifyAllEmpties(View().waits, k, Some(Expired));
      NotifyWaiters(k, Some(Expired), true);
      CacheDelete(k);
    }

    method GetActiveEntry(k: TokenHash, now: Instant) returns (r: Option<Session>)
      modifies this
      ensures View() == Look(old(View()), k, now)
      ensures r == if k in sessions then Some(sessions[k]) else None
    {
      r := CacheGet(k);
      if r.None? { return; }
      if r.value.expiresAt <= now {
        ExpireSession(k);
        r := None;
      }
    }

    method SetSession(k: TokenHash, x: Session)
      modifies this
      ensures var s := old(View());
              var victim := Victim(s.table, limits.maxSessions, k);
              victim.Some? ==> victim.value in s.table.sessions ==>
              View() == Store(Put(s.table, limits.maxSessions, k, x), Notify(s.waits, victim.value, None, true))
      ensures Victim(old(View()).table, limits.maxSessions, k).None? ==>
              View() == Store(Put(old(View()).table, limits.maxSessions, k, x), old(View()).waits)
    {
      if k in sessions {
        if sessions[k].state != x.state { byState := byState - {sessions[k].state}; }
        if sessions[k].userCode != x.userCode { byCode := byCode - {sessions[k].userCode}; }
      }
      byState, byCode := byState[x.state := k], byCode[x.userCode := k];
      CacheSet(k, x);
    }

    /** Every draw was a proper code that a live session already uses. */
    predicate AllTaken(draws: seq<UserCode>)
      reads this
    {
      forall code <- draws :: IsUserCode(code) && code in byCode
    }

    /** The first of at most 32 drawn codes that no live session uses; a malformed draw ends the search. */
    method GenerateUniqueUserCode(draws: seq<UserCode>) returns (r: CodeResult)
      requires |draws| == 32
      ensures r.Code? ==> |r.code| == 4 && (forall c <- r.code :: 'A' <= c <= 'Z' || '0' <= c <= '9') && r.code !in byCode
      ensures r.Code? ==> exists i :: 0 <= i < |draws| && draws[i] == r.code && AllTaken(draws[..i])
      ensures r.MalformedCode? ==>
                exists i :: 0 <= i < |draws| && AllTaken(draws[..i])
                            && !(|draws[i]| == 4 && forall c <- draws[i] :: 'A' <= c <= 'Z' || '0' <= c <= '9')
      ensures r.NoUniqueCode? <==> AllTaken(draws)
    {
      var attempt := 0;
      while attempt < MAX_CODE_DRAWS
        invariant 0 <= attempt <= MAX_CODE_DRAWS
        invariant AllTaken(draws[..attempt])
      {
        var userCode := draws[attempt];
        if !IsUserCode(userCode) { return MalformedCode; }
        if userCode !in byCode { return Code(userCode); }
        attempt := attempt + 1;
      }
      r := NoUniqueCode;
    }

    /** Creation fails, and changes nothing, exactly when no code could be generated. */
    method CreateSession(k: TokenHash, state: OAuthState, draws: seq<UserCode>, now: Instant) returns (r: CodeResult)
      requires |draws| == 32 && limits.maxSessions > 0 && CacheExact(View().table, limits.maxSessions)
      modifies this
      ensures r.Code? ==> r.code !in old(byCode) && View() == Create(limits, old(View()), k, state, r.code, now)
      ensures !r.Code? ==> View() == old(View())
    {
      hide CacheExact, Put, Notify, Victim, AllTaken, IsUserCode;
      r := GenerateUniqueUserCode(draws);
      if r.Code? {
        VictimIsLive(View().table, limits.maxSessions, k);
        SetSession(k, Session(state, r.code, Pending, now + limits.sessionTtlMs, None, None, None));
      }
    }

    // ----- the status machine -----

    method UpdateSession(k: TokenHash, x: Session, now: Instant) returns (r: Option<Session>)
      modifies this
      ensures var again := Look(old(View()), k, now);
              View() == if k in again.table.sessions then Overwrite(again, k, x) else again
      ensures r.Some? <==> k in sessions
      ensures r.Some? ==> r.value == x == sessions[k]
    {
      var entry := GetActiveEntry(k, now);
      if entry.None? { return None; }
      sessions := sessions[k := x];
      NotifyWaiters(k, Some(x.status), false);
      r := Some(x);
    }

    method MarkAwaitingConfirmation(k: TokenHash, now: Instant, later: Instant) returns (r: Option<Session>)
      modifies this
      ensures View() == Act(old(View()), k, MarkAwaiting, now, later)
      ensures r.Some? ==> k in sessions && sessions[k] == r.value
    {
      var entry := GetActiveEntry(k, now);
      if entry.None? || entry.value.status in {Complete, Consumed, Denied, Error} { return None; }
      r := UpdateSession(k, entry.value.(status := AwaitingConfirmation, staged := None, completion := None, errorMessage := None), later);
    }

    method StageCompletion(k: TokenHash, data: Completion, now: Instant, later: Instant) returns (r: Option<Session>)
      modifies this
      ensures View() == Act(old(View()), k, Stage(data), now, later)
      ensures r.Some? ==> k in sessions && sessions[k] == r.value
    {
      var entry := GetActiveEntry(k, now);
      if entry.None? || entry.value.status in {Denied, Error, Complete, Consumed} { return None; }
      r := UpdateSession(k, entry.value.(status := AwaitingConfirmation, staged := Some(data), completion := None, errorMessage := None), later);
    }

    method ConfirmSession(k: TokenHash, now: Instant, later: Instant) returns (r: Option<Session>)
      modifies this
      ensures View() == Act(old(View()), k, Confirm, now, later)
      ensures r.Some? ==> k in sessions && sessions[k] == r.value
    {
      var entry := GetActiveEntry(k, now);
      if entry.None? || entry.value.status != AwaitingConfirmation { return None; }
      var staged := entry.value.staged;
      if staged.None? { return None; }
      r := UpdateSession(k, entry.value.(status := Complete, staged := None, completion := staged, errorMessage := None), later);
    }

    method CompleteSession(k: TokenHash, data: Completion, now: Instant, later: Instant) returns (r: Option<Session>)
      modifies this
      ensures View() == Act(old(View()), k, CompleteDirectly(data), now, later)
      ensures r.Some? ==> k in sessions && sessions[k] == r.value
    {
      var entry := GetActiveEntry(k, now);
      if entry.None? || entry.value.status in {Denied, Error} { return None; }
      r := UpdateSession(k, entry.value.(status := Complete, staged := None, completion := Some(data), errorMessage := None), later);
    }

    method DenySession(k: TokenHash, now: Instant, later: Instant) returns (r: Option<Session>)
      modifies this
      ensures View() == Act(old(View()), k, Deny, now, later)
      ensures r.Some? ==> k in sessions && sessions[k] == r.value
    {
      var entry := GetActiveEntry(k, now);
      if entry.None? || entry.value.status in {Complete, Consumed, Denied, Error} { return None; }
      r := UpdateSession(k, entry.value.(status := Denied, staged := None, completion := None, errorMessage := None), later);
    }

    method FailSession(k: TokenHash, message: string, now: Instant, later: Instant) returns (r: Option<Session>)
      modifies this
      ensures View() == Act(old(View()), k, Fail(message), now, later)
      ensures r.Some? ==> k in sessions && sessions[k] == r.value
    {
      var entry := GetActiveEntry(k, now);
      if entry.None? || entry.value.status in {Complete, Consumed, Denied, Error} { return None; }
      r := UpdateSession(k, entry.value.(status := Error, staged := None, completion := None, errorMessage := Some(message)), later);
    }

    method GetCompletion(k: TokenHash, now: Instant) returns (r: Option<Completion>)
      modifies this
      ensures View() == Look(old(View()), k, now) && r == Completed(old(View()), k, now)
    {
      var entry := GetActiveEntry(k, now);
      if entry.None? || entry.value.status != Complete { return None; }
      r := entry.value.completion;
    }

    method ConsumeCompletion(k: TokenHash, now: Instant) returns (r: Option<Completion>)
      modifies this
      ensures View() == Consume(old(View()), k, now) && r == Completed(old(View()), k, now)
    {
      var entry := GetActiveEntry(k, now);
      if entry.None? || entry.value.status != Complete || entry.value.completion.None? { return None; }
      r := entry.value.completion;
      NotifyAllEmpties(View().waits, k, Some(Consumed));
      NotifyWaiters(k, Some(Consumed), true);
      CacheDelete(k);
    }

    // ----- waiting -----

    method RegisterWaiter(k: TokenHash, x: Waiter)
      modifies `waiters
      ensures View() == old(View()).(waits := AddWaiter(old(View()).waits, k, x))
    {
      waiters := waiters[k := (if k in waiters then waiters[k] else {}) + {x}];
    }

    /** A new poll `id`: answered at once, or registered and then checked against the session once more. */
    method WaitForStatusChange(k: TokenHash, id: WaiterId, mode: WaitMode, now: Instant, later: Instant)
      requires id !in Registered(View().waits) && id !in woken
      modifies this
      ensures View() == Wait(old(View()), k, id, mode, now, later)
    {
      var session := GetActiveEntry(k, now);
      if session.None? || mode == Aborted {
        woken := woken[id := None];
      } else if released {
        woken := woken[id := Some(Shutdown)];
      } else if mode == NoBudget {
        woken := woken[id := Some(session.value.status)];
      } else {
        var waiter := Waiter(id, session.value.status);
        RegisterWaiter(k, waiter);
        ghost var added := View();
        var latest := GetActiveEntry(k, later);
        var outcome := if latest.None? then None else Some(latest.value.status);
        if latest.None? || latest.value.status != waiter.initialStatus {
          ExpiryAnswers(added, k, waiter, later);
          RemoveWaiter(k, waiter);
          Resolve(id, outcome);
        }
      }
    }

    method AbortFires(k: TokenHash, x: Waiter)
      modifies this
      ensures View() == Abort(old(View()), k, x)
    {
      if k !in waiters || x !in waiters[k] { return; }
      assert Ids({x}) == {x.id};
      RemoveWaiter(k, x);
      woken := woken[x.id := None];
    }

    /** A settled poll has cleared its timer, so only a registered one acts. */
    method TimeoutFires(k: TokenHash, x: Waiter, now: Instant, later: Instant)
      modifies this
      ensures View() == TimerFires(old(View()), k, x, now, later)
    {
      if k !in waiters || x !in waiters[k] { return; }
      RemoveWaiter(k, x);
      var entry := CacheGet(k);
      if entry.Some? && entry.value.expiresAt <= now {
        ExpireSession(k);
        woken := woken[x.id := Some(Expired)];
      } else {
        TouchedTwice(old(View()).table, k);
        var session := GetActiveEntry(k, later);
        woken := woken[x.id := if session.Some? then Some(session.value.status) else None];
      }
    }

    // ----- sweeping and shutdown -----

    method ExpireExpiredSessions(now: Instant)
      modifies this
      ensures View() == SweepEach(old(View()), old(recency), now)
    {
      hide Remove;
      var keys, i := recency, 0;
      while i < |keys|
        invariant 0 <= i <= |keys|
        invariant View() == SweepEach(old(View()), keys[..i], now)
      {
        assert keys[..i + 1][..i] == keys[..i];
        if keys[i] in sessions && sessions[keys[i]].expiresAt <= now {
          ExpireSession(keys[i]);
        }
        i := i + 1;
      }
      assert keys[..i] == keys;
    }

    method ReleaseWaiters(keys: seq<TokenHash>, now: Instant)
      requires (set k | k in keys) == waiters.Keys
      modifies this
      ensures View() == Release(old(View()), keys, now)
    {
      if released { return; }
      released := true;
      ghost var closing := View();
      var i := 0;
      while i < |keys|
        invariant 0 <= i <= |keys|
        invariant View() == ReleaseEach(closing, keys[..i], now)
      {
        assert keys[..i + 1][..i] == keys[..i];
        var entry := GetActiveEntry(keys[i], now);
        NotifyWaiters(keys[i], if entry.Some? then Some(Shutdown) else None, true);
        i := i + 1;
      }
      assert keys[..i] == keys;
    }
  }

  /** An expiry found by the check after registration has already answered the new waiter. */
  lemma ExpiryAnswers(s: Store, k: TokenHash, x: Waiter, now: Instant)
    requires x in WaitersOf(s.waits, k) && k in s.table.sessions
    ensures k !in Look(s, k, now).table.sessions ==> k !in Look(s, k, now).waits.waiters && x.id in Look(s, k, now).waits.woken
  {
    NotifyAllEmpties(s.waits, k, Some(Expired));
    assert x in Waking(s.waits, k, Some(Expired), true);
    assert x.id in Ids(Waking(s.waits, k, Some(Expired), true));
  }

  lemma {:induction false} WithoutAppended(keys: seq<TokenHash>, k: TokenHash)
    ensures Without(Without(keys, k) + [k], k) == Without(keys, k)
  {
    if keys == [] {
    } else {
      WithoutAppended(keys[1..], k);
      if keys[0] != k {
        assert (Without(keys, k) + [k])[1..] == Without(keys[1..], k) + [k];
      }
    }
  }

  lemma TouchedTwice(t: Table, k: TokenHash)
    ensures Touch(Touch(t, k), k) == Touch(t, k)
  {
    WithoutAppended(t.recency, k);
  }
}
