/**
 * The store of pending sign-ins: the table of sessions, the anti-phishing status machine over it, and
 * the long polls that wait for a session's status to change.
 */
module PendingAuthStore {
  import opened Prelude
  import opened PendingAuthTable

  type WaiterId = nat

  datatype Waiter = Waiter(id: WaiterId, initialStatus: Status)

  /** `woken` records how each settled waiter was resolved: with a status, or with nothing. */
  datatype Waits = Waits(waiters: map<TokenHash, set<Waiter>>, released: bool, woken: map<WaiterId, Option<Status>>)

  datatype Store = Store(table: Table, waits: Waits)

  const EMPTY := Store(NO_SESSIONS, Waits(map[], false, map[]))

  datatype Limits = Limits(maxSessions: nat, sessionTtlMs: nat)

  // ----- waiters -----

  function WaitersOf(w: Waits, k: TokenHash): set<Waiter> {
    if k in w.waiters then w.waiters[k] else {}
  }

  function Ids(waiters: set<Waiter>): set<WaiterId> {
    set x | x in waiters :: x.id
  }

  function Keeping(w: Waits, k: TokenHash, kept: set<Waiter>): Waits {
    w.(waiters := if kept == {} then w.waiters - {k} else w.waiters[k := kept])
  }

  /** Takes some waiters of a key out of the store and resolves them all the same way. */
  function Settle(w: Waits, k: TokenHash, gone: set<Waiter>, outcome: Option<Status>): Waits {
    Keeping(w, k, WaitersOf(w, k) - gone).(woken := w.woken + map id | id in Ids(gone) :: outcome)
  }

  predicate Wakes(x: Waiter, outcome: Option<Status>, includeSameStatus: bool) {
    includeSameStatus || outcome != Some(x.initialStatus)
  }

  function Waking(w: Waits, k: TokenHash, outcome: Option<Status>, includeSameStatus: bool): set<Waiter> {
    set x | x in WaitersOf(w, k) && Wakes(x, outcome, includeSameStatus)
  }

  function Notify(w: Waits, k: TokenHash, outcome: Option<Status>, includeSameStatus: bool): Waits {
    if k !in w.waiters then w else Settle(w, k, Waking(w, k, outcome, includeSameStatus), outcome)
  }

  // ----- sessions -----

  function NewSession(l: Limits, state: OAuthState, code: UserCode, now: Instant): Session {
    Session(state, code, Pending, now + l.sessionTtlMs, None, None, None)
  }

  /** Removing an entry settles every waiter on it, whatever status it was waiting from. */
  function Remove(s: Store, k: TokenHash, outcome: Option<Status>): Store {
    Store(Drop(s.table, k), Notify(s.waits, k, outcome, true))
  }

  /** Every read of an entry: it becomes the most recently used, unless it has expired, which removes it. */
  function Look(s: Store, k: TokenHash, now: Instant): Store {
    if k !in s.table.sessions then s
    else
      var touched := s.(table := Touch(s.table, k));
      if touched.table.sessions[k].expiresAt <= now then Remove(touched, k, Some(Expired)) else touched
  }

  function Create(l: Limits, s: Store, k: TokenHash, state: OAuthState, code: UserCode, now: Instant): Store {
    if code in s.table.byCode then s
    else
      var victim := Victim(s.table, l.maxSessions, k);
      Store(
        Put(s.table, l.maxSessions, k, NewSession(l, state, code, now)),
        if victim.Some? then Notify(s.waits, victim.value, None, true) else s.waits)
  }

  datatype Action =
    | MarkAwaiting
    | Stage(data: Completion)
    | Confirm
    | CompleteDirectly(data: Completion)
    | Deny
    | Fail(message: string)

  predicate Terminal(status: Status) {
    status == Complete || status == Consumed || status == Denied || status == Error
  }

  /** What an action makes of a session, or nothing when its guard refuses. */
  function Patched(x: Session, a: Action): Option<Session> {
    match a
    case MarkAwaiting =>
      if Terminal(x.status) then None
      else Some(x.(status := AwaitingConfirmation, staged := None, completion := None, errorMessage := None))
    case Stage(data) =>
      if Terminal(x.status) then None
      else Some(x.(status := AwaitingConfirmation, staged := Some(data), completion := None, errorMessage := None))
    case Confirm =>
      if x.status != AwaitingConfirmation || x.staged.None? then None
      else Some(x.(status := Complete, staged := None, completion := x.staged, errorMessage := None))
    case CompleteDirectly(data) =>
      if x.status == Denied || x.status == Error then None
      else Some(x.(status := Complete, staged := None, completion := Some(data), errorMessage := None))
    case Deny =>
      if Terminal(x.status) then None
      else Some(x.(status := Denied, staged := None, completion := None, errorMessage := None))
    case Fail(message) =>
      if Terminal(x.status) then None
      else Some(x.(status := Error, staged := None, completion := None, errorMessage := Some(message)))
  }

  function Overwrite(s: Store, k: TokenHash, x: Session): Store {
    Store(s.table.(sessions := s.table.sessions[k := x]), Notify(s.waits, k, Some(x.status), false))
  }

  /** The guard reads the entry once and the update reads it again, each with its own clock reading. */
  function Act(s: Store, k: TokenHash, a: Action, now: Instant, later: Instant): Store {
    var seen := Look(s, k, now);
    if k !in seen.table.sessions || Patched(seen.table.sessions[k], a).None? then seen
    else
      var again := Look(seen, k, later);
      if k !in again.table.sessions then again else Overwrite(again, k, Patched(seen.table.sessions[k], a).value)
  }

  function Completed(s: Store, k: TokenHash, now: Instant): Option<Completion> {
    var seen := Look(s, k, now);
    if k in seen.table.sessions && seen.table.sessions[k].status == Complete then seen.table.sessions[k].completion else None
  }

  function Consume(s: Store, k: TokenHash, now: Instant): Store {
    var seen := Look(s, k, now);
    if Completed(s, k, now).None? then seen else Remove(seen, k, Some(Consumed))
  }

  datatype WaitMode = Aborted | NoBudget | Waiting

  function Registered(w: Waits): set<WaiterId> {
    set k, x | k in w.waiters && x in w.waiters[k] :: x.id
  }

  function Answer(s: Store, id: WaiterId, outcome: Option<Status>): Store {
    s.(waits := s.waits.(woken := s.waits.woken[id := outcome]))
  }

  function AddWaiter(w: Waits, k: TokenHash, x: Waiter): Waits {
    w.(waiters := w.waiters[k := WaitersOf(w, k) + {x}])
  }

  function Wait(s: Store, k: TokenHash, id: WaiterId, mode: WaitMode, now: Instant, later: Instant): Store {
    if id in Registered(s.waits) || id in s.waits.woken then s
    else
      var seen := Look(s, k, now);
      if k !in seen.table.sessions || mode == Aborted then Answer(seen, id, None)
      else if seen.waits.released then Answer(seen, id, Some(Shutdown))
      else if mode == NoBudget then Answer(seen, id, Some(seen.table.sessions[k].status))
      else
        var waiter := Waiter(id, seen.table.sessions[k].status);
        Look(seen.(waits := AddWaiter(seen.waits, k, waiter)), k, later)
  }

  function Abort(s: Store, k: TokenHash, x: Waiter): Store {
    if x in WaitersOf(s.waits, k) then s.(waits := Settle(s.waits, k, {x}, None)) else s
  }

  /** A poll's own timer: it reports the expiry of its session, or the session as it is. */
  function TimerFires(s: Store, k: TokenHash, x: Waiter, now: Instant, later: Instant): Store {
    if x !in WaitersOf(s.waits, k) then s
    else
      var alone := s.(waits := Keeping(s.waits, k, WaitersOf(s.waits, k) - {x}));
      if k in s.table.sessions && s.table.sessions[k].expiresAt <= now then
        Answer(Look(alone, k, now), x.id, Some(Expired))
      else
        var seen := Look(alone, k, later);
        Answer(seen, x.id, if k in seen.table.sessions then Some(seen.table.sessions[k].status) else None)
  }

  function SweepEach(s: Store, keys: seq<TokenHash>, now: Instant): Store {
    if keys == [] then s
    else
      var swept := SweepEach(s, keys[..|keys| - 1], now);
      var k := keys[|keys| - 1];
      if k in swept.table.sessions && swept.table.sessions[k].expiresAt <= now then Remove(swept, k, Some(Expired)) else swept
  }

  function ReleaseEach(s: Store, keys: seq<TokenHash>, now: Instant): Store {
    if keys == [] then s
    else
      var before := ReleaseEach(s, keys[..|keys| - 1], now);
      var k := keys[|keys| - 1];
      var seen := Look(before, k, now);
      seen.(waits := Notify(seen.waits, k, if k in seen.table.sessions then Some(Shutdown) else None, true))
  }

  /** Shutdown settles the waiters key by key; `order` is the order in which the keys are listed. */
  function Release(s: Store, order: seq<TokenHash>, now: Instant): Store {
    if !CanRelease(s, order) then s
    else ReleaseEach(s.(waits := s.waits.(released := true)), order, now)
  }

  datatype Step =
    | DoCreate(key: TokenHash, state: OAuthState, code: UserCode, now: Instant)
    | DoRead(key: TokenHash, now: Instant)
    | DoAct(key: TokenHash, action: Action, now: Instant, later: Instant)
    | DoConsume(key: TokenHash, now: Instant)
    | DoWait(key: TokenHash, id: WaiterId, mode: WaitMode, now: Instant, later: Instant)
    | DoAbort(key: TokenHash, waiter: Waiter)
    | DoTimer(key: TokenHash, waiter: Waiter, now: Instant, later: Instant)
    | DoSweep(now: Instant)
    | DoRelease(order: seq<TokenHash>, now: Instant)

  function Next(l: Limits, s: Store, step: Step): Store {
    match step
    case DoCreate(k, state, code, now) => Create(l, s, k, state, code, now)
    case DoRead(k, now) => Look(s, k, now)
    case DoAct(k, action, now, later) => Act(s, k, action, now, later)
    case DoConsume(k, now) => Consume(s, k, now)
    case DoWait(k, id, mode, now, later) => Wait(s, k, id, mode, now, later)
    case DoAbort(k, waiter) => Abort(s, k, waiter)
    case DoTimer(k, waiter, now, later) => TimerFires(s, k, waiter, now, later)
    case DoSweep(now) => SweepEach(s, s.table.recency, now)
    case DoRelease(order, now) => Release(s, order, now)
  }

  function Run(l: Limits, steps: seq<Step>): Store {
    if steps == [] then EMPTY else Next(l, Run(l, steps[..|steps| - 1]), steps[|steps| - 1])
  }

  // ----- every reachable table -----

  ghost predicate Shaped(x: Session) {
    match x.status
    case Pending => x.staged.None? && x.completion.None?
    case AwaitingConfirmation => x.completion.None?
    case Complete => x.staged.None? && x.completion.Some?
    case Denied => x.staged.None? && x.completion.None?
    case Error => x.staged.None? && x.completion.None?
    case _ => false
  }

  ghost predicate UniqueIds(w: Waits) {
    forall j, k, x, y :: x in WaitersOf(w, j) && y in WaitersOf(w, k) && x.id == y.id ==> j == k && x == y
  }

  ghost predicate WaitsValid(w: Waits) {
    && (forall k <- w.waiters :: w.waiters[k] != {})
    && UniqueIds(w)
    && (forall id <- Registered(w) :: id !in w.woken)
  }

  ghost predicate SessionsShaped(sessions: map<TokenHash, Session>) {
    forall k <- sessions :: Shaped(sessions[k])
  }

  /** Holds between and during operations. */
  ghost predicate BaseValid(l: Limits, s: Store) {
    TableValid(s.table, l.maxSessions) && SessionsShaped(s.table.sessions) && WaitsValid(s.waits)
  }

  /** Holds between operations: besides the above, a released store keeps no waiter. */
  ghost predicate Valid(l: Limits, s: Store) {
    BaseValid(l, s) && (s.waits.released ==> s.waits.waiters == map[])
  }

  // ----- waiters: registered or settled, never both, never neither -----

  /** Every waiter the store was ever given: still registered, or settled. */
  ghost function Known(w: Waits): set<WaiterId> {
    Registered(w) + w.woken.Keys
  }

  /** What settling does: exactly `gone` leaves, resolved once; everyone else stays, and nothing is forgotten. */
  ghost predicate SettledFrom(w: Waits, v: Waits, k: TokenHash, gone: set<Waiter>, outcome: Option<Status>) {
    && WaitsValid(v)
    && v.released == w.released
    && Known(v) == Known(w)
    && WaitersOf(v, k) == WaitersOf(w, k) - gone
    && (forall j :: j != k ==> WaitersOf(v, j) == WaitersOf(w, j))
    && (forall j :: j in v.waiters ==> j in w.waiters)
    && (forall id <- w.woken :: id in v.woken && v.woken[id] == w.woken[id])
    && (forall x <- gone :: x.id in v.woken && v.woken[x.id] == outcome)
  }

  lemma IsRegistered(w: Waits, k: TokenHash, x: Waiter)
    requires x in WaitersOf(w, k)
    ensures x.id in Registered(w)
  {}

  lemma WhereRegistered(w: Waits, id: WaiterId) returns (k: TokenHash, x: Waiter)
    requires id in Registered(w)
    ensures x in WaitersOf(w, k) && x.id == id
  {
    k, x :| k in w.waiters && x in w.waiters[k] && x.id == id;
  }

  lemma OneWaiterPerId(w: Waits, j: TokenHash, k: TokenHash, x: Waiter, y: Waiter)
    requires WaitsValid(w) && x in WaitersOf(w, j) && y in WaitersOf(w, k) && x.id == y.id
    ensures j == k && x == y
  {}

  lemma KeptAreRegistered(w: Waits, k: TokenHash, gone: set<Waiter>)
    requires WaitsValid(w) && gone <= WaitersOf(w, k)
    ensures Registered(Keeping(w, k, WaitersOf(w, k) - gone)) == Registered(w) - Ids(gone)
  {
    hide WaitsValid, Registered;
    var v := Keeping(w, k, WaitersOf(w, k) - gone);
    forall id | id in Registered(v) ensures id in Registered(w) - Ids(gone) {
      var j, x := WhereRegistered(v, id);
      IsRegistered(w, j, x);
      if id in Ids(gone) {
        var y :| y in gone && y.id == id;
        OneWaiterPerId(w, j, k, x, y);
      }
    }
    forall id | id in Registered(w) - Ids(gone) ensures id in Registered(v) {
      var j, x := WhereRegistered(w, id);
      IsRegistered(v, j, x);
    }
  }

  lemma FewerIdsAreUnique(w: Waits, v: Waits)
    requires UniqueIds(w) && forall j :: WaitersOf(v, j) <= WaitersOf(w, j)
    ensures UniqueIds(v)
  {}

  lemma KeepingIsValid(w: Waits, k: TokenHash, gone: set<Waiter>)
    requires WaitsValid(w) && gone <= WaitersOf(w, k)
    ensures WaitsValid(Keeping(w, k, WaitersOf(w, k) - gone))
  {
    KeptAreRegistered(w, k, gone);
    FewerIdsAreUnique(w, Keeping(w, k, WaitersOf(w, k) - gone));
  }

  lemma SettleFacts(w: Waits, k: TokenHash, gone: set<Waiter>, outcome: Option<Status>)
    requires WaitsValid(w) && gone <= WaitersOf(w, k)
    ensures SettledFrom(w, Settle(w, k, gone, outcome), k, gone, outcome)
  {
    KeptAreRegistered(w, k, gone);
    KeepingIsValid(w, k, gone);
    var kept, v := Keeping(w, k, WaitersOf(w, k) - gone), Settle(w, k, gone, outcome);
    assert v.waiters == kept.waiters;
    assert Registered(v) == Registered(kept);
    FewerIdsAreUnique(w, v);
    assert v.woken.Keys == w.woken.Keys + Ids(gone);
    assert Ids(gone) <= Registered(w) by {
      forall x <- gone ensures x.id in Registered(w) {
        assert k in w.waiters && x in w.waiters[k];
      }
    }
  }

  lemma NotifyFacts(w: Waits, k: TokenHash, outcome: Option<Status>, includeSameStatus: bool)
    requires WaitsValid(w)
    ensures SettledFrom(w, Notify(w, k, outcome, includeSameStatus), k, Waking(w, k, outcome, includeSameStatus), outcome)
    ensures includeSameStatus ==> k !in Notify(w, k, outcome, includeSameStatus).waiters
  {
    var waking := Waking(w, k, outcome, includeSameStatus);
    if k in w.waiters {
      SettleFacts(w, k, waking, outcome);
      if includeSameStatus {
        assert waking == w.waiters[k];
      }
    } else {
      assert waking == {};
    }
  }

  lemma AddedAreRegistered(w: Waits, k: TokenHash, x: Waiter)
    ensures Registered(AddWaiter(w, k, x)) == Registered(w) + {x.id}
  {
    hide Registered;
    var v := AddWaiter(w, k, x);
    forall id | id in Registered(v) ensures id in Registered(w) + {x.id} {
      var j, y := WhereRegistered(v, id);
      if y in WaitersOf(w, j) { IsRegistered(w, j, y); }
    }
    forall id | id in Registered(w) + {x.id} ensures id in Registered(v) {
      IsRegistered(v, k, x);
      if id in Registered(w) {
        var j, y := WhereRegistered(w, id);
        IsRegistered(v, j, y);
      }
    }
  }

  lemma AddedIdsAreUnique(w: Waits, k: TokenHash, x: Waiter)
    requires UniqueIds(w) && x.id !in Registered(w)
    ensures UniqueIds(AddWaiter(w, k, x))
  {
    var v := AddWaiter(w, k, x);
    forall i, j, y, z | y in WaitersOf(v, i) && z in WaitersOf(v, j) && y.id == z.id ensures i == j && y == z {
      if y in WaitersOf(w, i) { IsRegistered(w, i, y); }
      if z in WaitersOf(w, j) { IsRegistered(w, j, z); }
    }
  }

  lemma AddFacts(w: Waits, k: TokenHash, x: Waiter)
    requires WaitsValid(w) && x.id !in Known(w)
    ensures WaitsValid(AddWaiter(w, k, x)) && Known(AddWaiter(w, k, x)) == Known(w) + {x.id}
    ensures forall j :: j != k ==> WaitersOf(AddWaiter(w, k, x), j) == WaitersOf(w, j)
  {
    AddedAreRegistered(w, k, x);
    AddedIdsAreUnique(w, k, x);
    hide Registered, UniqueIds;
  }

  // ----- what looking, expiring, consuming, sweeping and releasing may do -----

  /** Sessions only disappear, never change; their waiters are settled with them; nobody is lost or settled twice. */
  ghost predicate Evolves(l: Limits, s: Store, t: Store) {
    && BaseValid(l, t)
    && t.waits.released == s.waits.released
    && Known(t.waits) == Known(s.waits)
    && (forall id <- s.waits.woken :: id in t.waits.woken && t.waits.woken[id] == s.waits.woken[id])
    && (forall k <- t.table.sessions :: k in s.table.sessions && t.table.sessions[k] == s.table.sessions[k])
    && (forall k :: WaitersOf(t.waits, k) <= WaitersOf(s.waits, k))
    && (forall k :: k in s.table.sessions && k !in t.table.sessions ==> WaitersOf(t.waits, k) == {})
  }

  lemma EvolvesTransitively(l: Limits, s: Store, t: Store, u: Store)
    requires Evolves(l, s, t) && Evolves(l, t, u)
    ensures Evolves(l, s, u)
  {
    hide BaseValid, Known;
    forall k | k in s.table.sessions && k !in u.table.sessions ensures WaitersOf(u.waits, k) == {} {
      if k !in t.table.sessions {
        assert WaitersOf(t.waits, k) == {};
      }
    }
  }

  lemma TableEvolves(l: Limits, s: Store, table: Table)
    requires BaseValid(l, s) && TableValid(table, l.maxSessions) && table.sessions == s.table.sessions
    ensures Evolves(l, s, s.(table := table))
  {
    hide TableValid, WaitsValid, Known;
  }

  lemma SettlingEvolves(l: Limits, s: Store, t: Store, k: TokenHash, gone: set<Waiter>, outcome: Option<Status>)
    requires BaseValid(l, s) && t.table == s.table
    requires SettledFrom(s.waits, t.waits, k, gone, outcome)
    ensures Evolves(l, s, t)
  {
    hide TableValid, WaitsValid, Known;
    forall j ensures WaitersOf(t.waits, j) <= WaitersOf(s.waits, j) {
      if j != k { assert WaitersOf(t.waits, j) == WaitersOf(s.waits, j); }
    }
  }

  lemma DropEvolves(l: Limits, s: Store, k: TokenHash)
    requires BaseValid(l, s) && WaitersOf(s.waits, k) == {}
    ensures Evolves(l, s, s.(table := Drop(s.table, k)))
  {
    DropIsValid(s.table, l.maxSessions, k);
    hide TableValid, WaitsValid, Known;
  }

  lemma RemoveEvolves(l: Limits, s: Store, k: TokenHash, outcome: Option<Status>)
    requires BaseValid(l, s)
    ensures Evolves(l, s, Remove(s, k, outcome))
    ensures k !in Remove(s, k, outcome).table.sessions && WaitersOf(Remove(s, k, outcome).waits, k) == {}
  {
    NotifyFacts(s.waits, k, outcome, true);
    hide SettledFrom, TableValid, WaitsValid, Known, Notify;
    var notified := s.(waits := Notify(s.waits, k, outcome, true));
    SettlingEvolves(l, s, notified, k, Waking(s.waits, k, outcome, true), outcome);
    DropEvolves(l, notified, k);
    EvolvesTransitively(l, s, notified, Remove(s, k, outcome));
  }

  lemma LookEvolves(l: Limits, s: Store, k: TokenHash, now: Instant)
    requires BaseValid(l, s)
    ensures Evolves(l, s, Look(s, k, now))
    ensures k in Look(s, k, now).table.sessions <==> k in s.table.sessions && s.table.sessions[k].expiresAt > now
  {
    if k in s.table.sessions {
      var touched := s.(table := Touch(s.table, k));
      TouchIsValid(s.table, l.maxSessions, k);
      TableEvolves(l, s, touched.table);
      if touched.table.sessions[k].expiresAt <= now {
        RemoveEvolves(l, touched, k, Some(Expired));
        EvolvesTransitively(l, s, touched, Look(s, k, now));
      }
    } else {
      TableEvolves(l, s, s.table);
    }
  }

  lemma ConsumeEvolves(l: Limits, s: Store, k: TokenHash, now: Instant)
    requires BaseValid(l, s)
    ensures Evolves(l, s, Consume(s, k, now))
  {
    LookEvolves(l, s, k, now);
    var seen := Look(s, k, now);
    RemoveEvolves(l, seen, k, Some(Consumed));
    EvolvesTransitively(l, s, seen, Remove(seen, k, Some(Consumed)));
  }

  lemma {:induction false} SweepEvolves(l: Limits, s: Store, keys: seq<TokenHash>, now: Instant)
    requires BaseValid(l, s)
    ensures Evolves(l, s, SweepEach(s, keys, now))
    ensures forall k <- keys :: k in SweepEach(s, keys, now).table.sessions ==> s.table.sessions[k].expiresAt > now
  {
    if keys == [] {
      TableEvolves(l, s, s.table);
    } else {
      var k, swept := keys[|keys| - 1], SweepEach(s, keys[..|keys| - 1], now);
      SweepEvolves(l, s, keys[..|keys| - 1], now);
      RemoveEvolves(l, swept, k, Some(Expired));
      EvolvesTransitively(l, s, swept, Remove(swept, k, Some(Expired)));
      var t := SweepEach(s, keys, now);
      forall j <- keys ensures j in t.table.sessions ==> s.table.sessions[j].expiresAt > now {
        if j != k { assert j in keys[..|keys| - 1]; }
      }
    }
  }

  lemma {:induction false} ReleaseEvolves(l: Limits, s: Store, keys: seq<TokenHash>, now: Instant)
    requires BaseValid(l, s)
    ensures Evolves(l, s, ReleaseEach(s, keys, now))
    ensures forall k <- keys :: WaitersOf(ReleaseEach(s, keys, now).waits, k) == {}
  {
    if keys == [] {
      TableEvolves(l, s, s.table);
    } else {
      var k, before := keys[|keys| - 1], ReleaseEach(s, keys[..|keys| - 1], now);
      ReleaseEvolves(l, s, keys[..|keys| - 1], now);
      LookEvolves(l, before, k, now);
      var seen, t := Look(before, k, now), ReleaseEach(s, keys, now);
      var outcome := if k in seen.table.sessions then Some(Shutdown) else None;
      NotifyFacts(seen.waits, k, outcome, true);
      SettlingEvolves(l, seen, t, k, Waking(seen.waits, k, outcome, true), outcome);
      EvolvesTransitively(l, s, before, seen);
      EvolvesTransitively(l, s, seen, t);
      forall j <- keys ensures WaitersOf(t.waits, j) == {} {
        if j != k {
          assert j in keys[..|keys| - 1];
          assert WaitersOf(t.waits, j) <= WaitersOf(seen.waits, j) <= WaitersOf(before.waits, j);
        }
      }
    }
  }

  // ----- what each operation does -----

  /** A session after a step is the one before, a freshly created one, or what the step's action made of it. */
  ghost predicate SessionFollows(l: Limits, s: Store, t: Store, step: Step, k: TokenHash)
    requires k in t.table.sessions
  {
    if step.DoCreate? && step.key == k && step.code !in s.table.byCode then
      t.table.sessions[k] == NewSession(l, step.state, step.code, step.now)
    else
      && k in s.table.sessions
      && var x := s.table.sessions[k];
         t.table.sessions[k] == if step.DoAct? && step.key == k then Patched(x, step.action).GetOr(x) else x
  }

  ghost predicate SessionsFollow(l: Limits, s: Store, t: Store, step: Step) {
    forall k <- t.table.sessions :: SessionFollows(l, s, t, step, k)
  }

  /** The waiter a step brings in, if any. */
  function NewWaiter(step: Step): set<WaiterId> {
    if step.DoWait? then {step.id} else {}
  }

  /** Nobody is forgotten, a settled waiter keeps its answer, and only the step's own waiter may join. */
  ghost predicate WaitsStep(w: Waits, v: Waits, added: set<WaiterId>) {
    && Known(v) == Known(w) + added
    && (forall id <- w.woken :: id in v.woken && v.woken[id] == w.woken[id])
    && (forall k, x :: x in WaitersOf(v, k) ==> x in WaitersOf(w, k) || x.id in added - Known(w))
    && (w.released ==> v.released)
  }

  ghost predicate StepFacts(l: Limits, s: Store, t: Store, step: Step) {
    Valid(l, t) && SessionsFollow(l, s, t, step) && WaitsStep(s.waits, t.waits, NewWaiter(step))
  }

  lemma NobodyLeft(l: Limits, t: Store)
    requires BaseValid(l, t) && forall k :: WaitersOf(t.waits, k) == {}
    ensures t.waits.waiters == map[]
  {
    hide TableValid, SessionsShaped;
    forall k ensures k !in t.waits.waiters {
      assert WaitersOf(t.waits, k) == {};
    }
  }

  lemma EvolutionIsValid(l: Limits, s: Store, t: Store)
    requires Valid(l, s) && Evolves(l, s, t)
    ensures Valid(l, t) && WaitsStep(s.waits, t.waits, {})
  {
    hide BaseValid, Known;
    if s.waits.released {
      forall k ensures WaitersOf(t.waits, k) == {} {
        assert WaitersOf(t.waits, k) <= WaitersOf(s.waits, k) == {};
      }
      NobodyLeft(l, t);
    }
    forall k, x | x in WaitersOf(t.waits, k) ensures x in WaitersOf(s.waits, k) {
      assert WaitersOf(t.waits, k) <= WaitersOf(s.waits, k);
    }
  }

  lemma EvolutionKeepsSessions(l: Limits, s: Store, t: Store, step: Step)
    requires Evolves(l, s, t) && !step.DoCreate?
    requires step.DoAct? && step.key in t.table.sessions ==> Patched(t.table.sessions[step.key], step.action).None?
    ensures SessionsFollow(l, s, t, step)
  {
    hide BaseValid, Known, Patched;
  }

  lemma EvolutionIsAStep(l: Limits, s: Store, t: Store, step: Step)
    requires Valid(l, s) && Evolves(l, s, t)
    requires !step.DoCreate? && !step.DoAct? && (step.DoWait? ==> step.id in Known(s.waits))
    ensures StepFacts(l, s, t, step)
  {
    EvolutionIsValid(l, s, t);
    EvolutionKeepsSessions(l, s, t, step);
    hide Valid, Evolves, SessionsFollow;
    if step.DoWait? { assert Known(s.waits) + {step.id} == Known(s.waits); }
  }

  /** The part of the waits that every step keeps. */
  ghost predicate WaitsFollow(w: Waits, v: Waits) {
    && WaitsValid(v)
    && Known(v) == Known(w)
    && v.released == w.released
    && (forall id <- w.woken :: id in v.woken && v.woken[id] == w.woken[id])
    && (forall j :: j in v.waiters ==> j in w.waiters)
    && (forall j :: WaitersOf(v, j) <= WaitersOf(w, j))
  }

  lemma NotifyFollows(w: Waits, k: TokenHash, outcome: Option<Status>, includeSameStatus: bool)
    requires WaitsValid(w)
    ensures WaitsFollow(w, Notify(w, k, outcome, includeSameStatus))
  {
    NotifyFacts(w, k, outcome, includeSameStatus);
    hide Notify, WaitsValid, Known;
    var v := Notify(w, k, outcome, includeSameStatus);
    forall j ensures WaitersOf(v, j) <= WaitersOf(w, j) {
      if j != k { assert WaitersOf(v, j) == WaitersOf(w, j); }
    }
  }

  lemma FollowingStaysReleased(w: Waits, v: Waits)
    requires WaitsFollow(w, v) && (w.released ==> w.waiters == map[])
    ensures v.released ==> v.waiters == map[]
  {
    hide WaitsValid, Known;
    if v.released {
      forall j ensures j !in v.waiters {
        assert j in v.waiters ==> j in w.waiters;
      }
    }
  }

  lemma CreatedTable(l: Limits, s: Store, k: TokenHash, state: OAuthState, code: UserCode, now: Instant)
    requires BaseValid(l, s) && l.maxSessions > 0 && StateIsFree(s.table, k, state) && code !in s.table.byCode
    ensures var x := NewSession(l, state, code, now);
            var t := Put(s.table, l.maxSessions, k, x);
            && TableValid(t, l.maxSessions) && SessionsShaped(t.sessions) && k in t.sessions && t.sessions[k] == x
            && forall j <- t.sessions :: j != k ==> j in s.table.sessions && t.sessions[j] == s.table.sessions[j]
  {
    hide TableValid, WaitsValid, Put, Victim, StateIsFree;
    var x := NewSession(l, state, code, now);
    PutIsValid(s.table, l.maxSessions, k, x);
    PutStores(s.table, l.maxSessions, k, x);
  }

  lemma CreateFacts(l: Limits, s: Store, step: Step)
    requires Valid(l, s) && step.DoCreate? && l.maxSessions > 0
    requires StateIsFree(s.table, step.key, step.state)
    ensures StepFacts(l, s, Next(l, s, step), step)
  {
    var t := Next(l, s, step);
    hide TableValid, WaitsValid, UniqueIds, Known, Put, Notify, Victim, StateIsFree;
    if step.code !in s.table.byCode {
      CreatedTable(l, s, step.key, step.state, step.code, step.now);
      if Victim(s.table, l.maxSessions, step.key).Some? {
        NotifyFollows(s.waits, Victim(s.table, l.maxSessions, step.key).value, None, true);
        FollowingStaysReleased(s.waits, t.waits);
      }
    }
  }

  lemma OverwriteFacts(l: Limits, s: Store, k: TokenHash, x: Session)
    requires BaseValid(l, s) && k in s.table.sessions && Shaped(x)
    requires x.state == s.table.sessions[k].state && x.userCode == s.table.sessions[k].userCode
    ensures var t := Overwrite(s, k, x);
            && BaseValid(l, t) && WaitsFollow(s.waits, t.waits)
            && t.table.sessions == s.table.sessions[k := x]
  {
    PatchIsValid(s.table, l.maxSessions, k, x);
    NotifyFollows(s.waits, k, Some(x.status), false);
    hide TableValid, WaitsValid, Known, Notify;
  }

  lemma PatchedIsShaped(x: Session, a: Action)
    requires Shaped(x) && Patched(x, a).Some?
    ensures var y := Patched(x, a).value;
            Shaped(y) && y.state == x.state && y.userCode == x.userCode && y.expiresAt == x.expiresAt
  {}

  /** What the two reads of an action leave behind. */
  lemma ActLooks(l: Limits, s: Store, k: TokenHash, now: Instant, later: Instant)
    requires BaseValid(l, s)
    ensures Evolves(l, s, Look(s, k, now)) && Evolves(l, s, Look(Look(s, k, now), k, later))
    ensures k in Look(Look(s, k, now), k, later).table.sessions ==>
              && k in Look(s, k, now).table.sessions && k in s.table.sessions
              && Look(Look(s, k, now), k, later).table.sessions[k] == Look(s, k, now).table.sessions[k] == s.table.sessions[k]
  {
    LookEvolves(l, s, k, now);
    LookEvolves(l, Look(s, k, now), k, later);
    EvolvesTransitively(l, s, Look(s, k, now), Look(Look(s, k, now), k, later));
    hide Look, BaseValid, Known;
  }

  lemma LookedAtFacts(l: Limits, s: Store, seen: Store, step: Step)
    requires Valid(l, s) && Evolves(l, s, seen) && step.DoAct?
    requires step.key in seen.table.sessions ==> Patched(seen.table.sessions[step.key], step.action).None?
    ensures StepFacts(l, s, seen, step)
  {
    EvolutionIsValid(l, s, seen);
    EvolutionKeepsSessions(l, s, seen, step);
    hide Valid, Evolves, SessionsFollow, WaitsStep, Patched;
  }

  lemma OverwrittenSessions(l: Limits, s: Store, again: Store, step: Step, t: Store)
    requires Evolves(l, s, again) && step.DoAct? && step.key in again.table.sessions
    requires Patched(again.table.sessions[step.key], step.action).Some?
    requires t.table.sessions == again.table.sessions[step.key := Patched(again.table.sessions[step.key], step.action).value]
    ensures SessionsFollow(l, s, t, step)
  {
    hide BaseValid, Known, Patched;
  }

  lemma OverwrittenWaits(l: Limits, s: Store, again: Store, v: Waits)
    requires Valid(l, s) && Evolves(l, s, again) && WaitsFollow(again.waits, v)
    ensures WaitsStep(s.waits, v, {}) && (v.released ==> v.waiters == map[])
  {
    EvolutionIsValid(l, s, again);
    FollowingStaysReleased(again.waits, v);
    hide BaseValid, WaitsValid, Known, Evolves;
    forall k, x | x in WaitersOf(v, k) ensures x in WaitersOf(s.waits, k) {
      assert WaitersOf(v, k) <= WaitersOf(again.waits, k);
    }
  }

  lemma OverwrittenBase(l: Limits, again: Store, k: TokenHash, a: Action)
    requires BaseValid(l, again) && k in again.table.sessions && Patched(again.table.sessions[k], a).Some?
    ensures var t := Overwrite(again, k, Patched(again.table.sessions[k], a).value);
            && BaseValid(l, t) && WaitsFollow(again.waits, t.waits)
            && t.table.sessions == again.table.sessions[k := Patched(again.table.sessions[k], a).value]
  {
    hide TableValid, WaitsValid, Overwrite, WaitsFollow, Patched, Shaped;
    PatchedIsShaped(again.table.sessions[k], a);
    OverwriteFacts(l, again, k, Patched(again.table.sessions[k], a).value);
  }

  lemma OverwrittenFacts(l: Limits, s: Store, again: Store, step: Step)
    requires Valid(l, s) && Evolves(l, s, again) && step.DoAct? && step.key in again.table.sessions
    requires Patched(again.table.sessions[step.key], step.action).Some?
    ensures StepFacts(l, s, Overwrite(again, step.key, Patched(again.table.sessions[step.key], step.action).value), step)
  {
    hide BaseValid, Known, Overwrite, Patched, SessionsFollow, WaitsFollow, WaitsStep;
    var t := Overwrite(again, step.key, Patched(again.table.sessions[step.key], step.action).value);
    OverwrittenBase(l, again, step.key, step.action);
    OverwrittenSessions(l, s, again, step, t);
    OverwrittenWaits(l, s, again, t.waits);
    hide Evolves;
  }

  lemma ActFacts(l: Limits, s: Store, step: Step)
    requires Valid(l, s) && step.DoAct?
    ensures StepFacts(l, s, Act(s, step.key, step.action, step.now, step.later), step)
  {
    var k := step.key;
    hide BaseValid, Evolves, StepFacts, Look, Overwrite, Patched, SessionsShaped;
    ActLooks(l, s, k, step.now, step.later);
    var seen := Look(s, k, step.now);
    var again := Look(seen, k, step.later);
    if k !in seen.table.sessions || Patched(seen.table.sessions[k], step.action).None? {
      LookedAtFacts(l, s, seen, step);
    } else if k !in again.table.sessions {
      LookedAtFacts(l, s, again, step);
    } else {
      OverwrittenFacts(l, s, again, step);
    }
  }

  lemma SameWaiters(w: Waits, v: Waits)
    requires v.waiters == w.waiters
    ensures Registered(v) == Registered(w) && (UniqueIds(w) ==> UniqueIds(v))
    ensures forall k :: WaitersOf(v, k) == WaitersOf(w, k)
  {
    if UniqueIds(w) { FewerIdsAreUnique(w, v); }
  }

  lemma AnswerWaits(w: Waits, id: WaiterId, outcome: Option<Status>)
    requires WaitsValid(w) && id !in Known(w)
    ensures var v := w.(woken := w.woken[id := outcome]);
            WaitsValid(v) && Known(v) == Known(w) + {id} && forall k :: WaitersOf(v, k) == WaitersOf(w, k)
  {
    var v := w.(woken := w.woken[id := outcome]);
    SameWaiters(w, v);
    hide Registered, UniqueIds;
    assert v.woken.Keys == w.woken.Keys + {id};
  }

  lemma AnswerFacts(l: Limits, s: Store, id: WaiterId, outcome: Option<Status>)
    requires BaseValid(l, s) && id !in Known(s.waits)
    ensures var t := Answer(s, id, outcome);
            BaseValid(l, t) && Known(t.waits) == Known(s.waits) + {id}
            && forall k :: WaitersOf(t.waits, k) == WaitersOf(s.waits, k)
  {
    AnswerWaits(s.waits, id, outcome);
    hide Known, WaitsValid, TableValid, SessionsShaped;
  }

  lemma AnsweredFacts(l: Limits, s: Store, seen: Store, step: Step, outcome: Option<Status>)
    requires Valid(l, s) && Evolves(l, s, seen) && step.DoWait? && step.id !in Known(s.waits)
    ensures StepFacts(l, s, Answer(seen, step.id, outcome), step)
  {
    var t := Answer(seen, step.id, outcome);
    EvolutionIsValid(l, s, seen);
    EvolutionKeepsSessions(l, s, seen, step);
    AnswerFacts(l, seen, step.id, outcome);
    assert step.id !in seen.waits.woken;
    hide BaseValid, Evolves, Known, SessionFollows;
    SameSessionsFollow(l, s, seen, t, step);
    hide SessionsFollow;
  }

  lemma SameSessionsFollow(l: Limits, s: Store, t: Store, u: Store, step: Step)
    requires SessionsFollow(l, s, t, step) && u.table == t.table
    ensures SessionsFollow(l, s, u, step)
  {
    forall k | k in u.table.sessions ensures SessionFollows(l, s, u, step, k) {
      assert SessionFollows(l, s, t, step, k);
    }
  }

  lemma RegisteredBase(l: Limits, seen: Store, k: TokenHash, x: Waiter)
    requires BaseValid(l, seen) && x.id !in Known(seen.waits)
    ensures BaseValid(l, seen.(waits := AddWaiter(seen.waits, k, x)))
    ensures Known(AddWaiter(seen.waits, k, x)) == Known(seen.waits) + {x.id}
  {
    AddFacts(seen.waits, k, x);
    hide Known, WaitsValid, TableValid, SessionsShaped;
  }

  lemma RegisteredFacts(l: Limits, s: Store, seen: Store, step: Step, x: Waiter)
    requires Valid(l, s) && Evolves(l, s, seen) && step.DoWait? && step.id !in Known(s.waits) && x.id == step.id
    requires !seen.waits.released
    ensures StepFacts(l, s, seen.(waits := AddWaiter(seen.waits, step.key, x)), step)
  {
    hide BaseValid, Known, SessionFollows;
    var t := seen.(waits := AddWaiter(seen.waits, step.key, x));
    EvolutionIsValid(l, s, seen);
    EvolutionKeepsSessions(l, s, seen, step);
    RegisteredBase(l, seen, step.key, x);
    SameSessionsFollow(l, s, seen, t, step);
    hide Evolves, SessionsFollow;
  }

  lemma ThenEvolvedFacts(l: Limits, s: Store, t: Store, u: Store, step: Step)
    requires StepFacts(l, s, t, step) && Evolves(l, t, u) && step.DoWait?
    ensures StepFacts(l, s, u, step)
  {
    EvolutionIsValid(l, t, u);
    assert SessionsFollow(l, s, u, step) by { StillFollow(l, s, t, u, step); }
    hide Valid, Evolves, SessionsFollow;
    assert WaitsStep(s.waits, u.waits, NewWaiter(step)) by { hide Known; }
  }

  lemma StillFollow(l: Limits, s: Store, t: Store, u: Store, step: Step)
    requires SessionsFollow(l, s, t, step) && Evolves(l, t, u) && step.DoWait?
    ensures SessionsFollow(l, s, u, step)
  {
    hide BaseValid, Known;
    forall k | k in u.table.sessions ensures SessionFollows(l, s, u, step, k) {
      assert SessionFollows(l, s, t, step, k);
    }
  }

  lemma WaitFacts(l: Limits, s: Store, step: Step)
    requires Valid(l, s) && step.DoWait?
    ensures StepFacts(l, s, Next(l, s, step), step)
  {
    var k, id := step.key, step.id;
    TableEvolves(l, s, s.table);
    LookEvolves(l, s, k, step.now);
    hide BaseValid, Evolves, StepFacts, Look, AddWaiter, Answer;
    if id in Known(s.waits) {
      EvolutionIsAStep(l, s, s, step);
    } else {
      var seen := Look(s, k, step.now);
      if k !in seen.table.sessions || step.mode == Aborted {
        AnsweredFacts(l, s, seen, step, None);
      } else if seen.waits.released {
        AnsweredFacts(l, s, seen, step, Some(Shutdown));
      } else if step.mode == NoBudget {
        AnsweredFacts(l, s, seen, step, Some(seen.table.sessions[k].status));
      } else {
        var waiter := Waiter(id, seen.table.sessions[k].status);
        var added := seen.(waits := AddWaiter(seen.waits, k, waiter));
        RegisteredFacts(l, s, seen, step, waiter);
        assert BaseValid(l, added) by { FactsGiveBase(l, s, added, step); }
        LookEvolves(l, added, k, step.later);
        ThenEvolvedFacts(l, s, added, Look(added, k, step.later), step);
      }
    }
  }

  lemma FactsGiveBase(l: Limits, s: Store, t: Store, step: Step)
    requires StepFacts(l, s, t, step)
    ensures BaseValid(l, t)
  {
    hide BaseValid;
  }

  lemma AbortEvolves(l: Limits, s: Store, k: TokenHash, x: Waiter)
    requires BaseValid(l, s)
    ensures Evolves(l, s, Abort(s, k, x))
    ensures x in WaitersOf(s.waits, k) ==> Abort(s, k, x).waits.woken[x.id] == None
  {
    TableEvolves(l, s, s.table);
    if x in WaitersOf(s.waits, k) {
      SettleFacts(s.waits, k, {x}, None);
      hide Settle, Evolves, BaseValid;
      SettlingEvolves(l, s, Abort(s, k, x), k, {x}, None);
    }
  }

  /** Leaving the set of registered waiters and being answered in the same stretch. */
  lemma LeaveFacts(w: Waits, k: TokenHash, x: Waiter)
    requires WaitsValid(w) && x in WaitersOf(w, k)
    ensures var v := Keeping(w, k, WaitersOf(w, k) - {x});
            && WaitsValid(v) && v.released == w.released && v.woken == w.woken
            && Known(v) + {x.id} == Known(w) && x.id !in Known(v)
            && forall j :: WaitersOf(v, j) <= WaitersOf(w, j)
  {
    KeepingIsValid(w, k, {x});
    KeptAreRegistered(w, k, {x});
    IsRegistered(w, k, x);
    hide Registered, UniqueIds;
    assert Ids({x}) == {x.id};
  }

  lemma LookThenAnswer(l: Limits, s: Store, k: TokenHash, x: Waiter, now: Instant, outcome: Option<Status>)
    requires BaseValid(l, s) && x in WaitersOf(s.waits, k)
    ensures var alone := s.(waits := Keeping(s.waits, k, WaitersOf(s.waits, k) - {x}));
            Evolves(l, s, Answer(Look(alone, k, now), x.id, outcome))
  {
    LeaveFacts(s.waits, k, x);
    NotYetWoken(s.waits, k, x);
    var alone := s.(waits := Keeping(s.waits, k, WaitersOf(s.waits, k) - {x}));
    hide WaitsValid, TableValid, SessionsShaped, Known, Keeping, Look;
    LookEvolves(l, alone, k, now);
    AnsweredEvolves(l, s, alone, Look(alone, k, now), x.id, outcome);
  }

  lemma AnsweredEvolves(l: Limits, s: Store, alone: Store, seen: Store, id: WaiterId, outcome: Option<Status>)
    requires BaseValid(l, s) && Evolves(l, alone, seen) && alone.table == s.table
    requires alone.waits.released == s.waits.released && alone.waits.woken == s.waits.woken && id !in s.waits.woken
    requires Known(alone.waits) + {id} == Known(s.waits) && id !in Known(alone.waits)
    requires forall j :: WaitersOf(alone.waits, j) <= WaitersOf(s.waits, j)
    ensures Evolves(l, s, Answer(seen, id, outcome))
  {
    hide BaseValid, Known;
    AnswerFacts(l, seen, id, outcome);
    var t := Answer(seen, id, outcome);
    forall j ensures WaitersOf(t.waits, j) <= WaitersOf(s.waits, j) {
      assert WaitersOf(t.waits, j) == WaitersOf(seen.waits, j) <= WaitersOf(alone.waits, j);
    }
  }

  lemma NotYetWoken(w: Waits, k: TokenHash, x: Waiter)
    requires WaitsValid(w) && x in WaitersOf(w, k)
    ensures x.id !in w.woken
  {
    IsRegistered(w, k, x);
  }

  lemma TimerEvolves(l: Limits, s: Store, k: TokenHash, x: Waiter, now: Instant, later: Instant)
    requires BaseValid(l, s)
    ensures Evolves(l, s, TimerFires(s, k, x, now, later))
  {
    TableEvolves(l, s, s.table);
    hide Evolves, Look, Keeping, BaseValid;
    if x in WaitersOf(s.waits, k) {
      var alone := s.(waits := Keeping(s.waits, k, WaitersOf(s.waits, k) - {x}));
      var seen := Look(alone, k, later);
      LookThenAnswer(l, s, k, x, now, Some(Expired));
      LookThenAnswer(l, s, k, x, later, if k in seen.table.sessions then Some(seen.table.sessions[k].status) else None);
    }
  }

  predicate CanRelease(s: Store, order: seq<TokenHash>) {
    !s.waits.released && (set k | k in order) == s.waits.waiters.Keys
  }

  lemma ClosingIsValid(l: Limits, s: Store)
    requires BaseValid(l, s)
    ensures BaseValid(l, s.(waits := s.waits.(released := true)))
    ensures Known(s.waits.(released := true)) == Known(s.waits)
  {
    SameWaiters(s.waits, s.waits.(released := true));
    hide Registered, UniqueIds, TableValid, SessionsShaped;
  }

  lemma ReleaseEmpties(l: Limits, s: Store, order: seq<TokenHash>, now: Instant)
    requires BaseValid(l, s) && CanRelease(s, order)
    ensures Evolves(l, s.(waits := s.waits.(released := true)), Release(s, order, now))
    ensures Release(s, order, now).waits.waiters == map[] && Release(s, order, now).waits.released
  {
    var closing, t := s.(waits := s.waits.(released := true)), Release(s, order, now);
    ClosingIsValid(l, s);
    hide BaseValid, Known, ReleaseEach;
    ReleaseEvolves(l, closing, order, now);
    forall k ensures WaitersOf(t.waits, k) == {} {
      if k in s.waits.waiters {
        assert k in order;
      } else {
        assert WaitersOf(t.waits, k) <= WaitersOf(closing.waits, k) == {};
      }
    }
    NobodyLeft(l, t);
  }

  lemma StandsStill(l: Limits, s: Store)
    requires BaseValid(l, s)
    ensures Evolves(l, s, s)
  {
    TableEvolves(l, s, s.table);
  }

  lemma ReleaseFacts(l: Limits, s: Store, step: Step)
    requires Valid(l, s) && step.DoRelease?
    ensures StepFacts(l, s, Next(l, s, step), step)
  {
    hide BaseValid, Known, ReleaseEach;
    var t := Next(l, s, step);
    if CanRelease(s, step.order) {
      ClosingIsValid(l, s);
      ReleaseEmpties(l, s, step.order, step.now);
    } else {
      StandsStill(l, s);
      EvolutionIsAStep(l, s, s, step);
    }
  }

  /** Two live sessions never share an OAuth state: what callers must supply. */
  ghost predicate StatesSupplied(s: Store, step: Step) {
    step.DoCreate? ==> StateIsFree(s.table, step.key, step.state)
  }

  lemma EvolvingStep(l: Limits, s: Store, step: Step)
    requires Valid(l, s) && (step.DoRead? || step.DoConsume? || step.DoAbort? || step.DoTimer? || step.DoSweep?)
    ensures Evolves(l, s, Next(l, s, step))
  {
    hide BaseValid, Evolves, Look, Consume, Abort, TimerFires, SweepEach;
    match step
    case DoRead(k, now) => LookEvolves(l, s, k, now);
    case DoConsume(k, now) => ConsumeEvolves(l, s, k, now);
    case DoAbort(k, x) => AbortEvolves(l, s, k, x);
    case DoTimer(k, x, now, later) => TimerEvolves(l, s, k, x, now, later);
    case DoSweep(now) => SweepEvolves(l, s, s.table.recency, now);
  }

  lemma StepIsFactual(l: Limits, s: Store, step: Step)
    requires Valid(l, s) && l.maxSessions > 0 && StatesSupplied(s, step)
    ensures StepFacts(l, s, Next(l, s, step), step)
  {
    hide Valid, Evolves, StepFacts, Create, Act, Wait, Release;
    match step
    case DoCreate(_, _, _, _) => CreateFacts(l, s, step);
    case DoAct(_, _, _, _) => ActFacts(l, s, step);
    case DoWait(_, _, _, _, _) => WaitFacts(l, s, step);
    case DoRelease(_, _) => ReleaseFacts(l, s, step);
    case _ =>
      EvolvingStep(l, s, step);
      EvolutionIsAStep(l, s, Next(l, s, step), step);
  }

}
