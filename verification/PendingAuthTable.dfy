/**
 * The bounded table of pending sign-in sessions: an LRU cache of sessions by token hash, with one
 * reverse index by OAuth state and one by user code.
 */
module PendingAuthTable {
  import opened Prelude

  type TokenHash = nat
  type OAuthState = nat
  type UserCode = string
  type Instant = int

  datatype Completion = Completion(tokens: nat, user: nat, accountStatus: nat)

  datatype Status = Pending | AwaitingConfirmation | Complete | Consumed | Denied | Expired | Error | Shutdown

  datatype Session = Session(
    state: OAuthState,
    userCode: UserCode,
    status: Status,
    expiresAt: Instant,
    staged: Option<Completion>,
    completion: Option<Completion>,
    errorMessage: Option<string>)

  /** `recency` lists the live keys, least recently used first. */
  datatype Table = Table(
    sessions: map<TokenHash, Session>,
    recency: seq<TokenHash>,
    byState: map<OAuthState, TokenHash>,
    byCode: map<UserCode, TokenHash>)

  const NO_SESSIONS := Table(map[], [], map[], map[])

  function Without(keys: seq<TokenHash>, k: TokenHash): seq<TokenHash> {
    if keys == [] then []
    else if keys[0] == k then Without(keys[1..], k)
    else [keys[0]] + Without(keys[1..], k)
  }

  function Touch(t: Table, k: TokenHash): Table {
    if k in t.sessions then t.(recency := Without(t.recency, k) + [k]) else t
  }

  /** Removing an entry disposes of it: both index entries of its session go with it. */
  function Drop(t: Table, k: TokenHash): Table {
    if k !in t.sessions then t
    else Table(t.sessions - {k}, Without(t.recency, k), t.byState - {t.sessions[k].state}, t.byCode - {t.sessions[k].userCode})
  }

  /** The entry the cache would evict to make room for a new key. */
  function Victim(t: Table, max: nat, k: TokenHash): Option<TokenHash> {
    if k !in t.sessions && |t.sessions| >= max && t.recency != [] then Some(t.recency[0]) else None
  }

  /** The index writes come first; then the cache evicts, whose disposal may delete index entries, and stores. */
  function Put(t: Table, max: nat, k: TokenHash, x: Session): Table {
    var states := if k in t.sessions && t.sessions[k].state != x.state then t.byState - {t.sessions[k].state} else t.byState;
    var codes := if k in t.sessions && t.sessions[k].userCode != x.userCode then t.byCode - {t.sessions[k].userCode} else t.byCode;
    var indexed := t.(byState := states[x.state := k], byCode := codes[x.userCode := k]);
    var victim := Victim(t, max, k);
    var roomy := if victim.Some? then Drop(indexed, victim.value) else indexed;
    roomy.(sessions := roomy.sessions[k := x], recency := Without(roomy.recency, k) + [k])
  }

  // ----- what the table keeps -----

  /** Two finite maps that are exact inverses of each other. */
  ghost predicate Inverse<K, V>(f: map<K, V>, g: map<V, K>) {
    && (forall k <- f :: f[k] in g && g[f[k]] == k)
    && (forall v <- g :: g[v] in f && f[g[v]] == v)
  }

  ghost function States(sessions: map<TokenHash, Session>): map<TokenHash, OAuthState> {
    map k | k in sessions :: sessions[k].state
  }

  ghost function Codes(sessions: map<TokenHash, Session>): map<TokenHash, UserCode> {
    map k | k in sessions :: sessions[k].userCode
  }

  ghost predicate Lists(recency: seq<TokenHash>, keys: set<TokenHash>) {
    && (forall i, j :: 0 <= i < j < |recency| ==> recency[i] != recency[j])
    && (forall k :: k in recency <==> k in keys)
  }

  ghost predicate TableValid(t: Table, max: nat) {
    && Inverse(States(t.sessions), t.byState)
    && Inverse(Codes(t.sessions), t.byCode)
    && Lists(t.recency, t.sessions.Keys)
    && |t.sessions| <= max
  }

  lemma {:induction false} WithoutLists(recency: seq<TokenHash>, keys: set<TokenHash>, k: TokenHash)
    requires Lists(recency, keys)
    ensures Lists(Without(recency, k), keys - {k})
    ensures Lists(Without(recency, k) + [k], keys + {k})
  {
    if recency != [] {
      var rest := recency[1..];
      assert forall x :: x in recency <==> x == recency[0] || x in rest;
      WithoutLists(rest, keys - {recency[0]}, k);
      if recency[0] == k {
        assert Without(recency, k) == Without(rest, k);
        assert keys - {k} - {k} == keys - {k};
      } else {
        assert Without(recency, k) == [recency[0]] + Without(rest, k);
        assert recency[0] !in Without(rest, k);
      }
    }
  }

  lemma DropIsInverse<K, V>(f: map<K, V>, g: map<V, K>, k: K)
    requires Inverse(f, g) && k in f
    ensures Inverse(f - {k}, g - {f[k]})
  {}

  lemma PutIsInverse<K, V>(f: map<K, V>, g: map<V, K>, k: K, v: V)
    requires Inverse(f, g) && k !in f && v !in g
    ensures Inverse(f[k := v], g[v := k])
  {}

  lemma TouchIsValid(t: Table, max: nat, k: TokenHash)
    requires TableValid(t, max)
    ensures TableValid(Touch(t, k), max)
  {
    if k in t.sessions {
      WithoutLists(t.recency, t.sessions.Keys, k);
      assert t.sessions.Keys + {k} == t.sessions.Keys;
    }
  }

  lemma IndexesAfterDrop(sessions: map<TokenHash, Session>, k: TokenHash)
    requires k in sessions
    ensures States(sessions - {k}) == States(sessions) - {k} && k in States(sessions) && States(sessions)[k] == sessions[k].state
    ensures Codes(sessions - {k}) == Codes(sessions) - {k} && k in Codes(sessions) && Codes(sessions)[k] == sessions[k].userCode
  {}

  lemma DropIsValid(t: Table, max: nat, k: TokenHash)
    requires TableValid(t, max)
    ensures TableValid(Drop(t, k), max)
    ensures k in t.sessions ==> |Drop(t, k).sessions| < max
  {
    hide Inverse, Lists, Without;
    if k in t.sessions {
      WithoutLists(t.recency, t.sessions.Keys, k);
      IndexesAfterDrop(t.sessions, k);
      DropIsInverse(States(t.sessions), t.byState, k);
      DropIsInverse(Codes(t.sessions), t.byCode, k);
      SizeAfterDrop(t.sessions, k);
      hide States, Codes;
    }
  }

  /** Replacing a session in place keeps the table as long as the indexed fields stay. */
  lemma PatchIsValid(t: Table, max: nat, k: TokenHash, x: Session)
    requires TableValid(t, max) && k in t.sessions
    requires x.state == t.sessions[k].state && x.userCode == t.sessions[k].userCode
    ensures TableValid(t.(sessions := t.sessions[k := x]), max)
  {
    hide Inverse, Lists;
    assert t.sessions[k := x].Keys == t.sessions.Keys;
    assert States(t.sessions[k := x]) == States(t.sessions);
    assert Codes(t.sessions[k := x]) == Codes(t.sessions);
    assert |t.sessions[k := x].Keys| == |t.sessions.Keys|;
  }

  /** No other live session uses this state. */
  ghost predicate StateIsFree(t: Table, k: TokenHash, state: OAuthState) {
    forall other <- t.sessions :: other != k ==> t.sessions[other].state != state
  }

  /** What the cache itself guarantees, whatever its callers store. */
  ghost predicate CacheExact(t: Table, max: nat) {
    Lists(t.recency, t.sessions.Keys) && |t.sessions| <= max
  }

  lemma VictimIsLive(t: Table, max: nat, k: TokenHash)
    requires CacheExact(t, max) && max > 0
    ensures Victim(t, max, k).Some? <==> k !in t.sessions && |t.sessions| == max
    ensures Victim(t, max, k).Some? ==> Victim(t, max, k).value in t.sessions && Victim(t, max, k).value != k
  {
    if t.recency == [] {
      forall x ensures x !in t.sessions {
        assert x !in t.recency;
      }
      assert t.sessions == map[];
    }
  }

  // ----- recency -----

  /** `a` was used less recently than `b`. */
  ghost predicate Before(recency: seq<TokenHash>, a: TokenHash, b: TokenHash) {
    exists i, j :: 0 <= i < j < |recency| && recency[i] == a && recency[j] == b
  }

  lemma BeforeInTail(keys: seq<TokenHash>, a: TokenHash, b: TokenHash)
    requires keys != []
    ensures Before(keys, a, b) <==> (keys[0] == a && b in keys[1..]) || Before(keys[1..], a, b)
  {
    var rest := keys[1..];
    if Before(keys, a, b) {
      var i, j :| 0 <= i < j < |keys| && keys[i] == a && keys[j] == b;
      assert rest[j - 1] == b;
      if i > 0 { assert rest[i - 1] == a; }
    }
    if keys[0] == a && b in rest {
      var j :| 0 <= j < |rest| && rest[j] == b;
      assert keys[0] == a && keys[j + 1] == b;
    }
    if Before(rest, a, b) {
      var i, j :| 0 <= i < j < |rest| && rest[i] == a && rest[j] == b;
      assert keys[i + 1] == a && keys[j + 1] == b;
    }
  }

  lemma {:induction false} WithoutKeepsOrder(keys: seq<TokenHash>, k: TokenHash, a: TokenHash, b: TokenHash)
    ensures a in Without(keys, k) <==> a in keys && a != k
    ensures Before(Without(keys, k), a, b) <==> a != k && b != k && Before(keys, a, b)
  {
    if keys != [] {
      var rest, kept := keys[1..], Without(keys, k);
      WithoutKeepsOrder(rest, k, a, b);
      WithoutKeepsOrder(rest, k, b, a);
      BeforeInTail(keys, a, b);
      assert a in keys <==> a == keys[0] || a in rest;
      hide Before;
      if keys[0] != k {
        assert kept[1..] == Without(rest, k);
        BeforeInTail(kept, a, b);
        assert a in kept <==> a == kept[0] || a in kept[1..];
      }
    }
  }

  lemma OnlyLastAdded(keys: seq<TokenHash>, k: TokenHash, a: TokenHash, b: TokenHash)
    requires k !in keys
    ensures Before(keys + [k], a, b) <==> Before(keys, a, b) || (b == k && a in keys)
  {
    var longer := keys + [k];
    if Before(longer, a, b) {
      var i, j :| 0 <= i < j < |longer| && longer[i] == a && longer[j] == b;
      if j < |keys| { assert keys[i] == a && keys[j] == b; } else { assert keys[i] == a; }
    }
    if Before(keys, a, b) {
      var i, j :| 0 <= i < j < |keys| && keys[i] == a && keys[j] == b;
      assert longer[i] == a && longer[j] == b;
    }
    if b == k && a in keys {
      var i :| 0 <= i < |keys| && keys[i] == a;
      assert longer[i] == a && longer[|keys|] == k;
    }
  }

  lemma MovedToTheEnd(keys: seq<TokenHash>, k: TokenHash, a: TokenHash, b: TokenHash)
    ensures Before(Without(keys, k) + [k], a, b) <==> a != k && a in keys && (b == k || Before(keys, a, b))
  {
    WithoutKeepsOrder(keys, k, a, b);
    WithoutKeepsOrder(keys, k, k, k);
    OnlyLastAdded(Without(keys, k), k, a, b);
    if Before(keys, a, b) { BothListed(keys, a, b); }
    hide Before, Without;
  }

  lemma BothListed(keys: seq<TokenHash>, a: TokenHash, b: TokenHash)
    requires Before(keys, a, b)
    ensures a in keys && b in keys
  {}

  /** A read makes its entry the most recently used one, leaves the order of the others, and changes nothing else. */
  lemma TouchIsMostRecent(t: Table, max: nat, k: TokenHash, a: TokenHash, b: TokenHash)
    requires TableValid(t, max) && k in t.sessions
    ensures Touch(t, k) == t.(recency := Touch(t, k).recency)
    ensures a in t.sessions && a != k ==> Before(Touch(t, k).recency, a, k)
    ensures a != k && b != k ==> (Before(Touch(t, k).recency, a, b) <==> Before(t.recency, a, b))
  {
    MovedToTheEnd(t.recency, k, a, k);
    MovedToTheEnd(t.recency, k, a, b);
    if Before(t.recency, a, b) { BothListed(t.recency, a, b); }
    hide Before, Without;
  }

  /** A full table evicts exactly for a new key, and then the entry that was used least recently. */
  lemma EvictsLeastRecent(t: Table, max: nat, k: TokenHash, a: TokenHash)
    requires TableValid(t, max) && max > 0
    ensures Victim(t, max, k).Some? <==> k !in t.sessions && |t.sessions| == max
    ensures Victim(t, max, k).Some? && a in t.sessions && a != Victim(t, max, k).value ==> Before(t.recency, Victim(t, max, k).value, a)
  {
    VictimIsLive(t, max, k);
    if Victim(t, max, k).Some? && a in t.sessions && a != Victim(t, max, k).value {
      assert a in t.recency;
      var j :| 0 <= j < |t.recency| && t.recency[j] == a;
      assert 0 < j;
    }
  }

  /** A stored entry is the most recently used one; the others keep their order. */
  lemma PutIsMostRecent(t: Table, max: nat, k: TokenHash, x: Session, a: TokenHash, b: TokenHash)
    requires TableValid(t, max) && max > 0
    ensures var put := Put(t, max, k, x);
            && (a in put.sessions && a != k ==> Before(put.recency, a, k))
            && (a in put.sessions && b in put.sessions && a != k && b != k ==> (Before(put.recency, a, b) <==> Before(t.recency, a, b)))
  {
    VictimIsLive(t, max, k);
    PutStores(t, max, k, x);
    var put := Put(t, max, k, x);
    var roomy := if Victim(t, max, k).Some? then Without(t.recency, Victim(t, max, k).value) else t.recency;
    assert put.recency == Without(roomy, k) + [k];
    if Victim(t, max, k).Some? {
      WithoutKeepsOrder(t.recency, Victim(t, max, k).value, a, b);
    }
    MovedToTheEnd(roomy, k, a, k);
    MovedToTheEnd(roomy, k, a, b);
    assert a in t.sessions ==> a in t.recency;
    if Before(t.recency, a, b) { BothListed(t.recency, a, b); }
    hide Before, Without, Put, Victim;
  }

  /** A new entry where there is room, with index keys nobody uses. */
  function Store(t: Table, k: TokenHash, x: Session): Table {
    Table(t.sessions[k := x], Without(t.recency, k) + [k], t.byState[x.state := k], t.byCode[x.userCode := k])
  }

  lemma StatesAfterPut(sessions: map<TokenHash, Session>, k: TokenHash, x: Session)
    ensures States(sessions[k := x]) == States(sessions)[k := x.state]
  {}

  lemma CodesAfterPut(sessions: map<TokenHash, Session>, k: TokenHash, x: Session)
    ensures Codes(sessions[k := x]) == Codes(sessions)[k := x.userCode]
  {}

  lemma StoreIsValid(t: Table, max: nat, k: TokenHash, x: Session)
    requires TableValid(t, max) && k !in t.sessions && |t.sessions| < max
    requires x.state !in t.byState && x.userCode !in t.byCode
    ensures TableValid(Store(t, k, x), max)
  {
    hide Inverse, Lists;
    WithoutLists(t.recency, t.sessions.Keys, k);
    PutIsInverse(States(t.sessions), t.byState, k, x.state);
    PutIsInverse(Codes(t.sessions), t.byCode, k, x.userCode);
    StatesAfterPut(t.sessions, k, x);
    CodesAfterPut(t.sessions, k, x);
    SizeAfterPut(t.sessions, k, x);
  }

  /**
   * Creating or replacing a session, with a user code nobody uses, keeps the whole table in step exactly
   * when no other live session uses its OAuth state; even an entry evicted to make room would take the
   * new index entry with it.
   */
  lemma PutIsValid(t: Table, max: nat, k: TokenHash, x: Session)
    requires TableValid(t, max) && max > 0 && x.userCode !in t.byCode
    ensures TableValid(Put(t, max, k, x), max) <==> StateIsFree(t, k, x.state)
  {
    if StateIsFree(t, k, x.state) {
      PutOnFreeState(t, max, k, x);
    } else {
      PutOnTakenState(t, max, k, x);
    }
  }

  /** Besides the stored entry, a put changes the sessions only by the eviction of the least recently used one. */
  lemma PutStores(t: Table, max: nat, k: TokenHash, x: Session)
    requires TableValid(t, max) && max > 0
    ensures var put, victim := Put(t, max, k, x), Victim(t, max, k);
            && put.sessions == (if victim.Some? then t.sessions - {victim.value} else t.sessions)[k := x]
            && |put.sessions| <= max
  {
    VictimIsLive(t, max, k);
    assert |t.sessions| <= max;
    hide TableValid, Without;
    var victim := Victim(t, max, k);
    if victim.Some? {
      SizeAfterDrop(t.sessions, victim.value);
      SizeAfterPut(t.sessions - {victim.value}, k, x);
    } else {
      SizeAfterPut(t.sessions, k, x);
    }
  }

  lemma FreeStateIsNotIndexed(t: Table, max: nat, k: TokenHash, state: OAuthState)
    requires TableValid(t, max) && StateIsFree(t, k, state)
    ensures k !in t.sessions || t.sessions[k].state != state ==> state !in t.byState
    ensures state !in Drop(t, k).byState
  {
    if state in t.byState {
      var owner := t.byState[state];
      assert owner in States(t.sessions) && States(t.sessions)[owner] == state;
    }
  }

  lemma PutOnFreeState(t: Table, max: nat, k: TokenHash, x: Session)
    requires TableValid(t, max) && max > 0 && x.userCode !in t.byCode && StateIsFree(t, k, x.state)
    ensures TableValid(Put(t, max, k, x), max)
  {
    VictimIsLive(t, max, k);
    FreeStateIsNotIndexed(t, max, k, x.state);
    if Victim(t, max, k).Some? {
      EvictingPut(t, max, k, x, Victim(t, max, k).value);
    } else if k in t.sessions {
      ReplacingPut(t, max, k, x);
    } else {
      StoreIsValid(t, max, k, x);
    }
  }

  lemma EvictingPut(t: Table, max: nat, k: TokenHash, x: Session, v: TokenHash)
    requires TableValid(t, max) && max > 0 && Victim(t, max, k) == Some(v) && v in t.sessions && v != k
    requires x.userCode !in t.byCode && x.state !in t.byState
    ensures TableValid(Put(t, max, k, x), max)
  {
    DropIsValid(t, max, v);
    StoreIsValid(Drop(t, v), max, k, x);
    IndexedByKey(t, max, v);
    hide TableValid;
    PutThenDrop(t.byState, x.state, k, t.sessions[v].state);
    PutThenDrop(t.byCode, x.userCode, k, t.sessions[v].userCode);
    assert Put(t, max, k, x) == Store(Drop(t, v), k, x);
  }

  lemma IndexedByKey(t: Table, max: nat, k: TokenHash)
    requires TableValid(t, max) && k in t.sessions
    ensures t.sessions[k].state in t.byState && t.byState[t.sessions[k].state] == k
    ensures t.sessions[k].userCode in t.byCode && t.byCode[t.sessions[k].userCode] == k
  {
    assert k in States(t.sessions) && k in Codes(t.sessions);
  }

  lemma {:induction false} WithoutTwice(keys: seq<TokenHash>, k: TokenHash)
    ensures Without(Without(keys, k), k) == Without(keys, k)
  {
    if keys != [] {
      WithoutTwice(keys[1..], k);
      if keys[0] != k {
        assert Without(keys, k)[1..] == Without(keys[1..], k);
      }
    }
  }

  lemma ReplacingPut(t: Table, max: nat, k: TokenHash, x: Session)
    requires TableValid(t, max) && max > 0 && k in t.sessions
    requires x.userCode !in t.byCode && x.state !in Drop(t, k).byState
    ensures TableValid(Put(t, max, k, x), max)
  {
    hide TableValid, Without;
    DropIsValid(t, max, k);
    var bare := Drop(t, k);
    assert x.userCode !in bare.byCode;
    StoreIsValid(bare, max, k, x);
    IndexedByKey(t, max, k);
    WithoutTwice(t.recency, k);
    DropThenPut(t.sessions, k, x);
    DropThenPut(t.byState, x.state, k);
    assert Put(t, max, k, x) == Store(bare, k, x);
  }

  lemma PutOnTakenState(t: Table, max: nat, k: TokenHash, x: Session)
    requires TableValid(t, max) && max > 0 && x.userCode !in t.byCode && !StateIsFree(t, k, x.state)
    ensures !Inverse(States(Put(t, max, k, x).sessions), Put(t, max, k, x).byState)
  {
    var other :| other in t.sessions && other != k && t.sessions[other].state == x.state;
    var put := Put(t, max, k, x);
    PutStores(t, max, k, x);
    assert k in States(put.sessions) && States(put.sessions)[k] == x.state;
    if Victim(t, max, k) == Some(other) {
      assert x.state !in put.byState;
    } else {
      assert other in States(put.sessions) && States(put.sessions)[other] == x.state;
    }
  }
}
