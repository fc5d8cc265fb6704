/**
 * The cap on a user's active bridges. A registration counts, inserts, then re-reads and revokes its own
 * bridge when that ranks past the cap; any number of registrations interleave. The cap is a parameter of
 * the lemmas, so they hold for the program's fifty.
 */
module RegistrationCap {
  import opened Prelude

  type CallId = nat

  const MAX_ACTIVE_BRIDGES_PER_USER := 50

  datatype Bridge = Bridge(addedAt: int, id: nat)

  /** The order in which bridges are ranked: by time of addition, then by id. */
  predicate Below(a: Bridge, b: Bridge) {
    a.addedAt < b.addedAt || (a.addedAt == b.addedAt && a.id < b.id)
  }

  function Lower(b: Bridge, bridges: set<Bridge>): set<Bridge> {
    set c | c in bridges && Below(c, b)
  }

  function Rank(b: Bridge, bridges: set<Bridge>): nat {
    |Lower(b, bridges)|
  }

  /** The first `cap` bridges by rank. */
  ghost function First(cap: nat, bridges: set<Bridge>): set<Bridge> {
    set b | b in bridges && Rank(b, bridges) < cap
  }

  predicate DistinctIds(bridges: set<Bridge>) {
    forall a <- bridges, b <- bridges :: a.id == b.id ==> a == b
  }

  // ----- ranking -----

  lemma RankGrows(b: Bridge, s: set<Bridge>, t: set<Bridge>)
    requires s <= t
    ensures Rank(b, s) <= Rank(b, t)
  {
    SmallerSet(Lower(b, s), Lower(b, t));
  }

  lemma RankFollowsOrder(a: Bridge, b: Bridge, s: set<Bridge>)
    requires Below(a, b) && a in s
    ensures Rank(a, s) < Rank(b, s)
  {
    SmallerSet(Lower(a, s) + {a}, Lower(b, s));
    assert a !in Lower(a, s);
  }

  lemma RankBelowUnchanged(b: Bridge, s: set<Bridge>, c: Bridge)
    requires !Below(c, b)
    ensures Rank(b, s + {c}) == Rank(b, s)
  {
    assert Lower(b, s + {c}) == Lower(b, s);
  }

  lemma RankRisesByOne(b: Bridge, s: set<Bridge>, c: Bridge)
    requires Below(c, b) && c !in s
    ensures Rank(b, s + {c}) == Rank(b, s) + 1
  {
    assert Lower(b, s + {c}) == Lower(b, s) + {c};
  }

  lemma {:induction false} Highest(s: set<Bridge>) returns (m: Bridge)
    requires s != {} && DistinctIds(s)
    ensures m in s && forall b <- s :: b == m || Below(b, m)
    decreases |s|
  {
    var some :| some in s;
    m := some;
    if s - {some} != {} {
      var n := Highest(s - {some});
      if Below(some, n) { m := n; }
    }
    forall b | b in s ensures b == m || Below(b, m) {
      assert b == some || b in s - {some};
    }
  }

  /** Exactly min(cap, n) of n bridges are among the first `cap`. */
  lemma {:induction false} FirstSize(cap: nat, s: set<Bridge>)
    requires DistinctIds(s)
    ensures |First(cap, s)| == Min(cap, |s|)
    decreases |s|
  {
    if s == {} {
      assert First(cap, s) == {};
    } else {
      var m := Highest(s);
      var rest := s - {m};
      FirstSize(cap, rest);
      assert s == rest + {m};
      assert Lower(m, s) == rest && |s| == |rest| + 1;
      forall b | b in rest ensures Rank(b, s) == Rank(b, rest) { RankBelowUnchanged(b, rest, m); }
      if |rest| < cap {
        assert First(cap, s) == First(cap, rest) + {m} && m !in First(cap, rest);
      } else {
        assert First(cap, s) == First(cap, rest);
      }
    }
  }

  /** With the first `cap` present, a subset ranks a bridge past the cap exactly when the whole set does. */
  lemma RankPastCapAgrees(cap: nat, b: Bridge, all: set<Bridge>, some: set<Bridge>)
    requires DistinctIds(all) && b in all && First(cap, all) <= some <= all
    ensures Rank(b, some) >= cap <==> Rank(b, all) >= cap
  {
    RankGrows(b, some, all);
    if Rank(b, all) >= cap {
      FirstSize(cap, all);
      SmallerSet(Lower(b, all), all);
      forall c | c in First(cap, all) ensures c in Lower(b, some) {
        if !Below(c, b) && c != b { RankFollowsOrder(b, c, all); }
      }
      SmallerSet(First(cap, all), Lower(b, some));
    }
  }

  // ----- registrations -----

  datatype Registration =
    | Counting
    | Admitted
    | Inserted(bridge: Bridge)
    | Overflowing(bridge: Bridge)
    | Kept(bridge: Bridge)
    | SelfRevoked(bridge: Bridge)
    | Refused

  /** `inserted` are all bridges ever stored, `active` those not revoked. */
  datatype Bridges = Bridges(active: set<Bridge>, inserted: set<Bridge>, calls: map<CallId, Registration>)

  datatype Step =
    | Begin(call: CallId)
    | Count(call: CallId)
    | Insert(call: CallId, bridge: Bridge)
    | Rerank(call: CallId)
    | SelfRevoke(call: CallId)

  function Next(cap: nat, s: Bridges, step: Step): Bridges {
    var x := step.call;
    match step
    case Begin(_) => if x in s.calls then s else s.(calls := s.calls[x := Counting])
    case Count(_) =>
      if x !in s.calls || s.calls[x] != Counting then s
      else s.(calls := s.calls[x := if |s.active| >= cap then Refused else Admitted])
    case Insert(_, b) =>
      if x !in s.calls || s.calls[x] != Admitted || exists c :: c in s.inserted && c.id == b.id then s
      else Bridges(s.active + {b}, s.inserted + {b}, s.calls[x := Inserted(b)])
    case Rerank(_) =>
      if x !in s.calls || !s.calls[x].Inserted? then s
      else
        var b := s.calls[x].bridge;
        s.(calls := s.calls[x := if b in s.active && Rank(b, s.active) >= cap then Overflowing(b) else Kept(b)])
    case SelfRevoke(_) =>
      if x !in s.calls || !s.calls[x].Overflowing? then s
      else s.(active := s.active - {s.calls[x].bridge}, calls := s.calls[x := SelfRevoked(s.calls[x].bridge)])
  }

  function Run(cap: nat, existing: set<Bridge>, steps: seq<Step>): Bridges {
    if steps == [] then Bridges(existing, existing, map[])
    else Next(cap, Run(cap, existing, steps[..|steps| - 1]), steps[|steps| - 1])
  }

  // ----- what every interleaving keeps -----

  ghost predicate Owns(s: Bridges, x: CallId, b: Bridge) {
    x in s.calls && (s.calls[x].Inserted? || s.calls[x].Overflowing? || s.calls[x].Kept?) && s.calls[x].bridge == b
  }

  /** The active bridges are the existing ones and those of calls that did not revoke their own. */
  ghost predicate ActiveExplained(s: Bridges, existing: set<Bridge>) {
    forall b <- s.active :: b in existing || exists x :: Owns(s, x, b)
  }

  ghost predicate Valid(cap: nat, s: Bridges) {
    && DistinctIds(s.inserted)
    && First(cap, s.inserted) <= s.active <= s.inserted
    && (forall x <- s.calls :: s.calls[x].Inserted? || s.calls[x].Kept? || s.calls[x].Overflowing? ==> s.calls[x].bridge in s.inserted)
    && (forall x <- s.calls :: s.calls[x].Overflowing? || s.calls[x].SelfRevoked? ==> Rank(s.calls[x].bridge, s.inserted) >= cap)
  }

  lemma InsertIsValid(cap: nat, s: Bridges, step: Step)
    requires Valid(cap, s) && step.Insert?
    ensures Valid(cap, Next(cap, s, step))
  {
    var t := Next(cap, s, step);
    forall b ensures Rank(b, t.inserted) >= Rank(b, s.inserted) { RankGrows(b, s.inserted, t.inserted); }
    hide Rank;
  }

  lemma StepIsValid(cap: nat, s: Bridges, step: Step)
    requires Valid(cap, s)
    ensures Valid(cap, Next(cap, s, step))
  {
    if step.Insert? {
      InsertIsValid(cap, s, step);
    } else if step.Rerank? && step.call in s.calls && s.calls[step.call].Inserted? {
      RankPastCapAgrees(cap, s.calls[step.call].bridge, s.inserted, s.active);
      hide Rank;
    } else {
      hide Rank;
    }
  }

  lemma {:induction false} RunIsValid(cap: nat, existing: set<Bridge>, steps: seq<Step>)
    requires DistinctIds(existing)
    ensures Valid(cap, Run(cap, existing, steps))
  {
    if steps != [] {
      RunIsValid(cap, existing, steps[..|steps| - 1]);
      StepIsValid(cap, Run(cap, existing, steps[..|steps| - 1]), steps[|steps| - 1]);
      hide Valid, Next;
    }
  }

  lemma StepStaysExplained(cap: nat, s: Bridges, step: Step, existing: set<Bridge>)
    requires Valid(cap, s) && ActiveExplained(s, existing)
    ensures ActiveExplained(Next(cap, s, step), existing)
  {
    var t := Next(cap, s, step);
    forall b | b in t.active && b !in existing ensures exists x :: Owns(t, x, b) {
      if b in s.active {
        var x :| Owns(s, x, b);
        assert Owns(t, x, b);
      } else {
        assert Owns(t, step.call, b);
      }
    }
  }

  lemma {:induction false} RunIsExplained(cap: nat, existing: set<Bridge>, steps: seq<Step>)
    requires DistinctIds(existing)
    ensures ActiveExplained(Run(cap, existing, steps), existing)
  {
    if steps != [] {
      var n := |steps| - 1;
      RunIsValid(cap, existing, steps[..n]);
      RunIsExplained(cap, existing, steps[..n]);
      StepStaysExplained(cap, Run(cap, existing, steps[..n]), steps[n], existing);
      hide Valid, Next, ActiveExplained;
    }
  }

  /** Whatever the interleaving, a bridge among the first `cap` ever inserted is never revoked. */
  lemma FirstAreNeverRevoked(cap: nat, existing: set<Bridge>, steps: seq<Step>)
    requires DistinctIds(existing)
    ensures var s := Run(cap, existing, steps); First(cap, s.inserted) <= s.active
    ensures var s := Run(cap, existing, steps); |s.active| >= Min(cap, |s.inserted|)
  {
    RunIsValid(cap, existing, steps);
    var s := Run(cap, existing, steps);
    hide Run;
    FirstSize(cap, s.inserted);
    SmallerSet(First(cap, s.inserted), s.active);
  }

  /** The decision is exact at the moment it is taken: past the cap among all bridges inserted so far. */
  lemma RerankIsExact(cap: nat, s: Bridges, x: CallId)
    requires Valid(cap, s) && x in s.calls && s.calls[x].Inserted? && s.calls[x].bridge in s.active
    ensures Next(cap, s, Rerank(x)).calls[x].Overflowing? <==> Rank(s.calls[x].bridge, s.inserted) >= cap
  {
    RankPastCapAgrees(cap, s.calls[x].bridge, s.inserted, s.active);
    hide Rank;
  }

  // ----- when the cap holds in the end -----

  predicate Ended(r: Registration) {
    r.Kept? || r.SelfRevoked? || r.Refused?
  }

  ghost predicate AllEnded(s: Bridges) {
    forall x <- s.calls :: Ended(s.calls[x])
  }

  /** A bridge that stays whatever the calls in progress do: it was there before, or its re-ranking kept it. */
  ghost predicate Decided(s: Bridges, existing: set<Bridge>, b: Bridge) {
    b in existing || exists x :: x in s.calls && s.calls[x] == Kept(b)
  }

  /** Nobody was overtaken: each decided bridge still ranks within the cap. */
  ghost predicate NoneOvertaken(cap: nat, s: Bridges, existing: set<Bridge>) {
    && (forall b <- existing :: Rank(b, s.inserted) < cap)
    && (forall x <- s.calls :: s.calls[x].Kept? ==> Rank(s.calls[x].bridge, s.inserted) < cap)
  }

  predicate Inserts(s: Bridges, step: Step) {
    step.Insert? && step.call in s.calls && s.calls[step.call].Admitted? && !exists c :: c in s.inserted && c.id == step.bridge.id
  }

  /** The insert ranks below a decided bridge that holds the last place within the cap, and pushes it out. */
  ghost predicate Displaces(cap: nat, s: Bridges, step: Step, existing: set<Bridge>) {
    Inserts(s, step) && exists b :: Decided(s, existing, b) && Below(step.bridge, b) && Rank(b, s.inserted) + 1 == cap
  }

  ghost predicate NobodyDisplaced(cap: nat, existing: set<Bridge>, steps: seq<Step>) {
    forall m :: 0 <= m < |steps| ==> !Displaces(cap, Run(cap, existing, steps[..m]), steps[m], existing)
  }

  predicate Stored(r: Registration) {
    r.Inserted? || r.Overflowing? || r.Kept? || r.SelfRevoked?
  }

  /** No two calls share a bridge, and a call loses its bridge only by its own revocation. */
  ghost predicate KeptAreActive(s: Bridges, existing: set<Bridge>) {
    && existing <= s.active
    && (forall x <- s.calls :: s.calls[x].Inserted? || s.calls[x].Kept? || s.calls[x].Overflowing? ==> s.calls[x].bridge in s.active)
    && (forall x <- s.calls, y <- s.calls :: x != y && Stored(s.calls[x]) && Stored(s.calls[y]) ==> s.calls[x].bridge != s.calls[y].bridge)
    && (forall x <- s.calls :: Stored(s.calls[x]) ==> s.calls[x].bridge in s.inserted && s.calls[x].bridge !in existing)
  }

  lemma StepKeepsActive(cap: nat, s: Bridges, step: Step, existing: set<Bridge>)
    requires s.active <= s.inserted && KeptAreActive(s, existing)
    ensures KeptAreActive(Next(cap, s, step), existing)
  {
    hide Rank;
  }

  lemma {:induction false} RunKeepsActive(cap: nat, existing: set<Bridge>, steps: seq<Step>)
    requires DistinctIds(existing)
    ensures KeptAreActive(Run(cap, existing, steps), existing)
  {
    if steps != [] {
      var n := |steps| - 1;
      RunIsValid(cap, existing, steps[..n]);
      RunKeepsActive(cap, existing, steps[..n]);
      assert Run(cap, existing, steps[..n]).active <= Run(cap, existing, steps[..n]).inserted;
      StepKeepsActive(cap, Run(cap, existing, steps[..n]), steps[n], existing);
      hide Valid, Next, KeptAreActive;
    }
  }

  /** What an insert does to the rank of a bridge that is already there. */
  lemma InsertRaises(s: Bridges, step: Step, b: Bridge)
    requires Inserts(s, step)
    ensures Rank(b, s.inserted + {step.bridge}) == Rank(b, s.inserted) + if Below(step.bridge, b) then 1 else 0
  {
    if Below(step.bridge, b) {
      RankRisesByOne(b, s.inserted, step.bridge);
    } else {
      RankBelowUnchanged(b, s.inserted, step.bridge);
    }
  }

  lemma InsertOvertakes(cap: nat, s: Bridges, step: Step, existing: set<Bridge>)
    requires Inserts(s, step)
    ensures NoneOvertaken(cap, Next(cap, s, step), existing) <==> NoneOvertaken(cap, s, existing) && !Displaces(cap, s, step, existing)
  {
    var t := Next(cap, s, step);
    forall b ensures Rank(b, t.inserted) == Rank(b, s.inserted) + if Below(step.bridge, b) then 1 else 0 { InsertRaises(s, step, b); }
    hide Rank, Below;
    if NoneOvertaken(cap, t, existing) {
      forall x | x in s.calls && s.calls[x].Kept? ensures Rank(s.calls[x].bridge, s.inserted) < cap {
        assert t.calls[x] == s.calls[x];
      }
      forall b | Decided(s, existing, b) && Below(step.bridge, b) ensures Rank(b, s.inserted) + 1 != cap {
        if b !in existing {
          var x :| x in s.calls && s.calls[x] == Kept(b);
          assert t.calls[x] == s.calls[x];
        }
      }
    } else if NoneOvertaken(cap, s, existing) {
      KeptAreDecided(s, existing);
      assert forall x <- t.calls :: t.calls[x].Kept? ==> x in s.calls && s.calls[x] == t.calls[x];
      assert exists b :: Decided(s, existing, b) && Rank(b, t.inserted) >= cap;
    }
  }

  lemma KeptAreDecided(s: Bridges, existing: set<Bridge>)
    ensures forall x <- s.calls :: s.calls[x].Kept? ==> Decided(s, existing, s.calls[x].bridge)
  {
    forall x | x in s.calls && s.calls[x].Kept? ensures Decided(s, existing, s.calls[x].bridge) {
      assert s.calls[x] == Kept(s.calls[x].bridge);
    }
  }

  /** Whether somebody is overtaken is decided by the inserts alone, each at the moment it happens. */
  lemma StepOvertakes(cap: nat, s: Bridges, step: Step, existing: set<Bridge>)
    requires Valid(cap, s) && KeptAreActive(s, existing)
    ensures NoneOvertaken(cap, Next(cap, s, step), existing) <==> NoneOvertaken(cap, s, existing) && !Displaces(cap, s, step, existing)
  {
    if Inserts(s, step) {
      InsertOvertakes(cap, s, step, existing);
    } else {
      if step.Rerank? && step.call in s.calls && s.calls[step.call].Inserted? {
        RerankIsExact(cap, s, step.call);
      }
      var t := Next(cap, s, step);
      hide Rank;
      assert t.inserted == s.inserted;
      assert forall x <- s.calls :: s.calls[x].Kept? ==> x in t.calls && t.calls[x] == s.calls[x];
    }
  }

  lemma {:induction false} RunOvertakes(cap: nat, existing: set<Bridge>, steps: seq<Step>)
    requires DistinctIds(existing)
    ensures NoneOvertaken(cap, Run(cap, existing, steps), existing) <==> |existing| <= cap && NobodyDisplaced(cap, existing, steps)
  {
    if steps == [] {
      ExistingWithinCap(cap, existing);
    } else {
      var n := |steps| - 1;
      hide Displaces, NoneOvertaken, Valid, KeptAreActive, Next;
      RunOvertakes(cap, existing, steps[..n]);
      RunIsValid(cap, existing, steps[..n]);
      RunKeepsActive(cap, existing, steps[..n]);
      StepOvertakes(cap, Run(cap, existing, steps[..n]), steps[n], existing);
      DisplacedInPrefix(cap, existing, steps);
    }
  }

  lemma DisplacedInPrefix(cap: nat, existing: set<Bridge>, steps: seq<Step>)
    requires steps != []
    ensures var n := |steps| - 1;
            NobodyDisplaced(cap, existing, steps) <==>
              NobodyDisplaced(cap, existing, steps[..n]) && !Displaces(cap, Run(cap, existing, steps[..n]), steps[n], existing)
  {
    hide Displaces, Run;
    assert forall m :: 0 <= m < |steps| - 1 ==> steps[..|steps| - 1][..m] == steps[..m];
  }

  lemma ExistingWithinCap(cap: nat, existing: set<Bridge>)
    requires DistinctIds(existing)
    ensures (forall b <- existing :: Rank(b, existing) < cap) <==> |existing| <= cap
  {
    FirstSize(cap, existing);
    if |existing| <= cap {
      forall b | b in existing ensures Rank(b, existing) < cap {
        assert b !in Lower(b, existing);
        SmallerSet(Lower(b, existing) + {b}, existing);
      }
    }
    if forall b <- existing :: Rank(b, existing) < cap {
      assert First(cap, existing) == existing;
    }
  }

  /**
   * When all registrations have ended, the active bridges are exactly the first `cap` by rank if and only
   * if there were no more than `cap` to begin with and no insert pushed a decided bridge out of its place.
   */
  lemma CapHoldsExactly(cap: nat, existing: set<Bridge>, steps: seq<Step>)
    requires DistinctIds(existing) && AllEnded(Run(cap, existing, steps))
    ensures var s := Run(cap, existing, steps);
            s.active == First(cap, s.inserted) <==> |existing| <= cap && NobodyDisplaced(cap, existing, steps)
  {
    RunOvertakes(cap, existing, steps);
    hide NobodyDisplaced;
    RunIsValid(cap, existing, steps);
    RunIsExplained(cap, existing, steps);
    RunKeepsActive(cap, existing, steps);
    var s := Run(cap, existing, steps);
    hide Run, Rank;
    if NoneOvertaken(cap, s, existing) {
      forall b | b in s.active ensures b in First(cap, s.inserted) {
        if b !in existing {
          var x :| Owns(s, x, b);
          assert Ended(s.calls[x]);
        }
      }
    }
  }

  /** Every bridge is inserted above all that existed before and all whose re-ranking was already decided. */
  ghost predicate InsertsAboveDecided(s: Bridges, step: Step, existing: set<Bridge>) {
    Inserts(s, step) ==>
      && (forall b <- existing :: Below(b, step.bridge))
      && (forall x <- s.calls :: s.calls[x].Kept? ==> Below(s.calls[x].bridge, step.bridge))
  }

  ghost predicate InOrder(cap: nat, existing: set<Bridge>, steps: seq<Step>) {
    forall m :: 0 <= m < |steps| ==> InsertsAboveDecided(Run(cap, existing, steps[..m]), steps[m], existing)
  }

  lemma OrderDisplacesNobody(cap: nat, existing: set<Bridge>, steps: seq<Step>)
    requires InOrder(cap, existing, steps)
    ensures NobodyDisplaced(cap, existing, steps)
  {
    hide Run, Rank, Inserts;
    forall m | 0 <= m < |steps| ensures !Displaces(cap, Run(cap, existing, steps[..m]), steps[m], existing) {
      assert InsertsAboveDecided(Run(cap, existing, steps[..m]), steps[m], existing);
    }
  }

  /** A burst that inserts above everything decided leaves exactly the first `cap` bridges, however its steps interleave. */
  lemma BurstFillsCap(cap: nat, existing: set<Bridge>, steps: seq<Step>)
    requires DistinctIds(existing) && |existing| <= cap && InOrder(cap, existing, steps)
    requires AllEnded(Run(cap, existing, steps))
    ensures var s := Run(cap, existing, steps); s.active == First(cap, s.inserted) && |s.active| == Min(cap, |s.inserted|)
  {
    OrderDisplacesNobody(cap, existing, steps);
    CapHoldsExactly(cap, existing, steps);
    RunIsValid(cap, existing, steps);
    FirstSize(cap, Run(cap, existing, steps).inserted);
    hide Run, NobodyDisplaced, InOrder, First;
  }

  lemma {:induction false} ExistingAreInserted(cap: nat, existing: set<Bridge>, steps: seq<Step>)
    ensures existing <= Run(cap, existing, steps).inserted
  {
    if steps != [] {
      ExistingAreInserted(cap, existing, steps[..|steps| - 1]);
    }
  }

  /** It suffices that bridges are inserted in the order in which they rank. */
  lemma InsertedInRankOrder(cap: nat, existing: set<Bridge>, steps: seq<Step>)
    requires DistinctIds(existing)
    requires forall m :: 0 <= m < |steps| && Inserts(Run(cap, existing, steps[..m]), steps[m]) ==>
               forall c <- Run(cap, existing, steps[..m]).inserted :: Below(c, steps[m].bridge)
    ensures InOrder(cap, existing, steps)
  {
    forall m | 0 <= m < |steps| ensures InsertsAboveDecided(Run(cap, existing, steps[..m]), steps[m], existing) {
      ExistingAreInserted(cap, existing, steps[..m]);
      RunIsValid(cap, existing, steps[..m]);
      hide Run, Rank, Inserts;
    }
  }

  /** It suffices, too, that every re-ranking reads after every insert, none of which ranks below an existing bridge. */
  lemma RerankedAfterAllInserts(cap: nat, existing: set<Bridge>, steps: seq<Step>)
    requires forall m :: 0 <= m < |steps| && Inserts(Run(cap, existing, steps[..m]), steps[m]) ==>
               && (forall b <- existing :: Below(b, steps[m].bridge))
               && (forall x <- Run(cap, existing, steps[..m]).calls :: !Run(cap, existing, steps[..m]).calls[x].Kept?)
    ensures InOrder(cap, existing, steps)
  {
    forall m | 0 <= m < |steps| ensures InsertsAboveDecided(Run(cap, existing, steps[..m]), steps[m], existing) {
      hide Run, Inserts;
    }
  }

  // ----- what one registration does -----

  /** Earlier additions rank first, and of those at the same time the smaller id: a strict total order of distinct ids. */
  lemma OrderIsTotal(a: Bridge, b: Bridge, c: Bridge)
    ensures a.addedAt < b.addedAt ==> Below(a, b)
    ensures a.addedAt == b.addedAt ==> (Below(a, b) <==> a.id < b.id)
    ensures a.id != b.id ==> (Below(a, b) <==> !Below(b, a))
    ensures !Below(a, a) && (Below(a, b) && Below(b, c) ==> Below(a, c))
  {}

  /** A registration is refused at the cap and admitted below it; an admitted one stores its bridge. */
  lemma RegistrationEnters(cap: nat, s: Bridges, x: CallId, b: Bridge)
    requires x !in s.calls && forall c <- s.inserted :: c.id != b.id
    ensures var counted := Next(cap, Next(cap, s, Begin(x)), Count(x));
            var inserted := Next(cap, counted, Insert(x, b));
            && counted == s.(calls := s.calls[x := if |s.active| >= cap then Refused else Admitted])
            && inserted == if |s.active| >= cap then counted
                           else Bridges(s.active + {b}, s.inserted + {b}, s.calls[x := Inserted(b)])
  {
    var begun := Next(cap, s, Begin(x));
    assert begun == s.(calls := s.calls[x := Counting]);
    assert s.calls[x := Counting][x := Refused] == s.calls[x := Refused];
    assert s.calls[x := Counting][x := Admitted] == s.calls[x := Admitted];
    assert s.calls[x := Admitted][x := Inserted(b)] == s.calls[x := Inserted(b)];
  }

  /** It then looks how many active bridges come before its own: with `cap` or more of them it revokes its own, else it stays. */
  lemma RegistrationSettles(cap: nat, s: Bridges, x: CallId, b: Bridge)
    requires x in s.calls && s.calls[x] == Inserted(b) && b in s.active
    ensures var before := set c | c in s.active && (c.addedAt < b.addedAt || (c.addedAt == b.addedAt && c.id < b.id));
            var reranked := Next(cap, s, Rerank(x));
            var settled := Next(cap, reranked, SelfRevoke(x));
            if |before| >= cap then
              reranked == s.(calls := s.calls[x := Overflowing(b)])
              && settled == s.(active := s.active - {b}, calls := s.calls[x := SelfRevoked(b)])
            else reranked == s.(calls := s.calls[x := Kept(b)]) && settled == reranked
  {
    assert (set c | c in s.active && (c.addedAt < b.addedAt || (c.addedAt == b.addedAt && c.id < b.id))) == Lower(b, s.active);
    assert s.calls[x := Overflowing(b)][x := SelfRevoked(b)] == s.calls[x := SelfRevoked(b)];
  }

  /** No operation is repeated or skipped: each acts only in its own phase. */
  lemma PhasesInOrder(cap: nat, s: Bridges, x: CallId, b: Bridge)
    ensures x in s.calls ==> Next(cap, s, Begin(x)) == s
    ensures x !in s.calls || s.calls[x] != Counting ==> Next(cap, s, Count(x)) == s
    ensures x !in s.calls || s.calls[x] != Admitted || (exists c :: c in s.inserted && c.id == b.id) ==> Next(cap, s, Insert(x, b)) == s
    ensures x !in s.calls || !s.calls[x].Inserted? ==> Next(cap, s, Rerank(x)) == s
    ensures x !in s.calls || !s.calls[x].Overflowing? ==> Next(cap, s, SelfRevoke(x)) == s
  {
    hide Rank;
  }

  // ----- how far the cap can be overshot -----

  ghost function AdmittedCalls(s: Bridges): set<CallId> {
    set x | x in s.calls && s.calls[x].Admitted?
  }

  ghost predicate AtMostAdmitted(cap: nat, existing: set<Bridge>, steps: seq<Step>, most: nat) {
    forall m :: 0 <= m <= |steps| ==> |AdmittedCalls(Run(cap, existing, steps[..m]))| <= most
  }

  lemma InsertBoundsActive(cap: nat, s: Bridges, step: Step)
    requires step.Insert? && s.active <= s.inserted && Next(cap, s, step) != s
    ensures var t := Next(cap, s, step);
            t.active == s.active + {step.bridge} && AdmittedCalls(t) == AdmittedCalls(s) - {step.call} && step.call in AdmittedCalls(s)
  {
    hide Rank, Below;
  }

  lemma OthersBoundActive(cap: nat, s: Bridges, step: Step)
    requires !step.Insert?
    ensures var t := Next(cap, s, step);
            t.active <= s.active && (AdmittedCalls(t) <= AdmittedCalls(s) || (step.Count? && |s.active| < cap))
  {
    hide Rank, Below;
  }

  lemma StepBoundsActive(cap: nat, s: Bridges, step: Step, bound: int)
    requires |s.active| + |AdmittedCalls(s)| <= bound && s.active <= s.inserted
    requires |s.active| < cap ==> |s.active| + |AdmittedCalls(Next(cap, s, step))| <= bound
    ensures |Next(cap, s, step).active| + |AdmittedCalls(Next(cap, s, step))| <= bound
  {
    var t := Next(cap, s, step);
    if step.Insert? {
      if t != s { InsertBoundsActive(cap, s, step); }
    } else {
      OthersBoundActive(cap, s, step);
      hide Next, AdmittedCalls;
      SmallerSet(t.active, s.active);
      if AdmittedCalls(t) <= AdmittedCalls(s) {
        SmallerSet(AdmittedCalls(t), AdmittedCalls(s));
      }
    }
  }

  /** If never more than `most` registrations are between their count and their insert, the cap is overshot by less than that. */
  lemma {:induction false} OvershootIsBounded(cap: nat, existing: set<Bridge>, steps: seq<Step>, most: nat)
    requires DistinctIds(existing) && AtMostAdmitted(cap, existing, steps, most)
    ensures var s := Run(cap, existing, steps);
            |s.active| + |AdmittedCalls(s)| <= Max(|existing|, cap - 1 + most)
  {
    if steps == [] {
      assert AdmittedCalls(Run(cap, existing, steps)) == {};
    } else {
      var n := |steps| - 1;
      var s := Run(cap, existing, steps[..n]);
      assert AtMostAdmitted(cap, existing, steps[..n], most) by {
        forall m | 0 <= m <= n ensures |AdmittedCalls(Run(cap, existing, steps[..n][..m]))| <= most {
          assert steps[..n][..m] == steps[..m];
        }
      }
      OvershootIsBounded(cap, existing, steps[..n], most);
      RunIsValid(cap, existing, steps[..n]);
      assert steps[..n + 1] == steps;
      assert |AdmittedCalls(Run(cap, existing, steps[..n + 1]))| <= most;
      assert Run(cap, existing, steps) == Next(cap, s, steps[n]);
      hide Run, Next, AdmittedCalls, AtMostAdmitted;
      StepBoundsActive(cap, s, steps[n], Max(|existing|, cap - 1 + most));
    }
  }

  lemma RunSnoc(cap: nat, existing: set<Bridge>, steps: seq<Step>, step: Step)
    ensures Run(cap, existing, steps + [step]) == Next(cap, Run(cap, existing, steps), step)
  {
    assert (steps + [step])[..|steps|] == steps;
  }

  lemma InsertThenKeep(cap: nat, s: Bridges, x: CallId, b: Bridge)
    requires x in s.calls && s.calls[x] == Admitted && Rank(b, s.active) < cap
    requires forall c <- s.inserted :: c.id != b.id
    ensures Next(cap, Next(cap, s, Insert(x, b)), Rerank(x)) == Bridges(s.active + {b}, s.inserted + {b}, s.calls[x := Kept(b)])
  {
    RankBelowUnchanged(b, s.active, b);
    hide Rank;
    assert s.calls[x := Inserted(b)][x := Kept(b)] == s.calls[x := Kept(b)];
  }

  lemma BothAdmitted(cap: nat, existing: set<Bridge>) returns (steps: seq<Step>)
    requires |existing| < cap
    ensures Run(cap, existing, steps) == Bridges(existing, existing, map[0 := Admitted, 1 := Admitted])
  {
    steps := [];
    RunSnoc(cap, existing, steps, Begin(0));
    steps := steps + [Begin(0)];
    RunSnoc(cap, existing, steps, Begin(1));
    steps := steps + [Begin(1)];
    RunSnoc(cap, existing, steps, Count(0));
    steps := steps + [Count(0)];
    RunSnoc(cap, existing, steps, Count(1));
    steps := steps + [Count(1)];
  }

  /**
   * The cap is really overshot when a lower-ranked bridge is inserted after a higher-ranked one was kept:
   * with one place left, both stay.
   */
  lemma OvertakingOvershoots(cap: nat, existing: set<Bridge>, early: Bridge, late: Bridge) returns (steps: seq<Step>)
    requires cap > 0 && DistinctIds(existing) && |existing| == cap - 1
    requires Below(early, late) && early.id != late.id
    requires forall b <- existing :: Below(b, early) && b.id != early.id && b.id != late.id
    ensures var s := Run(cap, existing, steps);
            s.active == existing + {late} + {early} && AllEnded(s) && |s.active| == cap + 1
  {
    hide Run, Next;
    steps := BothAdmitted(cap, existing);
    var both := Run(cap, existing, steps);
    assert Lower(late, existing) == existing && Lower(early, existing + {late}) == existing;
    InsertThenKeep(cap, both, 0, late);
    RunSnoc(cap, existing, steps, Insert(0, late));
    steps := steps + [Insert(0, late)];
    RunSnoc(cap, existing, steps, Rerank(0));
    steps := steps + [Rerank(0)];
    InsertThenKeep(cap, Run(cap, existing, steps), 1, early);
    RunSnoc(cap, existing, steps, Insert(1, early));
    steps := steps + [Insert(1, early)];
    RunSnoc(cap, existing, steps, Rerank(1));
    steps := steps + [Rerank(1)];
  }

  // ----- the service over the stored bridges -----

  /** `ranked` lists a set of bridges in rank order, as sorting does. */
  ghost predicate IsRanking(ranked: seq<Bridge>, bridges: set<Bridge>) {
    && (forall i, j :: 0 <= i < j < |ranked| ==> Below(ranked[i], ranked[j]))
    && (forall b :: b in ranked <==> b in bridges)
  }

  ghost function Elements<T>(s: seq<T>): set<T> {
    set x | x in s
  }

  lemma {:induction false} PrefixSize(ranked: seq<Bridge>, i: nat)
    requires i <= |ranked| && forall j, k :: 0 <= j < k < |ranked| ==> Below(ranked[j], ranked[k])
    ensures |Elements(ranked[..i])| == i
  {
    if i == 0 {
      assert Elements(ranked[..0]) == {};
    } else {
      PrefixSize(ranked, i - 1);
      assert ranked[..i] == ranked[..i - 1] + [ranked[i - 1]];
      assert Elements(ranked[..i]) == Elements(ranked[..i - 1]) + {ranked[i - 1]};
      forall j | 0 <= j < i - 1 ensures ranked[j] != ranked[i - 1] {
        assert Below(ranked[j], ranked[i - 1]);
      }
    }
  }

  lemma NotBelowLater(ranked: seq<Bridge>, i: nat, j: nat)
    requires i < |ranked| && j < |ranked| && forall k, l :: 0 <= k < l < |ranked| ==> Below(ranked[k], ranked[l])
    ensures i <= j ==> !Below(ranked[j], ranked[i])
  {}

  lemma IndexIsRank(ranked: seq<Bridge>, bridges: set<Bridge>, i: nat)
    requires IsRanking(ranked, bridges) && i < |ranked|
    ensures Rank(ranked[i], bridges) == i
  {
    PrefixSize(ranked, i);
    assert Lower(ranked[i], bridges) == Elements(ranked[..i]) by {
      forall b | b in Lower(ranked[i], bridges) ensures b in ranked[..i] {
        var j :| 0 <= j < |ranked| && ranked[j] == b;
        NotBelowLater(ranked, i, j);
        assert ranked[..i][j] == b;
      }
    }
  }

  class BridgeService {
    var active: set<Bridge>
    var inserted: set<Bridge>
    var calls: map<CallId, Registration>

    function View(): Bridges
      reads this
    {
      Bridges(active, inserted, calls)
    }

    constructor (existing: set<Bridge>)
      ensures View() == Run(MAX_ACTIVE_BRIDGES_PER_USER, existing, [])
    {
      active, inserted, calls := existing, existing, map[];
    }

    method CountExisting(x: CallId)
      requires x in calls && calls[x] == Counting
      modifies this
      ensures View() == Next(MAX_ACTIVE_BRIDGES_PER_USER, old(View()), Count(x))
    {
      calls := calls[x := if |active| >= MAX_ACTIVE_BRIDGES_PER_USER then Refused else Admitted];
    }

    method RegisterBridge(x: CallId, b: Bridge)
      requires x in calls && calls[x] == Admitted && forall c <- inserted :: c.id != b.id
      modifies this
      ensures View() == Next(MAX_ACTIVE_BRIDGES_PER_USER, old(View()), Insert(x, b))
    {
      active, inserted := active + {b}, inserted + {b};
      calls := calls[x := Inserted(b)];
    }

    /** The re-ranking works on the sorted re-read; only what is cut off beyond the cap counts as overflow. */
    method RerankOwn(x: CallId, ranked: seq<Bridge>) returns (overflow: bool)
      requires x in calls && calls[x].Inserted? && IsRanking(ranked, active) && DistinctIds(active)
      requires forall c <- active :: c.id == calls[x].bridge.id ==> c == calls[x].bridge
      modifies this
      ensures View() == Next(MAX_ACTIVE_BRIDGES_PER_USER, old(View()), Rerank(x))
      ensures overflow <==> View().calls[x].Overflowing?
      ensures overflow <==> old(calls)[x].bridge in old(active) && Rank(old(calls)[x].bridge, old(active)) >= 50
    {
      var own := calls[x].bridge;
      overflow := false;
      if |ranked| > MAX_ACTIVE_BRIDGES_PER_USER {
        var i := MAX_ACTIVE_BRIDGES_PER_USER;
        while i < |ranked|
          invariant MAX_ACTIVE_BRIDGES_PER_USER <= i <= |ranked|
          invariant overflow <==> own in ranked[MAX_ACTIVE_BRIDGES_PER_USER..i]
        {
          if ranked[i].id == own.id { overflow := true; }
          assert ranked[MAX_ACTIVE_BRIDGES_PER_USER..i + 1] == ranked[MAX_ACTIVE_BRIDGES_PER_USER..i] + [ranked[i]];
          assert ranked[i] in active;
          i := i + 1;
        }
      }
      assert overflow <==> own in active && Rank(own, active) >= MAX_ACTIVE_BRIDGES_PER_USER by {
        CutOffMeansRanked(ranked, active, own, MAX_ACTIVE_BRIDGES_PER_USER);
      }
      calls := calls[x := if overflow then Overflowing(own) else Kept(own)];
    }

    method RevokeOwn(x: CallId)
      requires x in calls && calls[x].Overflowing?
      modifies this
      ensures View() == Next(MAX_ACTIVE_BRIDGES_PER_USER, old(View()), SelfRevoke(x))
    {
      active := active - {calls[x].bridge};
      calls := calls[x := SelfRevoked(calls[x].bridge)];
    }
  }

  lemma CutOffMeansRanked(ranked: seq<Bridge>, bridges: set<Bridge>, b: Bridge, cap: nat)
    requires IsRanking(ranked, bridges)
    ensures (|ranked| > cap && b in ranked[cap..]) <==> (b in bridges && Rank(b, bridges) >= cap)
  {
    if b in bridges {
      var i :| 0 <= i < |ranked| && ranked[i] == b;
      IndexIsRank(ranked, bridges, i);
      hide Rank;
      if i >= cap { assert ranked[cap..][i - cap] == b; }
      if |ranked| > cap && b in ranked[cap..] {
        var j :| 0 <= j < |ranked| - cap && ranked[cap..][j] == b;
        if cap + j < i { assert Below(ranked[cap + j], ranked[i]); }
      }
    }
  }
}
