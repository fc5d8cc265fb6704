/**
 * Bridge-local glossary words of one user, and the race between adding words for a bridge and revoking the
 * bridge. Every database operation is one atomic step; any number of calls of each kind interleave; any
 * call may crash between two of its operations.
 */
module GlossaryRevocation {
  import opened Prelude

  type BridgeId = nat
  type Word = string
  type CallId = nat

  datatype Adding =
    | Checking(bridge: BridgeId, words: set<Word>)
    | Inserting(bridge: BridgeId, words: set<Word>)
    | Rechecking(bridge: BridgeId)
    | Withdrawing(bridge: BridgeId)
    | Added(bridge: BridgeId)
    | Refused(bridge: BridgeId)
    | AddCrashed(bridge: BridgeId)

  /**
   * A call that revokes one bridge or all of them. `covered` are the bridges it answers for: of those it
   * was asked to revoke, the ones that were revoked once its own revocation had been applied.
   */
  datatype Revoking =
    | RevokeOne(bridge: BridgeId)
    | RevokeAll
    | FindCandidates(covered: set<BridgeId>)
    | FilterRevoked(covered: set<BridgeId>, candidates: set<BridgeId>)
    | Cleaning(covered: set<BridgeId>, ids: set<BridgeId>)
    | Cleaned(covered: set<BridgeId>)
    | RevokeCrashed

  /** `rows` maps a bridge to the words of its glossary documents; a document may be left with no words. */
  datatype Glossary = Glossary(
    active: set<BridgeId>,
    revoked: set<BridgeId>,
    rows: map<BridgeId, set<Word>>,
    adding: map<CallId, Adding>,
    revoking: map<CallId, Revoking>)

  const EMPTY := Glossary({}, {}, map[], map[], map[])

  datatype Step =
    | Register(bridge: BridgeId)
    | AddWords(call: CallId, bridge: BridgeId, words: set<Word>)
    | CheckBridge(call: CallId)
    | InsertWords(call: CallId)
    | RecheckBridge(call: CallId)
    | WithdrawWords(call: CallId)
    | CrashAdd(call: CallId)
    | RemoveWords(bridge: BridgeId, words: set<Word>)
    | DropEmpty(bridge: BridgeId)
    | RevokeForUser(call: CallId, bridge: BridgeId)
    | RevokeAllForUser(call: CallId)
    | ApplyRevocation(call: CallId)
    | ReadCandidates(call: CallId)
    | ReadRevoked(call: CallId)
    | Clean(call: CallId)
    | CrashRevoke(call: CallId)

  function WordsOf(g: Glossary, b: BridgeId): set<Word> {
    if b in g.rows then g.rows[b] else {}
  }

  function Phase(g: Glossary, x: CallId, phase: Adding): Glossary {
    g.(adding := g.adding[x := phase])
  }

  function StepAdd(g: Glossary, x: CallId, step: Step): Glossary
    requires x in g.adding
  {
    match g.adding[x]
    case Checking(b, words) =>
      if step.CheckBridge? then
        Phase(g, x, if b !in g.active then Refused(b) else if words == {} then Rechecking(b) else Inserting(b, words))
      else g
    case Inserting(b, words) =>
      if step.InsertWords? then Phase(g, x, Rechecking(b)).(rows := g.rows[b := WordsOf(g, b) + words]) else g
    case Rechecking(b) =>
      if step.RecheckBridge? then Phase(g, x, if b in g.active then Added(b) else Withdrawing(b)) else g
    case Withdrawing(b) =>
      if step.WithdrawWords? then Phase(g, x, Refused(b)).(rows := g.rows - {b}) else g
    case _ => g
  }

  function StepRevoke(g: Glossary, x: CallId, step: Step): Glossary
    requires x in g.revoking
  {
    match g.revoking[x]
    case RevokeOne(b) =>
      if !step.ApplyRevocation? then g
      else
        var revoked := g.revoked + g.active * {b};
        g.(active := g.active - {b}, revoked := revoked, revoking := g.revoking[x := Cleaning(revoked * {b}, {b})])
    case RevokeAll =>
      if !step.ApplyRevocation? then g
      else g.(active := {}, revoked := g.revoked + g.active, revoking := g.revoking[x := FindCandidates(g.revoked + g.active)])
    case FindCandidates(covered) =>
      if step.ReadCandidates? then g.(revoking := g.revoking[x := FilterRevoked(covered, g.rows.Keys)]) else g
    case FilterRevoked(covered, candidates) =>
      if step.ReadRevoked? then g.(revoking := g.revoking[x := Cleaning(covered, candidates * g.revoked)]) else g
    case Cleaning(covered, ids) =>
      if step.Clean? then g.(rows := g.rows - ids, revoking := g.revoking[x := Cleaned(covered)]) else g
    case _ => g
  }

  function Next(g: Glossary, step: Step): Glossary {
    match step
    case Register(b) => if b in g.active + g.revoked then g else g.(active := g.active + {b})
    case AddWords(x, b, words) => if x in g.adding then g else Phase(g, x, Checking(b, words))
    case CrashAdd(x) =>
      if x !in g.adding || g.adding[x].Added? || g.adding[x].Refused? then g
      else if g.adding[x].Checking? || g.adding[x].Inserting? then Phase(g, x, Refused(g.adding[x].bridge))
      else Phase(g, x, AddCrashed(g.adding[x].bridge))
    case RemoveWords(b, words) =>
      if b in g.rows then g.(rows := g.rows[b := g.rows[b] - words]) else g
    case DropEmpty(b) => if b in g.rows && g.rows[b] == {} then g.(rows := g.rows - {b}) else g
    case RevokeForUser(x, b) => if x in g.revoking then g else g.(revoking := g.revoking[x := RevokeOne(b)])
    case RevokeAllForUser(x) => if x in g.revoking then g else g.(revoking := g.revoking[x := RevokeAll])
    case CrashRevoke(x) =>
      if x in g.revoking && !g.revoking[x].Cleaned? then g.(revoking := g.revoking[x := RevokeCrashed])
      else g
    case CheckBridge(x) => if x in g.adding then StepAdd(g, x, step) else g
    case InsertWords(x) => if x in g.adding then StepAdd(g, x, step) else g
    case RecheckBridge(x) => if x in g.adding then StepAdd(g, x, step) else g
    case WithdrawWords(x) => if x in g.adding then StepAdd(g, x, step) else g
    case ApplyRevocation(x) => if x in g.revoking then StepRevoke(g, x, step) else g
    case ReadCandidates(x) => if x in g.revoking then StepRevoke(g, x, step) else g
    case ReadRevoked(x) => if x in g.revoking then StepRevoke(g, x, step) else g
    case Clean(x) => if x in g.revoking then StepRevoke(g, x, step) else g
  }

  function Run(steps: seq<Step>): Glossary {
    if steps == [] then EMPTY else Next(Run(steps[..|steps| - 1]), steps[|steps| - 1])
  }

  // ----- what every interleaving keeps -----

  /** A call that has inserted words for the bridge and has not yet acted on what its second check finds. */
  predicate Unchecked(phase: Adding, b: BridgeId) {
    phase.bridge == b && (phase.Rechecking? || phase.Withdrawing? || phase.AddCrashed?)
  }

  /** A revoked bridge has no row, unless some call has inserted it and not yet finished its second check. */
  ghost predicate Clear(g: Glossary, b: BridgeId) {
    b in g.revoked && (b in g.rows ==> exists x :: x in g.adding && Unchecked(g.adding[x], b))
  }

  ghost predicate AllClear(g: Glossary, bridges: set<BridgeId>) {
    forall b <- bridges :: Clear(g, b)
  }

  /** What a revocation has achieved by each of its phases. */
  ghost predicate Achieved(g: Glossary, phase: Revoking) {
    match phase
    case FindCandidates(covered) => covered <= g.revoked
    case FilterRevoked(covered, candidates) => covered <= g.revoked && AllClear(g, covered - candidates)
    case Cleaning(covered, ids) => covered <= g.revoked && AllClear(g, covered - ids)
    case Cleaned(covered) => AllClear(g, covered)
    case _ => true
  }

  ghost predicate Valid(g: Glossary) {
    && g.active !! g.revoked
    && (forall x <- g.revoking :: Achieved(g, g.revoking[x]))
  }

  /**
   * Being clear is stable: a call that inserts later still has its second check ahead, and that check finds
   * the bridge revoked.
   */
  lemma ClearStays(g: Glossary, step: Step, b: BridgeId)
    requires g.active !! g.revoked && Clear(g, b)
    ensures Clear(Next(g, step), b)
  {
    var h := Next(g, step);
    if b in h.rows {
      if b in g.rows {
        var x :| x in g.adding && Unchecked(g.adding[x], b);
        assert x in h.adding;
        assert Unchecked(h.adding[x], b);
      } else {
        var x := step.call;
        assert Unchecked(h.adding[x], b);
      }
    }
  }

  lemma RevokedStays(g: Glossary, step: Step)
    requires g.active !! g.revoked
    ensures Next(g, step).active !! Next(g, step).revoked && g.revoked <= Next(g, step).revoked
  {}

  lemma AchievedStays(g: Glossary, step: Step, phase: Revoking)
    requires g.active !! g.revoked && Achieved(g, phase)
    ensures Achieved(Next(g, step), phase)
  {
    RevokedStays(g, step);
    forall b | Clear(g, b) ensures Clear(Next(g, step), b) { ClearStays(g, step, b); }
    hide Next, Clear;
  }

  /** A phase of a revocation follows from the phase before it. */
  lemma AchievedNext(g: Glossary, step: Step, x: CallId)
    requires Valid(g) && x in g.revoking
    ensures Achieved(StepRevoke(g, x, step), StepRevoke(g, x, step).revoking[x])
  {
    var h := StepRevoke(g, x, step);
    assert Achieved(g, g.revoking[x]);
    forall b | Clear(g, b) ensures Clear(h, b) {
      if b in h.rows {
        var y :| y in g.adding && Unchecked(g.adding[y], b);
        assert y in h.adding && Unchecked(h.adding[y], b);
      }
    }
    match g.revoking[x]
    case FindCandidates(covered) =>
      forall b | b in covered - g.rows.Keys ensures Clear(g, b) {}
    case FilterRevoked(covered, candidates) =>
      forall b | b in covered - candidates * g.revoked ensures b in covered - candidates {}
    case Cleaning(covered, ids) =>
      if step.Clean? {
        forall b | b in covered ensures Clear(h, b) {
          if b !in ids { assert Clear(g, b); }
        }
      }
    case _ =>
  }

  lemma StepIsValid(g: Glossary, step: Step)
    requires Valid(g)
    ensures Valid(Next(g, step))
  {
    var h := Next(g, step);
    RevokedStays(g, step);
    forall x | x in h.revoking ensures Achieved(h, h.revoking[x]) {
      if x in g.revoking && h.revoking[x] == g.revoking[x] {
        AchievedStays(g, step, g.revoking[x]);
      } else if x in g.revoking && !h.revoking[x].RevokeCrashed? {
        AchievedNext(g, step, x);
      }
    }
  }

  lemma {:induction false} RunIsValid(steps: seq<Step>)
    ensures Valid(Run(steps))
  {
    if steps != [] {
      RunIsValid(steps[..|steps| - 1]);
      StepIsValid(Run(steps[..|steps| - 1]), steps[|steps| - 1]);
      hide Valid, Next;
    }
  }

  /** A call that has ended, other than by a crash between its insert and the end of its second check. */
  predicate Settled(phase: Adding) {
    phase.Added? || phase.Refused?
  }

  /**
   * No revoked vocabulary survives: once a revocation that covered the bridge has finished and every call
   * that adds words for it has ended, the bridge has no glossary row, in any interleaving.
   */
  lemma NoWordSurvivesRevocation(steps: seq<Step>, x: CallId, b: BridgeId)
    requires var g := Run(steps); x in g.revoking && g.revoking[x].Cleaned? && b in g.revoking[x].covered
    requires forall y <- Run(steps).adding :: Run(steps).adding[y].bridge == b ==> Settled(Run(steps).adding[y])
    ensures b !in Run(steps).rows && WordsOf(Run(steps), b) == {}
  {
    RunIsValid(steps);
    var g := Run(steps);
    hide Run;
    assert Achieved(g, g.revoking[x]);
    assert Clear(g, b);
  }

  /** What a finished revocation covers: the one bridge, if it was ever the user's, or all that were active. */
  lemma CoverageIsExact(g: Glossary, x: CallId)
    requires Valid(g) && x in g.revoking
    ensures g.revoking[x].RevokeOne? ==>
              var h := Next(g, ApplyRevocation(x));
              h.revoking[x].covered == (if g.revoking[x].bridge in g.active + g.revoked then {g.revoking[x].bridge} else {})
              && h.revoking[x].covered <= h.revoked
    ensures g.revoking[x].RevokeAll? ==>
              var h := Next(g, ApplyRevocation(x));
              g.active <= h.revoking[x].covered == h.revoked && h.active == {}
  {}

  // ----- what the operations do -----

  /** Words are added for an active bridge alone, to those it has, and the call ends well if the bridge is still active. */
  lemma WordsAreAdded(g: Glossary, x: CallId, b: BridgeId, words: set<Word>)
    requires x !in g.adding && b in g.active
    ensures var checked := Next(Next(g, AddWords(x, b, words)), CheckBridge(x));
            var inserted := if words == {} then checked else Next(checked, InsertWords(x));
            && WordsOf(inserted, b) == WordsOf(g, b) + words
            && (forall c :: c != b ==> WordsOf(inserted, c) == WordsOf(g, c))
            && (words == {} ==> inserted.rows == g.rows)
            && inserted.adding[x] == Rechecking(b)
            && Next(inserted, RecheckBridge(x)) == inserted.(adding := inserted.adding[x := Added(b)])
  {}

  lemma InactiveBridgesAreRefused(g: Glossary, x: CallId, b: BridgeId, words: set<Word>)
    requires x !in g.adding && b !in g.active
    ensures var t := Next(Next(g, AddWords(x, b, words)), CheckBridge(x)); t.rows == g.rows && t.adding[x] == Refused(b)
  {}

  /** A call whose bridge was revoked meanwhile deletes the whole row of the bridge and is refused. */
  lemma LateWordsAreWithdrawn(g: Glossary, x: CallId, b: BridgeId)
    requires x in g.adding && g.adding[x] == Rechecking(b) && b !in g.active
    ensures var t := Next(Next(g, RecheckBridge(x)), WithdrawWords(x)); t.rows == g.rows - {b} && t.adding[x] == Refused(b)
    ensures Next(g, RecheckBridge(x)).rows == g.rows
  {}

  /** Revoking one bridge ends it, and deletes its row whether or not this call was the one that ended it. */
  lemma OneRevocationProceeds(g: Glossary, x: CallId, b: BridgeId)
    requires x !in g.revoking
    ensures var applied := Next(Next(g, RevokeForUser(x, b)), ApplyRevocation(x));
            var cleaned := Next(applied, Clean(x));
            && applied.active == g.active - {b} && applied.rows == g.rows
            && applied.revoked == (if b in g.active then g.revoked + {b} else g.revoked)
            && cleaned.rows == g.rows - {b} && cleaned.revoking[x].Cleaned?
            && cleaned.active == applied.active && cleaned.revoked == applied.revoked
  {}

  /** Revoking all ends every active bridge, and deletes the rows of every revoked one, old or new. */
  lemma FullRevocationProceeds(g: Glossary, x: CallId)
    requires x !in g.revoking
    ensures var applied := Next(Next(g, RevokeAllForUser(x)), ApplyRevocation(x));
            var cleaned := Next(Next(Next(applied, ReadCandidates(x)), ReadRevoked(x)), Clean(x));
            && applied.active == {} && applied.revoked == g.revoked + g.active && applied.rows == g.rows
            && cleaned.rows == g.rows - (g.revoked + g.active) && cleaned.revoking[x].Cleaned?
  {
    var gone := g.revoked + g.active;
    assert g.rows - g.rows.Keys * gone == g.rows - gone;
    var applied := Next(Next(g, RevokeAllForUser(x)), ApplyRevocation(x));
    assert applied.revoking[x] == FindCandidates(gone) && applied.rows == g.rows && applied.revoked == gone;
    var filtering := Next(applied, ReadCandidates(x));
    assert filtering.revoking[x] == FilterRevoked(gone, g.rows.Keys) && filtering.rows == g.rows && filtering.revoked == gone;
    var cleaning := Next(filtering, ReadRevoked(x));
    assert cleaning.revoking[x] == Cleaning(gone, g.rows.Keys * gone) && cleaning.rows == g.rows;
  }

  /** No operation is repeated or skipped: each acts only in its own phase of its own call. */
  lemma AddingInOrder(g: Glossary, x: CallId, b: BridgeId, words: set<Word>)
    ensures x in g.adding ==> Next(g, AddWords(x, b, words)) == g
    ensures x !in g.adding || !g.adding[x].Checking? ==> Next(g, CheckBridge(x)) == g
    ensures x !in g.adding || !g.adding[x].Inserting? ==> Next(g, InsertWords(x)) == g
    ensures x !in g.adding || !g.adding[x].Rechecking? ==> Next(g, RecheckBridge(x)) == g
    ensures x !in g.adding || !g.adding[x].Withdrawing? ==> Next(g, WithdrawWords(x)) == g
  {}

  lemma RevokingInOrder(g: Glossary, x: CallId, b: BridgeId)
    ensures x in g.revoking ==> Next(g, RevokeForUser(x, b)) == g && Next(g, RevokeAllForUser(x)) == g
    ensures x !in g.revoking || !(g.revoking[x].RevokeOne? || g.revoking[x].RevokeAll?) ==> Next(g, ApplyRevocation(x)) == g
    ensures x !in g.revoking || !g.revoking[x].FindCandidates? ==> Next(g, ReadCandidates(x)) == g
    ensures x !in g.revoking || !g.revoking[x].FilterRevoked? ==> Next(g, ReadRevoked(x)) == g
    ensures x !in g.revoking || !g.revoking[x].Cleaning? ==> Next(g, Clean(x)) == g
  {}

  /** Rechecking which candidates are revoked spares a bridge that was registered concurrently. */
  lemma ActiveBridgesAreSpared(g: Glossary, x: CallId)
    requires Valid(g) && x in g.revoking && g.revoking[x].FilterRevoked?
    ensures var t := Next(g, ReadRevoked(x)); t.revoking[x].Cleaning? && t.revoking[x].ids !! t.active
    ensures Next(g, ReadRevoked(x)).revoking[x].ids == g.revoking[x].candidates * g.revoked
  {}

  /** Words leave the glossary only by being removed, by the cleaning of a revocation, or withdrawn by a late call. */
  lemma WordsLeaveOnlyThen(g: Glossary, step: Step, b: BridgeId, w: Word)
    requires w in WordsOf(g, b) && w !in WordsOf(Next(g, step), b)
    ensures || (step.RemoveWords? && step.bridge == b && w in step.words)
            || (step.Clean? && step.call in g.revoking && g.revoking[step.call].Cleaning? && b in g.revoking[step.call].ids)
            || (step.WithdrawWords? && step.call in g.adding && g.adding[step.call] == Withdrawing(b))
  {}

  lemma WordsComeOnlyThen(g: Glossary, step: Step, b: BridgeId, w: Word)
    requires w !in WordsOf(g, b) && w in WordsOf(Next(g, step), b)
    ensures step.InsertWords? && step.call in g.adding && g.adding[step.call].Inserting?
            && g.adding[step.call].bridge == b && w in g.adding[step.call].words
  {}

  /** Removing words, dropping an empty row, and registering a bridge that was never there. */
  lemma SmallOperations(g: Glossary, b: BridgeId, words: set<Word>)
    ensures WordsOf(Next(g, RemoveWords(b, words)), b) == WordsOf(g, b) - words
    ensures Next(g, RemoveWords(b, words)).rows.Keys == g.rows.Keys
    ensures Next(g, DropEmpty(b)).rows == if WordsOf(g, b) == {} then g.rows - {b} else g.rows
    ensures Next(g, Register(b)).active == if b in g.revoked then g.active else g.active + {b}
    ensures Next(g, Register(b)).revoked == g.revoked && Next(g, Register(b)).rows == g.rows
  {
    if b !in g.rows { assert g.rows - {b} == g.rows; }
    if b in g.active { assert g.active + {b} == g.active; }
    if b in g.rows { assert g.rows[b := g.rows[b] - words].Keys == g.rows.Keys; }
  }

  /** A crash leaves rows and bridges as they are; what it may leave behind is said by the phase it ends. */
  lemma CrashesStop(g: Glossary, x: CallId)
    ensures var t := Next(g, CrashAdd(x)); t.rows == g.rows && t.active == g.active && t.revoked == g.revoked
    ensures var t := Next(g, CrashRevoke(x)); t.rows == g.rows && t.active == g.active && t.revoked == g.revoked
    ensures x in g.adding ==>
              var b := g.adding[x].bridge;
              Next(g, CrashAdd(x)).adding[x] ==
                match g.adding[x]
                case Added(_) => Added(b)
                case Refused(_) => Refused(b)
                case Checking(_, _) => Refused(b)
                case Inserting(_, _) => Refused(b)
                case _ => AddCrashed(b)
    ensures x in g.revoking ==>
              Next(g, CrashRevoke(x)).revoking[x] == if g.revoking[x].Cleaned? then g.revoking[x] else RevokeCrashed
  {}

  lemma RunSnoc(steps: seq<Step>, step: Step)
    ensures Run(steps + [step]) == Next(Run(steps), step)
  {
    assert (steps + [step])[..|steps|] == steps;
  }

  lemma CheckedThenRevoking(b: BridgeId, w: Word) returns (steps: seq<Step>)
    ensures Run(steps) == Glossary({b}, {}, map[], map[0 := Inserting(b, {w})], map[1 := RevokeOne(b)])
  {
    steps := [];
    RunSnoc(steps, Register(b));
    steps := steps + [Register(b)];
    RunSnoc(steps, AddWords(0, b, {w}));
    steps := steps + [AddWords(0, b, {w})];
    RunSnoc(steps, CheckBridge(0));
    steps := steps + [CheckBridge(0)];
    RunSnoc(steps, RevokeForUser(1, b));
    steps := steps + [RevokeForUser(1, b)];
  }

  lemma RevokedAndCleaned(g: Glossary, b: BridgeId, adding: map<CallId, Adding>)
    requires g == Glossary({b}, {}, map[], adding, map[1 := RevokeOne(b)])
    ensures Next(Next(g, ApplyRevocation(1)), Clean(1)) == Glossary({}, {b}, map[], adding, map[1 := Cleaned({b})])
  {
    assert {b} * {b} == {b} && {} + {b} == {b} && {b} - {b} == {};
    assert Next(g, ApplyRevocation(1)) == Glossary({}, {b}, map[], adding, map[1 := Cleaning({b}, {b})]);
  }

  lemma InsertedThenCrashed(g: Glossary, b: BridgeId, w: Word)
    requires g.rows == map[] && g.adding == map[0 := Inserting(b, {w})]
    ensures Next(Next(g, InsertWords(0)), CrashAdd(0)) == g.(rows := map[b := {w}], adding := map[0 := AddCrashed(b)])
  {
    assert WordsOf(g, b) + {w} == {w};
    assert Next(g, InsertWords(0)) == g.(rows := map[b := {w}], adding := map[0 := Rechecking(b)]);
  }

  /** The crash the guarantee excludes. */
  lemma CrashLeavesWords(b: BridgeId, w: Word) returns (steps: seq<Step>)
    ensures var g := Run(steps);
            g.revoking == map[1 := Cleaned({b})] && g.adding == map[0 := AddCrashed(b)] && g.rows == map[b := {w}]
  {
    hide Run, Next;
    steps := CheckedThenRevoking(b, w);
    RevokedAndCleaned(Run(steps), b, map[0 := Inserting(b, {w})]);
    RunSnoc(steps, ApplyRevocation(1));
    steps := steps + [ApplyRevocation(1)];
    RunSnoc(steps, Clean(1));
    steps := steps + [Clean(1)];
    InsertedThenCrashed(Run(steps), b, w);
    RunSnoc(steps, InsertWords(0));
    steps := steps + [InsertWords(0)];
    RunSnoc(steps, CrashAdd(0));
    steps := steps + [CrashAdd(0)];
  }

  // ----- the stored bridges and glossary documents -----

  class GlossaryStore {
    var active: set<BridgeId>
    var revoked: set<BridgeId>
    var rows: map<BridgeId, set<Word>>
    var adding: map<CallId, Adding>
    var revoking: map<CallId, Revoking>

    function View(): Glossary
      reads this
    {
      Glossary(active, revoked, rows, adding, revoking)
    }

    constructor ()
      ensures View() == EMPTY
    {
      active, revoked, rows, adding, revoking := {}, {}, map[], map[], map[];
    }

    predicate IsAt(x: CallId, phase: Adding)
      reads this
    {
      x in adding && adding[x] == phase
    }

    method RequireActiveBridge(x: CallId, b: BridgeId, words: set<Word>)
      requires IsAt(x, Checking(b, words))
      modifies this
      ensures View() == Next(old(View()), CheckBridge(x))
    {
      if b !in active {
        adding := adding[x := Refused(b)];
      } else if words == {} {
        adding := adding[x := Rechecking(b)];
      } else {
        adding := adding[x := Inserting(b, words)];
      }
    }

    /** The upsert reports which words were not there before. */
    method AddWordsToScope(x: CallId, b: BridgeId, words: set<Word>) returns (added: set<Word>)
      requires IsAt(x, Inserting(b, words))
      modifies this
      ensures View() == Next(old(View()), InsertWords(x))
      ensures added == words - WordsOf(old(View()), b) && WordsOf(View(), b) == WordsOf(old(View()), b) + added
    {
      var before := if b in rows then rows[b] else {};
      rows := rows[b := before + words];
      adding := adding[x := Rechecking(b)];
      added := words - before;
    }

    method DeleteByBridges(ids: set<BridgeId>)
      modifies `rows
      ensures rows == old(rows) - ids
    {
      rows := rows - ids;
    }

    method RecheckActiveBridge(x: CallId, b: BridgeId) returns (found: bool)
      requires IsAt(x, Rechecking(b))
      modifies this
      ensures View() == Next(old(View()), RecheckBridge(x)) && (found <==> b in active)
    {
      found := b in active;
      adding := adding[x := if found then Added(b) else Withdrawing(b)];
    }

    method WithdrawAdded(x: CallId, b: BridgeId)
      requires IsAt(x, Withdrawing(b))
      modifies this
      ensures View() == Next(old(View()), WithdrawWords(x))
    {
      DeleteByBridges({b});
      adding := adding[x := Refused(b)];
    }

    /** True when this call revoked the bridge; its cleanup follows either way. */
    method Revoke(x: CallId, b: BridgeId) returns (modified: bool)
      requires x in revoking && revoking[x] == RevokeOne(b)
      modifies this
      ensures View() == Next(old(View()), ApplyRevocation(x)) && (modified <==> b in old(active))
    {
      modified := b in active;
      if modified {
        active, revoked := active - {b}, revoked + {b};
      }
      assert revoked == old(revoked) + old(active) * {b} && active == old(active) - {b};
      revoking := revoking[x := Cleaning(revoked * {b}, {b})];
    }

    method RevokeEveryBridge(x: CallId)
      requires x in revoking && revoking[x] == RevokeAll
      modifies this
      ensures View() == Next(old(View()), ApplyRevocation(x))
    {
      active, revoked := {}, revoked + active;
      revoking := revoking[x := FindCandidates(revoked)];
    }

    method FindBridgeLocalOwnerIds(x: CallId)
      requires x in revoking && revoking[x].FindCandidates?
      modifies this
      ensures View() == Next(old(View()), ReadCandidates(x))
    {
      revoking := revoking[x := FilterRevoked(revoking[x].covered, rows.Keys)];
    }

    method FindRevokedIds(x: CallId)
      requires x in revoking && revoking[x].FilterRevoked?
      modifies this
      ensures View() == Next(old(View()), ReadRevoked(x))
    {
      revoking := revoking[x := Cleaning(revoking[x].covered, revoking[x].candidates * revoked)];
    }

    method DeleteCleaned(x: CallId)
      requires x in revoking && revoking[x].Cleaning?
      modifies this
      ensures View() == Next(old(View()), Clean(x))
    {
      DeleteByBridges(revoking[x].ids);
      revoking := revoking[x := Cleaned(revoking[x].covered)];
    }
  }

  // ----- the words sent along with a transcription -----

  const PROMPT_PREFIX := "The following terms may appear in the audio: "
  const PROMPT_SUFFIX := "."
  const MAX_CONTEXT_CHARACTERS := 8_000

  function Joined(words: seq<Word>): string {
    if |words| == 0 then ""
    else if |words| == 1 then words[0]
    else Joined(words[..|words| - 1]) + ", " + words[|words| - 1]
  }

  function RenderedPrompt(words: seq<Word>): string {
    PROMPT_PREFIX + Joined(words) + PROMPT_SUFFIX
  }

  lemma {:induction false} LongerListsJoinLonger(words: seq<Word>, m: nat, n: nat)
    requires m <= n <= |words|
    ensures |Joined(words[..m])| <= |Joined(words[..n])|
    decreases n - m
  {
    if m < n {
      LongerListsJoinLonger(words, m, n - 1);
      assert words[..n][..n - 1] == words[..n - 1];
    }
  }

  /**
   * Words are taken in order until one no longer fits: the longest prefix whose rendered prompt stays
   * within the context limit.
   */
  method GetContextWords(sorted: seq<Word>) returns (context: seq<Word>)
    ensures context <= sorted
    ensures |RenderedPrompt(context)| <= 8_000
    ensures forall m :: |context| < m <= |sorted| ==> |RenderedPrompt(sorted[..m])| > 8_000
  {
    var budget := MAX_CONTEXT_CHARACTERS - |PROMPT_PREFIX| - |PROMPT_SUFFIX|;
    context := [];
    var length := 0;
    var i := 0;
    while i < |sorted|
      invariant 0 <= i <= |sorted| && context == sorted[..i]
      invariant length == |Joined(context)| <= budget
    {
      var word := sorted[i];
      var nextLength := length + (if |context| == 0 then 0 else 2) + |word|;
      assert sorted[..i + 1] == context + [word];
      assert (context + [word])[..i] == context;
      assert |Joined(context + [word])| == nextLength;
      if nextLength > budget {
        forall m | i < m <= |sorted| ensures |RenderedPrompt(sorted[..m])| > MAX_CONTEXT_CHARACTERS {
          LongerListsJoinLonger(sorted, i + 1, m);
        }
        return;
      }
      context := context + [word];
      length := nextLength;
      i := i + 1;
    }
  }
}
