/**
 * Bounding a provider transcript: the longest prefix, cut between code points, whose JSON-escaped UTF-8
 * form fits what is left of the byte budget of one public event. Text is a sequence of UTF-16 units;
 * escaping follows section 7 of RFC 8259 and byte lengths section 3 of RFC 3629.
 */
module TranscriptBound {
  import opened Prelude

  newtype Unit = u: int | 0 <= u < 0x1_0000
  type Text = seq<Unit>

  predicate IsHigh(u: Unit) { 0xD800 <= u <= 0xDBFF }
  predicate IsLow(u: Unit) { 0xDC00 <= u <= 0xDFFF }

  /** The number of units of the first code point; an unpaired surrogate stands alone. */
  function Width(t: Text): nat
    requires t != []
  {
    if |t| >= 2 && IsHigh(t[0]) && IsLow(t[1]) then 2 else 1
  }

  predicate IsPoint(p: Text) {
    p != [] && Width(p) == |p|
  }

  function CodePoints(t: Text): seq<Text> {
    if t == [] then [] else [t[..Width(t)]] + CodePoints(t[Width(t)..])
  }

  function Join(points: seq<Text>): Text {
    if points == [] then [] else points[0] + Join(points[1..])
  }

  // ----- JSON.stringify and Buffer.byteLength -----

  const QUOTE: Unit := 0x22
  const BACKSLASH: Unit := 0x5C
  const SMALL_U: Unit := 0x75

  function HexDigit(n: Unit): Unit
    requires n < 16
  {
    if n < 10 then 0x30 + n else 0x61 + n - 10
  }

  function UnicodeEscape(u: Unit): Text {
    [BACKSLASH, SMALL_U, HexDigit(u / 0x1000), HexDigit(u / 0x100 % 16), HexDigit(u / 0x10 % 16), HexDigit(u % 16)]
  }

  function EscapePoint(p: Text): Text
    requires IsPoint(p)
  {
    if |p| == 2 then p
    else if p[0] == 0x08 then [BACKSLASH, 0x62]
    else if p[0] == 0x09 then [BACKSLASH, 0x74]
    else if p[0] == 0x0A then [BACKSLASH, 0x6E]
    else if p[0] == 0x0C then [BACKSLASH, 0x66]
    else if p[0] == 0x0D then [BACKSLASH, 0x72]
    else if p[0] == QUOTE || p[0] == BACKSLASH then [BACKSLASH, p[0]]
    else if p[0] < 0x20 || IsHigh(p[0]) || IsLow(p[0]) then UnicodeEscape(p[0])
    else p
  }

  function Escape(t: Text): Text {
    if t == [] then [] else EscapePoint(t[..Width(t)]) + Escape(t[Width(t)..])
  }

  function Stringify(t: Text): Text {
    [QUOTE] + Escape(t) + [QUOTE]
  }

  /** UTF-8 length of one code point; an unpaired surrogate is replaced by the three-byte U+FFFD. */
  function PointBytes(p: Text): nat
    requires IsPoint(p)
  {
    if |p| == 2 then 4 else if p[0] < 0x80 then 1 else if p[0] < 0x800 then 2 else 3
  }

  function ByteLength(t: Text): nat {
    if t == [] then 0 else PointBytes(t[..Width(t)]) + ByteLength(t[Width(t)..])
  }

  function EscapedByteLength(t: Text): int {
    ByteLength(Stringify(t)) - 2
  }

  // ----- the cost of a text is the sum of the costs of its code points -----

  /** Bytes of the escaped form of one code point. */
  function PointCost(p: Text): nat
    requires IsPoint(p)
  {
    if |p| == 2 then 4
    else if p[0] in {0x08, 0x09, 0x0A, 0x0C, 0x0D, QUOTE, BACKSLASH} then 2
    else if p[0] < 0x20 || IsHigh(p[0]) || IsLow(p[0]) then 6
    else if p[0] < 0x80 then 1
    else if p[0] < 0x800 then 2
    else 3
  }

  predicate ArePoints(points: seq<Text>) {
    forall p <- points :: IsPoint(p)
  }

  function Cost(points: seq<Text>): nat
    requires ArePoints(points)
  {
    if points == [] then 0 else PointCost(points[0]) + Cost(points[1..])
  }

  /** Cutting between a high and a low surrogate is the one way to break a code point. */
  predicate CutsPair(t: Text, n: nat) {
    0 < n < |t| && IsHigh(t[n - 1]) && IsLow(t[n])
  }

  lemma {:induction false} ByteLengthAppend(a: Text, b: Text)
    requires a == [] || b == [] || !(IsHigh(a[|a| - 1]) && IsLow(b[0]))
    ensures ByteLength(a + b) == ByteLength(a) + ByteLength(b)
  {
    if a == [] {
      assert a + b == b;
    } else if b == [] {
      assert a + b == a;
    } else {
      var w := Width(a);
      assert Width(a + b) == w && (a + b)[..w] == a[..w] && (a + b)[w..] == a[w..] + b;
      ByteLengthAppend(a[w..], b);
    }
  }

  predicate IsAscii(t: Text) {
    forall i :: 0 <= i < |t| ==> t[i] < 0x80
  }

  lemma {:induction false} AsciiBytes(t: Text)
    requires IsAscii(t)
    ensures ByteLength(t) == |t|
  {
    if t != [] {
      AsciiBytes(t[1..]);
    }
  }

  lemma EscapedPointCost(p: Text)
    requires IsPoint(p)
    ensures ByteLength(EscapePoint(p)) == PointCost(p) && 1 <= PointCost(p) <= 6
    ensures EscapePoint(p) != [] && !IsLow(EscapePoint(p)[0]) && !IsHigh(EscapePoint(p)[|EscapePoint(p)| - 1])
  {
    var e := EscapePoint(p);
    if |p| == 2 {
      assert p[..2] == p && p[2..] == [];
    } else if e == p {
      assert p[..1] == p && p[1..] == [];
    } else {
      AsciiBytes(e);
    }
  }

  lemma {:induction false} PointsArePoints(t: Text)
    ensures ArePoints(CodePoints(t)) && Join(CodePoints(t)) == t && |CodePoints(t)| <= |t|
  {
    if t != [] {
      PointsArePoints(t[Width(t)..]);
      assert IsPoint(t[..Width(t)]);
    }
  }

  lemma EscapeStartsWhole(t: Text)
    ensures Escape(t) == [] || !IsLow(Escape(t)[0])
  {
    if t != [] { EscapedPointCost(t[..Width(t)]); }
  }

  lemma {:induction false} EscapeCost(t: Text)
    requires ArePoints(CodePoints(t))
    ensures ByteLength(Escape(t)) == Cost(CodePoints(t))
    ensures Escape(t) == [] || !IsHigh(Escape(t)[|Escape(t)| - 1])
  {
    if t != [] {
      var p, rest := t[..Width(t)], t[Width(t)..];
      assert CodePoints(t)[0] == p && CodePoints(t)[1..] == CodePoints(rest);
      hide EscapePoint, PointCost, ByteLength, IsHigh, IsLow;
      EscapeCost(rest);
      EscapedPointCost(p);
      EscapeStartsWhole(rest);
      ByteLengthAppend(EscapePoint(p), Escape(rest));
    }
  }

  /** The escaped length is additive over code points. */
  lemma EscapedLengthIsCost(t: Text)
    ensures ArePoints(CodePoints(t)) && EscapedByteLength(t) == Cost(CodePoints(t))
  {
    PointsArePoints(t);
    EscapeCost(t);
    EscapeStartsWhole(t);
    AsciiBytes([QUOTE]);
    ByteLengthAppend([QUOTE], Escape(t));
    var open := [QUOTE] + Escape(t);
    ByteLengthAppend(open, [QUOTE]);
  }

  // ----- the escaped form can be read back -----

  function HexValue(u: Unit): Option<int> {
    if 0x30 <= u <= 0x39 then Some(u as int - 0x30)
    else if 0x61 <= u <= 0x66 then Some(u as int - 0x61 + 10)
    else None
  }

  /** The unit that four hexadecimal digits denote. */
  function HexUnit(t: Text): Option<Unit>
    requires |t| == 4
  {
    var a, b, c, d := HexValue(t[0]), HexValue(t[1]), HexValue(t[2]), HexValue(t[3]);
    if a.Some? && b.Some? && c.Some? && d.Some?
       && 0 <= a.value * 0x1000 + b.value * 0x100 + c.value * 0x10 + d.value < 0x1_0000
    then Some((a.value * 0x1000 + b.value * 0x100 + c.value * 0x10 + d.value) as Unit)
    else None
  }

  function ShortEscape(u: Unit): Option<Unit> {
    if u == 'b' as Unit then Some(8)
    else if u == 't' as Unit then Some(9)
    else if u == 'n' as Unit then Some(10)
    else if u == 'f' as Unit then Some(12)
    else if u == 'r' as Unit then Some(13)
    else if u == '"' as Unit || u == '\\' as Unit || u == '/' as Unit then Some(u)
    else None
  }

  /** How section 7 of RFC 8259 reads the inside of a string: no bare quote and no bare control character. */
  function Unescape(t: Text): Option<Text>
    decreases |t|
  {
    if t == [] then Some([])
    else if t[0] == '"' as Unit || t[0] < 0x20 then None
    else if t[0] != '\\' as Unit then After([t[0]], Unescape(t[1..]))
    else if |t| >= 6 && t[1] == 'u' as Unit && HexUnit(t[2..6]).Some? then After([HexUnit(t[2..6]).value], Unescape(t[6..]))
    else if |t| >= 2 && ShortEscape(t[1]).Some? then After([ShortEscape(t[1]).value], Unescape(t[2..]))
    else None
  }

  function After(first: Text, rest: Option<Text>): Option<Text> {
    if rest.Some? then Some(first + rest.value) else None
  }

  lemma HexReadsBack(u: Unit)
    ensures HexUnit(UnicodeEscape(u)[2..6]) == Some(u)
  {
    DigitReadsBack(u / 0x1000);
    DigitReadsBack(u / 0x100 % 16);
    DigitReadsBack(u / 0x10 % 16);
    DigitReadsBack(u % 16);
    DigitsAddUp(u as int);
    hide HexValue, HexDigit;
  }

  lemma DigitReadsBack(n: Unit)
    requires n < 16
    ensures HexValue(HexDigit(n)) == Some(n as int)
  {}

  lemma DigitsAddUp(u: nat)
    requires u < 0x1_0000
    ensures u == u / 0x1000 * 0x1000 + u / 0x100 % 16 * 0x100 + u / 0x10 % 16 * 0x10 + u % 16
  {
    DivideTwice(u, 0x10);
    DivideTwice(u, 0x100);
    var a, b, c := u / 0x10, u / 0x100, u / 0x1000;
    assert u == a * 16 + u % 16;
    assert a == b * 16 + a % 16;
    assert b == c * 16 + b % 16;
  }

  lemma DivideTwice(u: nat, unit: nat)
    requires unit == 0x10 || unit == 0x100
    ensures u / unit / 16 == u / (unit * 16)
  {}

  lemma PointReadsBack(p: Text, rest: Text)
    requires IsPoint(p)
    ensures Unescape(EscapePoint(p) + rest) == After(p, Unescape(rest))
  {
    var e := EscapePoint(p);
    var whole := e + rest;
    if |p| == 2 {
      assert whole[0] == p[0] && whole[1..][0] == p[1] && whole[1..][1..] == rest && whole[1..] != [];
      assert p == [p[0]] + [p[1]];
      if Unescape(rest).Some? { assert p + Unescape(rest).value == [p[0]] + ([p[1]] + Unescape(rest).value); }
    } else {
      assert p == [p[0]];
      if |e| == 6 {
        HexReadsBack(p[0]);
        assert whole[2..6] == e[2..6] && whole[6..] == rest && whole[1] == 'u' as Unit;
        hide HexUnit, UnicodeEscape;
      } else if |e| == 2 {
        assert whole[2..] == rest && whole[0] == BACKSLASH && whole[1] == e[1];
      } else {
        assert whole[1..] == rest && whole[0] == p[0];
      }
    }
  }

  /** Escaping loses nothing: what is sent can be read back exactly, unpaired surrogates included. */
  lemma {:induction false} EscapeReadsBack(t: Text)
    ensures Unescape(Escape(t)) == Some(t)
  {
    if t != [] {
      var w := Width(t);
      EscapeReadsBack(t[w..]);
      assert IsPoint(t[..w]);
      PointReadsBack(t[..w], Escape(t[w..]));
      hide EscapePoint, Unescape;
      assert t == t[..w] + t[w..];
    }
  }

  /** The surrogates are the 2,048 units from 0xD800 on, the first half of them high; a pair needs four bytes, a unit up to three. */
  lemma SurrogatesAndBytes(u: Unit, v: Unit)
    ensures IsHigh(u) <==> u as int / 0x400 == 0x36
    ensures IsLow(u) <==> u as int / 0x400 == 0x37
    ensures IsPoint([u]) && PointBytes([u]) == if u < 128 then 1 else if u < 2_048 then 2 else 3
    ensures IsPoint([u, v]) <==> IsHigh(u) && IsLow(v)
    ensures IsPoint([u, v]) ==> PointBytes([u, v]) == 4
  {}

  // ----- prefixes -----

  lemma Regroup(a: Text, b: Text, c: Text)
    ensures a + (b + c) == a + b + c
  {}

  lemma {:induction false} JoinAppend(a: seq<Text>, b: seq<Text>)
    ensures Join(a + b) == Join(a) + Join(b)
  {
    if a == [] {
      assert a + b == b;
    } else {
      var first, rest := a[0], a[1..];
      JoinAppend(rest, b);
      JoinCons(first, rest);
      JoinCons(first, rest + b);
      assert a == [first] + rest && a + b == [first] + (rest + b);
      hide Join;
      Regroup(first, Join(rest), Join(b));
    }
  }

  lemma JoinCons(first: Text, rest: seq<Text>)
    ensures Join([first] + rest) == first + Join(rest)
  {
    assert ([first] + rest)[1..] == rest;
  }

  /** A non-empty prefix of code points is the first one and a prefix of the others. */
  lemma FirstPoint(t: Text, k: nat)
    requires t != [] && 0 < k <= |CodePoints(t)|
    ensures k - 1 <= |CodePoints(t[Width(t)..])|
    ensures CodePoints(t)[..k] == [t[..Width(t)]] + CodePoints(t[Width(t)..])[..k - 1]
    ensures Join(CodePoints(t)[..k]) == t[..Width(t)] + Join(CodePoints(t[Width(t)..])[..k - 1])
  {
    assert CodePoints(t)[..k] == [t[..Width(t)]] + CodePoints(t[Width(t)..])[..k - 1];
    hide CodePoints;
    JoinCons(t[..Width(t)], CodePoints(t[Width(t)..])[..k - 1]);
  }

  /** A code point in front of a text whose cut does not move. */
  lemma CutMoves(t: Text, n: nat)
    requires t != [] && n <= |t| - Width(t)
    ensures CutsPair(t[Width(t)..], n) <==> n > 0 && CutsPair(t, Width(t) + n)
    ensures !CutsPair(t, Width(t))
  {}

  /** A text and its prefix read the same first code point. */
  lemma ReadsAlike(t: Text, p: Text, shorter: Text)
    requires t != [] && p == t[..Width(t)] && shorter <= t[Width(t)..]
    ensures p + shorter <= t && Width(p + shorter) == Width(t)
    ensures (p + shorter)[..Width(t)] == p && (p + shorter)[Width(t)..] == shorter
    ensures CodePoints(p + shorter) == [p] + CodePoints(shorter)
  {}

  /** The first k code points of a text, read again, are those k code points; and they end between code points. */
  lemma {:induction false} PrefixReparses(t: Text, k: nat)
    requires k <= |CodePoints(t)|
    ensures var prefix := Join(CodePoints(t)[..k]);
            prefix <= t && CodePoints(prefix) == CodePoints(t)[..k] && !CutsPair(t, |prefix|)
  {
    if k > 0 {
      var w := Width(t);
      var p, rest := t[..w], t[w..];
      FirstPoint(t, k);
      var shorter := Join(CodePoints(rest)[..k - 1]);
      var prefix := Join(CodePoints(t)[..k]);
      PrefixReparses(rest, k - 1);
      CutMoves(t, |shorter|);
      hide Join, CutsPair;
      assert t == p + rest;
      ReadsAlike(t, p, shorter);
    }
  }

  lemma TakeInTwo(t: Text, w: nat, n: nat)
    requires w <= n <= |t|
    ensures t[..n] == t[..w] + t[w..][..n - w]
  {
    assert t[w..][..n - w] == t[w..n];
  }

  /** Conversely, a prefix that cuts no pair consists of whole code points. */
  lemma {:induction false} UncutPrefixIsPoints(t: Text, n: nat) returns (k: nat)
    requires n <= |t| && !CutsPair(t, n)
    ensures k <= |CodePoints(t)| && Join(CodePoints(t)[..k]) == t[..n]
  {
    if n == 0 {
      k := 0;
    } else {
      var w := Width(t);
      assert 1 <= w <= n <= |t|;
      CutMoves(t, n - w);
      var j := UncutPrefixIsPoints(t[w..], n - w);
      k := j + 1;
      FirstPoint(t, k);
      hide Join, CodePoints, CutsPair;
      TakeInTwo(t, w, n);
    }
  }

  // ----- the bound -----

  const MAX_REALTIME_EVENT_BYTES := 65_536
  const MAX_REALTIME_TRANSCRIPT_CHARACTERS := 32_768

  function SliceToCharacterCap(t: Text, max: nat): Text
    requires max > 0
  {
    if |t| <= max then t else if IsHigh(t[max - 1]) then t[..max - 1] else t[..max]
  }

  /** How many code points fit, taken one by one from the front. */
  function Fitting(points: seq<Text>, max: int): nat
    requires ArePoints(points)
  {
    if points == [] || PointCost(points[0]) > max then 0 else 1 + Fitting(points[1..], max - PointCost(points[0]))
  }

  function Capped(t: Text): Text {
    SliceToCharacterCap(t, MAX_REALTIME_TRANSCRIPT_CHARACTERS)
  }

  function Bounded(t: Text, max: int): Text {
    PointsArePoints(Capped(t));
    Join(CodePoints(Capped(t))[..Min(Fitting(CodePoints(Capped(t)), max), |CodePoints(Capped(t))|)])
  }

  /** The cap itself never cuts a pair. */
  lemma CapCutsNoPair(t: Text, max: nat)
    requires max > 0
    ensures var capped := SliceToCharacterCap(t, max);
            && capped <= t && |capped| <= max && !CutsPair(t, |capped|) && (capped == t <==> |t| <= max)
  {}

  /** It cuts no more than it must: at the cap, or one unit before it when a high surrogate ends there. */
  lemma CapIsTight(t: Text, max: nat)
    requires max > 0 && |t| > max
    ensures |SliceToCharacterCap(t, max)| == if IsHigh(t[max - 1]) then max - 1 else max
  {}

  lemma {:induction false} FittingIsLongest(points: seq<Text>, max: int, k: nat)
    requires ArePoints(points) && k <= |points|
    ensures Fitting(points, max) <= |points|
    ensures max >= 0 ==> ArePoints(points[..k]) && (k <= Fitting(points, max) <==> Cost(points[..k]) <= max)
    ensures max <= 0 ==> Fitting(points, max) == 0
  {
    if points != [] {
      EscapedPointCost(points[0]);
      var rest := points[1..];
      if k > 0 {
        assert points[..k][1..] == rest[..k - 1];
        assert points[..k][0] == points[0];
      }
      if PointCost(points[0]) <= max {
        FittingIsLongest(rest, max - PointCost(points[0]), if k > 0 then k - 1 else 0);
      }
    }
  }

  /** Of the capped text, the bound keeps the longest prefix that cuts no pair and fits the budget. */
  lemma BoundedIsLongest(t: Text, max: int)
    ensures var bounded := Bounded(t, max);
            && bounded <= Capped(t) <= t
            && !CutsPair(Capped(t), |bounded|) && !CutsPair(t, |bounded|)
            && EscapedByteLength(bounded) <= Max(max, 0)
            && forall n :: 0 <= n <= |Capped(t)| && !CutsPair(Capped(t), n) && EscapedByteLength(Capped(t)[..n]) <= max ==> n <= |bounded|
  {
    hide SliceToCharacterCap, CodePoints, EscapedByteLength;
    var capped, bounded := Capped(t), Bounded(t, max);
    var points := CodePoints(capped);
    CapCutsNoPair(t, MAX_REALTIME_TRANSCRIPT_CHARACTERS);
    PointsArePoints(capped);
    var k := Fitting(points, max);
    FittingIsLongest(points, max, 0);
    FittingIsLongest(points, max, k);
    PrefixReparses(capped, k);
    EscapedLengthIsCost(bounded);
    assert max <= 0 ==> bounded == [];
    assert EscapedByteLength(bounded) <= Max(max, 0) by { assert max < 0 ==> Cost([]) == 0; }
    if |bounded| < |capped| {
      assert !CutsPair(t, |bounded|);
    } else {
      assert bounded == capped;
    }
    forall n | 0 <= n <= |capped| && !CutsPair(capped, n) && EscapedByteLength(capped[..n]) <= max ensures n <= |bounded| {
      FittingPrefixIsShorter(capped, max, n);
    }
  }

  lemma FittingPrefixIsShorter(t: Text, max: int, n: nat)
    requires n <= |t| && !CutsPair(t, n) && EscapedByteLength(t[..n]) <= max
    ensures ArePoints(CodePoints(t)) && Fitting(CodePoints(t), max) <= |CodePoints(t)|
    ensures n <= |Join(CodePoints(t)[..Fitting(CodePoints(t), max)])|
  {
    hide EscapedByteLength, CutsPair;
    PointsArePoints(t);
    var points := CodePoints(t);
    var k := Fitting(points, max);
    FittingIsLongest(points, max, 0);
    var j := UncutPrefixIsPoints(t, n);
    PrefixReparses(t, j);
    EscapedLengthIsCost(t[..n]);
    FittingIsLongest(points, max, j);
    EscapedLengthIsNatural(t[..n]);
    hide Fitting, CodePoints;
    JoinAppend(points[..j], points[j..k]);
    assert points[..k] == points[..j] + points[j..k];
  }

  lemma EscapedLengthIsNatural(t: Text)
    ensures EscapedByteLength(t) >= 0
  {
    EscapedLengthIsCost(t);
  }

  lemma BoundedUnchanged(t: Text, max: int)
    requires max >= 0
    ensures Bounded(t, max) == t <==> |t| <= 32_768 && EscapedByteLength(t) <= max
  {
    BoundedIsLongest(t, max);
    CapCutsNoPair(t, MAX_REALTIME_TRANSCRIPT_CHARACTERS);
    if |t| <= MAX_REALTIME_TRANSCRIPT_CHARACTERS && EscapedByteLength(t) <= max {
      assert Capped(t)[..|t|] == t;
      assert |t| <= |Bounded(t, max)|;
    }
  }

  /** The binary search over the number of code points finds the same prefix. */
  method BoundToEscapedBytes(t: Text, maxBytes: int) returns (bounded: Text, bytes: int)
    ensures bounded == Bounded(t, maxBytes) && bytes == EscapedByteLength(bounded)
  {
    var capped := SliceToCharacterCap(t, MAX_REALTIME_TRANSCRIPT_CHARACTERS);
    ghost var points := CodePoints(capped);
    PointsArePoints(capped);
    FittingIsLongest(points, maxBytes, 0);
    if maxBytes <= 0 {
      return [], 0;
    }
    var cappedBytes := EscapedByteLength(capped);
    EscapedLengthIsCost(capped);
    if cappedBytes <= maxBytes {
      assert points[..|points|] == points;
      FittingIsLongest(points, maxBytes, |points|);
      return capped, cappedBytes;
    }
    var codePoints := CodePoints(capped);
    var fitting, beyond := 0, |codePoints|;
    while fitting < beyond
      invariant 0 <= fitting <= Fitting(points, maxBytes) <= beyond <= |codePoints|
      decreases beyond - fitting
    {
      var candidate := (fitting + beyond + 1) / 2;
      PrefixReparses(capped, candidate);
      EscapedLengthIsCost(Join(codePoints[..candidate]));
      FittingIsLongest(points, maxBytes, candidate);
      if EscapedByteLength(Join(codePoints[..candidate])) <= maxBytes {
        fitting := candidate;
      } else {
        beyond := candidate - 1;
      }
    }
    bounded := Join(codePoints[..fitting]);
    bytes := EscapedByteLength(bounded);
  }

  // ----- the event -----

  datatype Transcript = Transcript(confirmedDelta: Text, provisional: Text)

  function Ascii(s: string): (t: Text)
    requires forall i :: 0 <= i < |s| ==> s[i] < 128 as char
    ensures |t| == |s| && IsAscii(t)
  {
    seq(|s|, i requires 0 <= i < |s| => s[i] as int as Unit)
  }

  const BEFORE_CONFIRMED := "{\"type\":\"transcript\",\"confirmedDelta\":"
  const BEFORE_PROVISIONAL := ",\"provisional\":"
  const AFTER_PROVISIONAL := "}"

  /** The event as JSON.stringify writes it. */
  function Serialized(e: Transcript): Text {
    Ascii(BEFORE_CONFIRMED) + Stringify(e.confirmedDelta) + Ascii(BEFORE_PROVISIONAL) + Stringify(e.provisional) + Ascii(AFTER_PROVISIONAL)
  }

  const SCAFFOLDING_BYTES: int := |BEFORE_CONFIRMED| + |BEFORE_PROVISIONAL| + |AFTER_PROVISIONAL| + 4
  const BUDGET_BYTES: int := MAX_REALTIME_EVENT_BYTES - SCAFFOLDING_BYTES

  lemma StringifyStartsAndEndsQuoted(t: Text)
    ensures Stringify(t)[0] == QUOTE && Stringify(t)[|Stringify(t)| - 1] == QUOTE
  {}

  /** Serialized, an event costs the fixed scaffolding plus the escaped body of each field. */
  lemma SerializedBytes(e: Transcript)
    ensures ByteLength(Serialized(e)) == SCAFFOLDING_BYTES + EscapedByteLength(e.confirmedDelta) + EscapedByteLength(e.provisional)
  {
    var a, b, c := Ascii(BEFORE_CONFIRMED), Ascii(BEFORE_PROVISIONAL), Ascii(AFTER_PROVISIONAL);
    AsciiBytes(a);
    AsciiBytes(b);
    AsciiBytes(c);
    var first, second := Stringify(e.confirmedDelta), Stringify(e.provisional);
    StringifyStartsAndEndsQuoted(e.confirmedDelta);
    StringifyStartsAndEndsQuoted(e.provisional);
    hide Stringify, ByteLength, Ascii;
    ByteLengthAppend(a, first);
    ByteLengthAppend(a + first, b);
    ByteLengthAppend(a + first + b, second);
    ByteLengthAppend(a + first + b + second, c);
  }

  function BoundTranscript(e: Transcript): Transcript {
    var confirmed := Bounded(e.confirmedDelta, BUDGET_BYTES);
    Transcript(confirmed, Bounded(e.provisional, BUDGET_BYTES - EscapedByteLength(confirmed)))
  }

  /** Confirmed text spends the shared budget first; the provisional text gets what is left. */
  method BoundRealtimeTranscript(input: Transcript) returns (bounded: Transcript)
    ensures bounded == BoundTranscript(input)
  {
    var budgetBytes := MAX_REALTIME_EVENT_BYTES - SCAFFOLDING_BYTES;
    var confirmed, confirmedBytes := BoundToEscapedBytes(input.confirmedDelta, budgetBytes);
    var provisional, _ := BoundToEscapedBytes(input.provisional, budgetBytes - confirmedBytes);
    bounded := Transcript(confirmed, provisional);
  }

  /** Both fields within the character cap, and together within the byte budget. */
  predicate Fits(e: Transcript) {
    && |e.confirmedDelta| <= MAX_REALTIME_TRANSCRIPT_CHARACTERS
    && |e.provisional| <= MAX_REALTIME_TRANSCRIPT_CHARACTERS
    && EscapedByteLength(e.confirmedDelta) + EscapedByteLength(e.provisional) <= BUDGET_BYTES
  }

  /** A bounded transcript is always emittable. */
  lemma BoundAlwaysFits(e: Transcript)
    ensures Fits(BoundTranscript(e))
    ensures ByteLength(Serialized(BoundTranscript(e))) <= 65_536
  {
    var b := BoundTranscript(e);
    BoundedIsLongest(e.confirmedDelta, BUDGET_BYTES);
    BoundedIsLongest(e.provisional, BUDGET_BYTES - EscapedByteLength(b.confirmedDelta));
    CapCutsNoPair(e.confirmedDelta, MAX_REALTIME_TRANSCRIPT_CHARACTERS);
    CapCutsNoPair(e.provisional, MAX_REALTIME_TRANSCRIPT_CHARACTERS);
    hide Bounded, EscapedByteLength, Serialized, CutsPair, Capped;
    SerializedBytes(b);
  }

  /** A prefix that cuts no pair and stays within the character cap; a high surrogate right at the cap is not kept. */
  predicate MayKeep(t: Text, n: nat) {
    n <= |t| && !CutsPair(t, n) && n <= 32_768 && (n == 32_768 < |t| ==> !IsHigh(t[n - 1]))
  }

  lemma KeepsWhatFits(t: Text, max: int, n: nat)
    requires MayKeep(t, n) && EscapedByteLength(t[..n]) <= max
    ensures n <= |Bounded(t, max)|
  {
    BoundedIsLongest(t, max);
    CapCutsNoPair(t, MAX_REALTIME_TRANSCRIPT_CHARACTERS);
    if |t| > MAX_REALTIME_TRANSCRIPT_CHARACTERS { CapIsTight(t, MAX_REALTIME_TRANSCRIPT_CHARACTERS); }
    assert n <= |Capped(t)| && Capped(t)[..n] == t[..n] && !CutsPair(Capped(t), n);
    hide Bounded, EscapedByteLength, Capped;
  }

  /**
   * Nothing that would fit is cut: of the confirmed text as much is kept as fits the event alone, and of the
   * provisional text as much as fits next to it.
   */
  lemma BoundKeepsMost(e: Transcript, n: nat)
    ensures MayKeep(e.confirmedDelta, n) && ByteLength(Serialized(Transcript(e.confirmedDelta[..n], []))) <= 65_536 ==>
              n <= |BoundTranscript(e).confirmedDelta|
    ensures MayKeep(e.provisional, n)
            && ByteLength(Serialized(Transcript(BoundTranscript(e).confirmedDelta, e.provisional[..n]))) <= 65_536 ==>
              n <= |BoundTranscript(e).provisional|
  {
    var b := BoundTranscript(e);
    EscapedLengthIsCost([]);
    if MayKeep(e.confirmedDelta, n) {
      SerializedBytes(Transcript(e.confirmedDelta[..n], []));
      if EscapedByteLength(e.confirmedDelta[..n]) <= BUDGET_BYTES { KeepsWhatFits(e.confirmedDelta, BUDGET_BYTES, n); }
    }
    if MayKeep(e.provisional, n) {
      SerializedBytes(Transcript(b.confirmedDelta, e.provisional[..n]));
      var rest := BUDGET_BYTES - EscapedByteLength(b.confirmedDelta);
      if EscapedByteLength(e.provisional[..n]) <= rest { KeepsWhatFits(e.provisional, rest, n); }
    }
    hide Bounded, EscapedByteLength, Serialized, CutsPair;
  }

  /** Each bounded field is a prefix of what came in, cut between code points. */
  lemma BoundCutsNoPair(e: Transcript)
    ensures var b := BoundTranscript(e).confirmedDelta; b <= e.confirmedDelta && !CutsPair(e.confirmedDelta, |b|)
    ensures var b := BoundTranscript(e).provisional; b <= e.provisional && !CutsPair(e.provisional, |b|)
  {
    hide Bounded, EscapedByteLength, CutsPair, Capped;
    BoundedIsLongest(e.confirmedDelta, BUDGET_BYTES);
    BoundedIsLongest(e.provisional, BUDGET_BYTES - EscapedByteLength(BoundTranscript(e).confirmedDelta));
  }

  /** Nothing is changed exactly when both fields fit. */
  lemma BoundChangesNothingThatFits(e: Transcript)
    ensures BoundTranscript(e) == e <==> Fits(e)
  {
    EscapedLengthIsNatural(e.confirmedDelta);
    EscapedLengthIsNatural(e.provisional);
    BoundedUnchanged(e.confirmedDelta, BUDGET_BYTES);
    hide Bounded, EscapedByteLength;
    if EscapedByteLength(e.confirmedDelta) <= BUDGET_BYTES {
      BoundedUnchanged(e.provisional, BUDGET_BYTES - EscapedByteLength(e.confirmedDelta));
    }
  }

  lemma BoundIsIdempotent(e: Transcript)
    ensures BoundTranscript(BoundTranscript(e)) == BoundTranscript(e)
  {
    BoundAlwaysFits(e);
    BoundChangesNothingThatFits(BoundTranscript(e));
  }

  // ----- the provider adapter and the emitter -----

  datatype Parsed = MalformedOutput | TranscriptEvent(event: Transcript)

  /** The adapter rejects, rather than trims, what the bound would change. */
  method AdmitTranscript(input: Transcript) returns (r: Parsed)
    ensures r == if Fits(input) then TranscriptEvent(input) else MalformedOutput
  {
    var bounded := BoundRealtimeTranscript(input);
    BoundChangesNothingThatFits(input);
    if bounded.confirmedDelta != input.confirmedDelta || bounded.provisional != input.provisional {
      return MalformedOutput;
    }
    r := TranscriptEvent(bounded);
  }

  predicate IsPublicEventValid(e: Transcript) {
    && ByteLength(Serialized(e)) <= MAX_REALTIME_EVENT_BYTES
    && |e.confirmedDelta| <= MAX_REALTIME_TRANSCRIPT_CHARACTERS
    && |e.provisional| <= MAX_REALTIME_TRANSCRIPT_CHARACTERS
    && (|e.confirmedDelta| > 0 || |e.provisional| > 0)
  }

  /** The emitter refuses nothing the adapter admitted, other than an event with no text at all. */
  lemma EmitterAgreesWithAdapter(e: Transcript)
    ensures IsPublicEventValid(e) <==> Fits(e) && (e.confirmedDelta != [] || e.provisional != [])
  {
    SerializedBytes(e);
    hide Serialized, EscapedByteLength;
  }
}
