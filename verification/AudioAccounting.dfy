/**
 * Byte accounting of one realtime session: how much of each client frame is forwarded to the
 * provider, when a frame is refused, and how many seconds the session is billed for.
 */
module AudioAccounting {
  import opened Prelude

  const BYTES_PER_SAMPLE := 2

  type Data = seq<bv8>

  datatype RawFormat = AudioFormat(sampleRate: nat, channels: nat)

  type AudioFormat = f: RawFormat | f.sampleRate > 0 && f.channels > 0 witness AudioFormat(16000, 1)

  function SampleBytes(f: AudioFormat): (n: nat)
    ensures n > 0
  {
    f.channels * BYTES_PER_SAMPLE
  }

  function BytesPerSecond(f: AudioFormat): (n: nat)
    ensures n > 0
    ensures n % SampleBytes(f) == 0
  {
    MultipleIsAligned(f.sampleRate, SampleBytes(f));
    assert f.sampleRate * SampleBytes(f) > 0 by { MulPositive(f.sampleRate, SampleBytes(f)); }
    f.sampleRate * SampleBytes(f)
  }

  function CapBytes(f: AudioFormat, limitSeconds: nat): (n: nat)
    ensures n % SampleBytes(f) == 0
  {
    ProductIsAligned(limitSeconds, BytesPerSecond(f), SampleBytes(f));
    limitSeconds * BytesPerSecond(f)
  }

  predicate IsAlignedPcm(byteLength: nat, f: AudioFormat) {
    byteLength > 0 && byteLength % BYTES_PER_SAMPLE == 0 && byteLength % SampleBytes(f) == 0
  }

  function AcceptedFrameBytes(byteLength: nat, f: AudioFormat, attemptedBytes: nat, limitSeconds: nat): nat {
    var accepted := Min(byteLength, Max(0, CapBytes(f, limitSeconds) - attemptedBytes));
    RemainderAtMost(accepted, SampleBytes(f));
    accepted - accepted % SampleBytes(f)
  }

  predicate ReachedAudioLimit(f: AudioFormat, attemptedBytes: nat, limitSeconds: nat) {
    attemptedBytes >= CapBytes(f, limitSeconds)
  }

  function AllowedBytes(f: AudioFormat, elapsedMs: int, burstSeconds: nat): nat {
    Max(0, elapsedMs) * BytesPerSecond(f) / 1000 + burstSeconds * BytesPerSecond(f)
  }

  predicate ExceedsRealtimePace(byteLength: nat, f: AudioFormat, attemptedBytes: nat, elapsedMs: int, burstSeconds: nat) {
    attemptedBytes + byteLength > AllowedBytes(f, elapsedMs, burstSeconds)
  }

  function Ceiling(x: real): (n: int)
    ensures n as real >= x && n as real < x + 1.0
  {
    -((-x).Floor)
  }

  function MaxReal(x: real, y: real): real { if x >= y then x else y }

  function BillableSeconds(attemptedBytes: nat, f: AudioFormat, providerProgressMs: real): int {
    var acceptedMs := attemptedBytes as real / BytesPerSecond(f) as real * 1000.0;
    Ceiling(MaxReal(acceptedMs, providerProgressMs) / 1000.0)
  }

  // ----- one frame -----

  /** A client frame together with the clock and the provider's answer at the moment it is handled. */
  datatype Frame = Frame(data: Data, elapsedMs: int, providerFails: bool)

  datatype FrameResult =
    | Sent(attemptedBytes: nat, reachedLimit: bool)
    | Limit
    | Invalid
    | Pace
    | ProviderError

  datatype Policy = Policy(format: AudioFormat, limitSeconds: nat, burstSeconds: nat)

  function AcceptedPrefix(p: Policy, attemptedBytes: nat, data: Data): (prefix: Data)
    ensures prefix <= data
  {
    data[..AcceptedFrameBytes(|data|, p.format, attemptedBytes, p.limitSeconds)]
  }

  function SendFrame(p: Policy, attemptedBytes: nat, frame: Frame): FrameResult {
    if !IsAlignedPcm(|frame.data|, p.format) then Invalid
    else
      var aligned := AcceptedFrameBytes(|frame.data|, p.format, attemptedBytes, p.limitSeconds);
      if aligned <= 0 then Limit
      else if ExceedsRealtimePace(aligned, p.format, attemptedBytes, frame.elapsedMs, p.burstSeconds) then Pace
      else if frame.providerFails then ProviderError
      else
        Sent(attemptedBytes + aligned, ReachedAudioLimit(p.format, attemptedBytes + aligned, p.limitSeconds))
  }

  // ----- what one frame guarantees -----

  lemma MulPositive(a: nat, b: nat)
    requires a > 0 && b > 0
    ensures a * b > 0
  {}

  lemma RemainderAtMost(a: nat, unit: nat)
    requires unit > 0
    ensures a % unit <= a
  {}

  lemma MultipleIsAligned(a: nat, b: nat)
    requires b > 0
    ensures (a * b) % b == 0
    decreases a
  {
    if a > 0 {
      MultipleIsAligned(a - 1, b);
      assert a * b == (a - 1) * b + b;
      AlignedSum((a - 1) * b, b, b);
    }
  }

  lemma MultipleHasNoRemainder(k: int, unit: nat, n: int)
    requires unit > 0 && n == k * unit
    ensures n % unit == 0
  {
    var d := k - n / unit;
    assert n == n / unit * unit + n % unit;
    assert d * unit == n % unit;
    StepsOfUnit(d, unit);
  }

  lemma StepsOfUnit(d: int, unit: nat)
    ensures d > 0 ==> d * unit >= unit
    ensures d < 0 ==> d * unit <= 0 - unit
  {}

  lemma AlignedSum(a: nat, b: nat, unit: nat)
    requires unit > 0 && a % unit == 0 && b % unit == 0
    ensures (a + b) % unit == 0
    ensures a >= b ==> (a - b) % unit == 0
  {
    MultipleHasNoRemainder(a / unit + b / unit, unit, a + b);
    if a >= b {
      MultipleHasNoRemainder(a / unit - b / unit, unit, a - b);
    }
  }

  lemma ProductIsAligned(a: nat, b: nat, unit: nat)
    requires unit > 0 && b % unit == 0
    ensures (a * b) % unit == 0
    decreases a
  {
    if a > 0 {
      ProductIsAligned(a - 1, b, unit);
      assert a * b == (a - 1) * b + b;
      AlignedSum((a - 1) * b, b, unit);
    }
  }

  /** With an aligned count so far, the accepted part of an aligned frame is cut only by the cap, and on a sample. */
  lemma AcceptedIsExact(p: Policy, attempted: nat, byteLength: nat)
    requires attempted % SampleBytes(p.format) == 0
    requires IsAlignedPcm(byteLength, p.format)
    ensures var cap := CapBytes(p.format, p.limitSeconds);
            AcceptedFrameBytes(byteLength, p.format, attempted, p.limitSeconds) == Min(byteLength, Max(0, cap - attempted))
    ensures AcceptedFrameBytes(byteLength, p.format, attempted, p.limitSeconds) % SampleBytes(p.format) == 0
  {
    var cap := CapBytes(p.format, p.limitSeconds);
    if attempted <= cap {
      AlignedSum(cap, attempted, SampleBytes(p.format));
    }
  }

  /**
   * The outcome of every frame, decided by the payload, the cap and the clock: refused as malformed, as
   * exactly at the cap, as running more than the burst ahead of real time, or forwarded up to the cap.
   */
  lemma FrameOutcome(p: Policy, attempted: nat, frame: Frame)
    requires attempted % SampleBytes(p.format) == 0
    requires attempted <= CapBytes(p.format, p.limitSeconds)
    ensures var cap := CapBytes(p.format, p.limitSeconds);
            var size := |AcceptedPrefix(p, attempted, frame.data)|;
            match SendFrame(p, attempted, frame)
            case Invalid => !IsAlignedPcm(|frame.data|, p.format)
            case Limit => IsAlignedPcm(|frame.data|, p.format) && attempted == cap
            case Pace =>
              && IsAlignedPcm(|frame.data|, p.format) && size > 0
              && attempted + size > AllowedBytes(p.format, frame.elapsedMs, p.burstSeconds)
            case ProviderError =>
              && IsAlignedPcm(|frame.data|, p.format) && size > 0
              && attempted + size <= AllowedBytes(p.format, frame.elapsedMs, p.burstSeconds) && frame.providerFails
            case Sent(total, reached) =>
              && IsAlignedPcm(|frame.data|, p.format) && size > 0 && !frame.providerFails
              && total == attempted + size == Min(attempted + |frame.data|, cap)
              && total % SampleBytes(p.format) == 0
              && total <= AllowedBytes(p.format, frame.elapsedMs, p.burstSeconds)
              && (reached <==> total == cap)
              && (size < |frame.data| ==> total == cap)
  {
    if IsAlignedPcm(|frame.data|, p.format) {
      AcceptedIsExact(p, attempted, |frame.data|);
      AlignedSum(attempted, AcceptedFrameBytes(|frame.data|, p.format, attempted, p.limitSeconds), SampleBytes(p.format));
    }
  }

  /**
   * A frame is refused for pace exactly when the bytes it would forward put the session further ahead
   * of real time than the burst; measured in real numbers, so rounding never refuses a frame that fits.
   */
  lemma PaceIsExact(p: Policy, attempted: nat, size: nat, elapsedMs: int)
    ensures ExceedsRealtimePace(size, p.format, attempted, elapsedMs, p.burstSeconds) <==>
            (attempted + size) as real >
            Max(0, elapsedMs) as real * BytesPerSecond(p.format) as real / 1000.0
            + (p.burstSeconds * BytesPerSecond(p.format)) as real
  {
    var worth := Max(0, elapsedMs) * BytesPerSecond(p.format);
    var ahead: int := attempted + size - p.burstSeconds * BytesPerSecond(p.format);
    assert worth as real == Max(0, elapsedMs) as real * BytesPerSecond(p.format) as real;
    assert ahead > worth / 1000 <==> ahead as real > worth as real / 1000.0 by {
      assert worth == worth / 1000 * 1000 + worth % 1000;
      assert worth as real / 1000.0 >= (worth / 1000) as real;
      assert worth as real / 1000.0 < (worth / 1000) as real + 1.0;
    }
  }

  lemma QuotientAtMost(a: nat, b: nat, n: int)
    requires b > 0
    ensures a as real / b as real <= n as real <==> a <= n * b
  {
    var q := a as real / b as real;
    assert q * b as real == a as real;
    assert (n * b) as real == n as real * b as real;
    if q <= n as real {
      assert q * b as real <= n as real * b as real;
    } else {
      assert q * b as real > n as real * b as real;
    }
  }

  /** The bill is at most n seconds exactly when n seconds cover both the forwarded bytes and the provider's progress. */
  lemma BillCovers(attempted: nat, f: AudioFormat, progressMs: real, n: int)
    ensures BillableSeconds(attempted, f, progressMs) <= n <==>
            attempted <= n * BytesPerSecond(f) && progressMs <= n as real * 1000.0
  {
    var acceptedMs := attempted as real / BytesPerSecond(f) as real * 1000.0;
    QuotientAtMost(attempted, BytesPerSecond(f), n);
    var worst := MaxReal(acceptedMs, progressMs) / 1000.0;
    assert worst <= n as real <==> acceptedMs <= n as real * 1000.0 && progressMs <= n as real * 1000.0;
    assert Ceiling(worst) <= n <==> worst <= n as real;
  }

  /** The units of the accounting: 16-bit samples of every channel, and frames made of whole samples. */
  lemma UnitsOfAudio(f: AudioFormat, byteLength: nat)
    ensures SampleBytes(f) == 2 * f.channels && BytesPerSecond(f) == 2 * f.channels * f.sampleRate
    ensures IsAlignedPcm(byteLength, f) <==> byteLength > 0 && byteLength % (2 * f.channels) == 0
  {
    if byteLength % SampleBytes(f) == 0 {
      var whole := byteLength / SampleBytes(f);
      assert byteLength == whole * (f.channels * 2);
      MultipleHasNoRemainder(whole * f.channels, 2, byteLength);
    }
  }

  // ----- a whole stream -----

  /** The provider-facing side of a session that is still streaming; `open` ends at the first refusal or at the cap. */
  datatype Stream = Stream(attempted: nat, forwarded: Data, open: bool)

  function Feed(p: Policy, s: Stream, frame: Frame): Stream {
    if !s.open then s
    else
      match SendFrame(p, s.attempted, frame)
      case Sent(total, reached) => Stream(total, s.forwarded + AcceptedPrefix(p, s.attempted, frame.data), !reached)
      case _ => s.(open := false)
  }

  function FeedAll(p: Policy, frames: seq<Frame>): Stream {
    if frames == [] then Stream(0, [], true)
    else Feed(p, FeedAll(p, frames[..|frames| - 1]), frames[|frames| - 1])
  }

  function Payload(frames: seq<Frame>): Data {
    if frames == [] then [] else Payload(frames[..|frames| - 1]) + frames[|frames| - 1].data
  }

  ghost predicate StreamValid(p: Policy, s: Stream) {
    && s.attempted == |s.forwarded|
    && s.attempted % SampleBytes(p.format) == 0
    && s.attempted <= CapBytes(p.format, p.limitSeconds)
    && (s.open && p.limitSeconds > 0 ==> s.attempted < CapBytes(p.format, p.limitSeconds))
  }

  /**
   * For every sequence of frames: the bytes forwarded are exactly the bytes counted, they are a prefix of
   * what the client sent (all of it while the stream is open), they end on a sample, and they never pass the cap.
   */
  lemma {:induction false} StreamAccounting(p: Policy, frames: seq<Frame>)
    ensures var s := FeedAll(p, frames);
            && StreamValid(p, s)
            && s.forwarded <= Payload(frames)
            && (s.open ==> s.forwarded == Payload(frames))
  {
    if frames == [] {
      MulPositive(BytesPerSecond(p.format), BytesPerSecond(p.format));
      if p.limitSeconds > 0 { MulPositive(p.limitSeconds, BytesPerSecond(p.format)); }
    } else {
      var before, frame := FeedAll(p, frames[..|frames| - 1]), frames[|frames| - 1];
      StreamAccounting(p, frames[..|frames| - 1]);
      if before.open {
        FrameOutcome(p, before.attempted, frame);
      }
    }
  }

  /** A stream that is still open has never been at the cap, so the "limit" refusal cannot be reached in a session. */
  lemma OpenStreamNeverRefusedAtLimit(p: Policy, frames: seq<Frame>, frame: Frame)
    requires p.limitSeconds > 0 && FeedAll(p, frames).open
    ensures SendFrame(p, FeedAll(p, frames).attempted, frame) != Limit
  {
    StreamAccounting(p, frames);
    FrameOutcome(p, FeedAll(p, frames).attempted, frame);
  }

  /** Every byte count a session reaches fitted the real-time-plus-burst allowance when its last frame was forwarded. */
  lemma {:induction false} StreamKeepsPace(p: Policy, frames: seq<Frame>)
    ensures var s := FeedAll(p, frames);
            s.attempted == 0 ||
            exists i :: 0 <= i < |frames| && s.attempted <= AllowedBytes(p.format, frames[i].elapsedMs, p.burstSeconds)
                        && s.attempted == FeedAll(p, frames[..i + 1]).attempted != FeedAll(p, frames[..i]).attempted
  {
    if frames != [] {
      var n := |frames| - 1;
      var shorter := frames[..n];
      var before, after := FeedAll(p, shorter), FeedAll(p, frames);
      StreamKeepsPace(p, shorter);
      StreamAccounting(p, shorter);
      if after.attempted == before.attempted {
        if after.attempted != 0 {
          var i :| 0 <= i < |shorter| && before.attempted <= AllowedBytes(p.format, shorter[i].elapsedMs, p.burstSeconds)
                   && before.attempted == FeedAll(p, shorter[..i + 1]).attempted != FeedAll(p, shorter[..i]).attempted;
          assert shorter[..i + 1] == frames[..i + 1] && shorter[..i] == frames[..i];
          assert frames[i] == shorter[i];
        }
      } else {
        FrameOutcome(p, before.attempted, frames[n]);
        assert frames[..n + 1] == frames;
      }
    }
  }

  /** The client's own count: it is never more than the burst ahead of the clock at any frame it sends. */
  ghost predicate WithinRealTime(p: Policy, frames: seq<Frame>) {
    forall i :: 0 <= i < |frames| ==>
      |Payload(frames[..i + 1])| <= AllowedBytes(p.format, frames[i].elapsedMs, p.burstSeconds)
  }

  /** A client that keeps within real time plus the burst, on working sockets, is only ever stopped by the cap. */
  lemma {:induction false} PacedClientIsNeverRefused(p: Policy, frames: seq<Frame>)
    requires p.limitSeconds > 0
    requires WithinRealTime(p, frames)
    requires forall f <- frames :: IsAlignedPcm(|f.data|, p.format) && !f.providerFails
    ensures var s := FeedAll(p, frames);
            && s.attempted == Min(|Payload(frames)|, CapBytes(p.format, p.limitSeconds))
            && (s.open <==> |Payload(frames)| < CapBytes(p.format, p.limitSeconds))
  {
    if frames == [] {
      MulPositive(p.limitSeconds, BytesPerSecond(p.format));
    } else {
      var n := |frames| - 1;
      var shorter := frames[..n];
      forall i | 0 <= i < |shorter|
        ensures |Payload(shorter[..i + 1])| <= AllowedBytes(p.format, shorter[i].elapsedMs, p.burstSeconds)
      {
        assert shorter[..i + 1] == frames[..i + 1];
      }
      PacedClientIsNeverRefused(p, shorter);
      StreamAccounting(p, shorter);
      if FeedAll(p, shorter).open {
        FrameOutcome(p, FeedAll(p, shorter).attempted, frames[n]);
        assert frames[..n + 1] == frames;
        AcceptedIsExact(p, FeedAll(p, shorter).attempted, |frames[n].data|);
      }
    }
  }

  /** A stream is never billed for more than its admitted limit, given the provider's progress stayed within it. */
  lemma BillWithinLimit(p: Policy, attempted: nat, progressMs: real)
    requires attempted <= CapBytes(p.format, p.limitSeconds)
    requires 0.0 <= progressMs <= p.limitSeconds as real * 1000.0
    ensures 0 <= BillableSeconds(attempted, p.format, progressMs) <= p.limitSeconds
  {
    BillCovers(attempted, p.format, progressMs, p.limitSeconds);
    if BillableSeconds(attempted, p.format, progressMs) <= -1 {
      BillCovers(attempted, p.format, progressMs, -1);
      assert false;
    }
  }
}
