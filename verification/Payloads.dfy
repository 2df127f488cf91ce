/**
 * How the shim's drain thread (shim/src/lib.rs) cuts a client's bytes, and what that does to the
 * reader (server/src/main.rs), which keeps no partial frame from one payload to the next.
 */
module Payloads {
  import opened Bytes
  import opened Numbers
  import opened Dsp
  import opened ResamplerLaws
  import opened Pcm
  import opened Transport
  import Ring
  import RingProtocol

  datatype Event = Written(b: seq<byte>) | Popped

  /** The payloads sent: each pop takes what the ring holds, up to a drain chunk. */
  function Sent(ring: seq<byte>, es: seq<Event>): seq<seq<byte>>
    decreases |es|
  {
    if es == [] then []
    else match es[0]
      case Written(b) => Sent(ring + b, es[1..])
      case Popped =>
        var n := Min(DRAIN_CHUNK, |ring|);
        if n == 0 then Sent(ring, es[1..]) else [ring[..n]] + Sent(ring[n..], es[1..])
  }

  /** Every write finds room in a ring of `cap` bytes; otherwise it would be waiting still. */
  predicate Fitting(ring: seq<byte>, es: seq<Event>, cap: nat)
    decreases |es|
  {
    es == []
    || match es[0]
       case Written(b) => |ring| + |b| <= cap && Fitting(ring + b, es[1..], cap)
       case Popped => Fitting(ring[Min(DRAIN_CHUNK, |ring|)..], es[1..], cap)
  }

  /** An application writes whole frames. */
  predicate WholeWrites(fmt: Format, ch: nat, es: seq<Event>)
    requires ValidChannels(ch)
  {
    forall i :: 0 <= i < |es| && es[i].Written? ==> |es[i].b| % FrameBytes(fmt, ch) == 0
  }

  /** The reader pushes what one conversion of all the payload bytes would. */
  predicate Unharmed(fmt: Format, ch: nat, r: Rate, chunks: seq<seq<byte>>)
    requires ValidChannels(ch) && ValidRate(r)
  {
    ReadAll(fmt, ch, r, Reader(Origin, []), chunks).pushed
      == Pack(Convert(r, Origin, Fold(fmt, ch, Flatten(chunks))).out)
  }

  /** Every schedule of writes and pops that the shim's ring allows is harmless. */
  ghost predicate DrainIsHarmless(fmt: Format, ch: nat, r: Rate, cap: nat)
    requires ValidChannels(ch) && ValidRate(r)
  {
    forall es :: WholeWrites(fmt, ch, es) && Fitting([], es, cap) ==> Unharmed(fmt, ch, r, Sent([], es))
  }

  /** The least number of whole frames of `f` bytes that exceeds a drain chunk, in bytes. */
  function LeastCut(f: nat): nat
    requires f > 0
  {
    (Wholes(DRAIN_CHUNK, f) + 1) * f
  }

  /** No pop can cut a frame: a drain chunk is whole frames, or the ring never holds more than one. */
  predicate NeverCuts(f: nat, cap: nat)
    requires f > 0
  {
    DRAIN_CHUNK % f == 0 || cap < LeastCut(f)
  }

  lemma PoppedWhole(ring: seq<byte>, f: nat, cap: nat)
    requires f > 0 && NeverCuts(f, cap) && |ring| % f == 0 && |ring| <= cap
    ensures Min(DRAIN_CHUNK, |ring|) % f == 0
  {
    if DRAIN_CHUNK % f != 0 {
      var k, q := |ring| / f, Wholes(DRAIN_CHUNK, f);
      var rem := WholesAndRest(DRAIN_CHUNK, f);
      QuotientBound(|ring|, f, q);
      MulMonotone(k, q, f);
      assert |ring| == k * f;
    }
  }

  /** Then every payload is whole frames. */
  lemma {:induction false} PayloadsStayAligned(fmt: Format, ch: nat, ring: seq<byte>, es: seq<Event>, cap: nat)
    requires ValidChannels(ch) && NeverCuts(FrameBytes(fmt, ch), cap)
    requires |ring| % FrameBytes(fmt, ch) == 0 && |ring| <= cap && WholeWrites(fmt, ch, es) && Fitting(ring, es, cap)
    ensures FrameAligned(fmt, ch, Sent(ring, es))
    decreases |es|
  {
    if es != [] {
      var f, rest := FrameBytes(fmt, ch), es[1..];
      match es[0]
      case Written(b) =>
        RemainderOfDifference(|ring|, |b|, f);
        PayloadsStayAligned(fmt, ch, ring + b, rest, cap);
      case Popped =>
        var n := Min(DRAIN_CHUNK, |ring|);
        PoppedWhole(ring, f, cap);
        RemainderOfDifference(|ring|, n, f);
        PayloadsStayAligned(fmt, ch, ring[n..], rest, cap);
    }
  }

  // ---------------------------------------------------------------- lengths

  /** How many whole `f`s fit in `n`. */
  function Wholes(n: nat, f: nat): nat
    requires f > 0
  {
    if n < f then 0 else 1 + Wholes(n - f, f)
  }

  lemma {:induction false} WholesIsQuotient(n: nat, f: nat)
    requires f > 0
    ensures Wholes(n, f) == n / f
    decreases n
  {
    if n < f {
      DivModUnique(n, f, 0, n);
    } else {
      WholesIsQuotient(n - f, f);
      DivShift(n - f, f, 1);
    }
  }

  lemma {:induction false} WholesMonotone(a: nat, b: nat, f: nat)
    requires f > 0 && a <= b
    ensures Wholes(a, f) <= Wholes(b, f)
    decreases a
  {
    if a >= f {
      WholesMonotone(a - f, b - f, f);
    }
  }

  lemma {:induction false} FoldLength(fmt: Format, ch: nat, src: seq<byte>)
    requires ValidChannels(ch)
    ensures |Fold(fmt, ch, src)| == 2 * Wholes(|src|, FrameBytes(fmt, ch))
    decreases |src|
  {
    var fsz := FrameBytes(fmt, ch);
    if |src| >= fsz {
      FoldLength(fmt, ch, src[fsz..]);
    }
  }

  /** Frames produced from `frames` input frames since the origin. */
  function Made(r: Rate, frames: nat): nat
    requires ValidRate(r)
  {
    if r.SameRate? then frames else Outputs(r.c, frames)
  }

  lemma ConvertedLength(r: Rate, x: seq<real>, frames: nat)
    requires ValidRate(r) && |x| == 2 * frames
    ensures |Convert(r, Origin, x).out| == 2 * Made(r, frames)
  {
    if r.Resampled? {
      assert [] + x == x;
      CountFrom(r.c, x, 0);
    }
  }

  function Repeat(c: seq<byte>, m: nat): (s: seq<seq<byte>>)
    ensures |s| == m && forall i :: 0 <= i < m ==> s[i] == c
  {
    seq(m, _ => c)
  }

  lemma RepeatTail(c: seq<byte>, m: nat)
    requires m > 0
    ensures Repeat(c, m)[0] == c && Repeat(c, m)[1..] == Repeat(c, m - 1)
  {
  }

  lemma {:induction false} RepeatFolds(fmt: Format, ch: nat, c: seq<byte>, m: nat, k: nat)
    requires ValidChannels(ch) && |Fold(fmt, ch, c)| == k
    ensures |FoldEach(fmt, ch, Repeat(c, m))| == m * k
  {
    if m > 0 {
      RepeatTail(c, m);
      RepeatFolds(fmt, ch, c, m - 1, k);
      assert m * k == (m - 1) * k + k;
    }
  }

  /** Enough more input frames make strictly more output. */
  lemma MoreInMoreOut(r: Rate, few: nat, many: nat)
    requires ValidRate(r) && many >= TAPS && many > few
    requires r.Resampled? ==> many >= few + r.c.num
    ensures Made(r, few) < Made(r, many)
  {
    if r.Resampled? {
      var c, n := r.c, Outputs(r.c, few);
      CeilDivIff(n, (many - TAPS + 1) * c.den, c.num);
      if few >= TAPS {
        CeilBound((few - TAPS + 1) * c.den, c.num);
        MulMonotone(few - TAPS + 1 + c.num, many - TAPS + 1, c.den);
        assert (few - TAPS + 1 + c.num) * c.den == (few - TAPS + 1) * c.den + c.num * c.den;
        MulMonotone(1, c.den, c.num);
      } else {
        MulMonotone(1, many - TAPS + 1, c.den);
      }
    }
  }

  // ---------------------------------------------------------------- which clients survive

  /** A write just over a drain chunk, then popped: in full, and the rest. */
  function Block(m: nat): seq<Event> {
    [Written(Zeros(m)), Popped, Popped]
  }

  function Blocks(m: nat, k: nat): seq<Event> {
    if k == 0 then [] else Block(m) + Blocks(m, k - 1)
  }

  function Pairs(m: nat, k: nat): seq<seq<byte>>
    requires m >= DRAIN_CHUNK
  {
    if k == 0 then [] else [Zeros(DRAIN_CHUNK), Zeros(m - DRAIN_CHUNK)] + Pairs(m, k - 1)
  }

  /** One block leaves the ring as empty as it found it. */
  lemma BlockPayloads(m: nat, rest: seq<Event>, cap: nat)
    requires DRAIN_CHUNK < m <= 2 * DRAIN_CHUNK && m <= cap && Fitting([], rest, cap)
    ensures Sent([], Block(m) + rest) == [Zeros(DRAIN_CHUNK), Zeros(m - DRAIN_CHUNK)] + Sent([], rest)
    ensures Fitting([], Block(m) + rest, cap)
  {
    var es, z, tail := Block(m) + rest, Zeros(m), Zeros(m - DRAIN_CHUNK);
    var e1, e2 := [Popped, Popped] + rest, [Popped] + rest;
    assert es[1..] == e1 && e1[1..] == e2 && e2[1..] == rest;
    assert [] + z == z;
    assert z[..DRAIN_CHUNK] == Zeros(DRAIN_CHUNK) && z[DRAIN_CHUNK..] == tail;
    assert tail[..|tail|] == tail && tail[|tail|..] == [];
    assert Sent(tail, e2) == [tail] + Sent([], rest);
    assert Sent(z, e1) == [Zeros(DRAIN_CHUNK)] + Sent(tail, e2);
  }

  lemma {:induction false} BlocksPayloads(fmt: Format, ch: nat, m: nat, k: nat, cap: nat)
    requires ValidChannels(ch) && DRAIN_CHUNK < m <= 2 * DRAIN_CHUNK && m <= cap && m % FrameBytes(fmt, ch) == 0
    ensures Sent([], Blocks(m, k)) == Pairs(m, k)
    ensures WholeWrites(fmt, ch, Blocks(m, k)) && Fitting([], Blocks(m, k), cap)
  {
    if k > 0 {
      BlocksPayloads(fmt, ch, m, k - 1, cap);
      BlockPayloads(m, Blocks(m, k - 1), cap);
    }
  }

  lemma PairsTail(m: nat, k: nat)
    requires m >= DRAIN_CHUNK && k > 0
    ensures var p := Pairs(m, k);
            && |p| >= 2 && p[0] == Zeros(DRAIN_CHUNK) && p[1..][0] == Zeros(m - DRAIN_CHUNK)
            && p[1..][1..] == Pairs(m, k - 1)
  {
  }

  lemma {:induction false} PairsFold(fmt: Format, ch: nat, m: nat, k: nat, q: nat)
    requires ValidChannels(ch) && DRAIN_CHUNK <= m
    requires |Fold(fmt, ch, Zeros(DRAIN_CHUNK))| == 2 * q && Fold(fmt, ch, Zeros(m - DRAIN_CHUNK)) == []
    ensures |FoldEach(fmt, ch, Pairs(m, k))| == 2 * (k * q)
  {
    if k > 0 {
      PairsTail(m, k);
      PairsFold(fmt, ch, m, k - 1, q);
      OneMore(k, q);
    }
  }

  lemma {:induction false} PairsFlatten(m: nat, k: nat)
    requires m >= DRAIN_CHUNK
    ensures |Flatten(Pairs(m, k))| == k * m
  {
    if k > 0 {
      PairsTail(m, k);
      PairsFlatten(m, k - 1);
      OneMore(k, m);
    }
  }

  lemma OneMore(k: nat, q: nat)
    requires k > 0
    ensures k * q == (k - 1) * q + q
  {
  }

  lemma PushedLength(fmt: Format, ch: nat, r: Rate, chunks: seq<seq<byte>>, frames: nat)
    requires ValidChannels(ch) && ValidRate(r) && |FoldEach(fmt, ch, chunks)| == 2 * frames
    ensures |ReadAll(fmt, ch, r, Reader(Origin, []), chunks).pushed| == 4 * Made(r, frames)
  {
    PipelineChunkInvariance(fmt, ch, r, chunks);
    ConvertedLength(r, FoldEach(fmt, ch, chunks), frames);
  }

  lemma WholeLength(fmt: Format, ch: nat, r: Rate, data: seq<byte>, frames: nat)
    requires ValidChannels(ch) && ValidRate(r) && |data| == frames * FrameBytes(fmt, ch)
    ensures |Pack(Convert(r, Origin, Fold(fmt, ch, data)).out)| == 4 * Made(r, frames)
  {
    FoldLength(fmt, ch, data);
    WholesIsQuotient(|data|, FrameBytes(fmt, ch));
    DivModUnique(|data|, FrameBytes(fmt, ch), frames, 0);
    ConvertedLength(r, Fold(fmt, ch, data), frames);
  }

  lemma WholesAndRest(n: nat, f: nat) returns (rem: nat)
    requires f > 0
    ensures n == Wholes(n, f) * f + rem && rem == n % f
  {
    WholesIsQuotient(n, f);
    rem := n % f;
  }

  /** `k` blocks of `q + 1` frames, cut apart, yield `cut` frames. */
  lemma CutPairs(fmt: Format, ch: nat, r: Rate, m: nat, k: nat, q: nat, cut: nat)
    requires ValidChannels(ch) && ValidRate(r) && q == Wholes(DRAIN_CHUNK, FrameBytes(fmt, ch)) && cut == k * q
    requires DRAIN_CHUNK <= m < DRAIN_CHUNK + FrameBytes(fmt, ch)
    ensures |ReadAll(fmt, ch, r, Reader(Origin, []), Pairs(m, k)).pushed| == 4 * Made(r, cut)
  {
    FoldLength(fmt, ch, Zeros(DRAIN_CHUNK));
    PairsFold(fmt, ch, m, k, q);
    PushedLength(fmt, ch, r, Pairs(m, k), cut);
  }

  /** Together they hold `whole` frames, if a block holds `n`. */
  lemma WholePairs(fmt: Format, ch: nat, r: Rate, m: nat, k: nat, n: nat, whole: nat)
    requires ValidChannels(ch) && ValidRate(r) && DRAIN_CHUNK <= m == n * FrameBytes(fmt, ch) && whole == k * n
    ensures |Flatten(Pairs(m, k))| == whole * FrameBytes(fmt, ch)
    ensures |Pack(Convert(r, Origin, Fold(fmt, ch, Flatten(Pairs(m, k)))).out)| == 4 * Made(r, whole)
  {
    PairsFlatten(m, k);
    Regroup(k, n, FrameBytes(fmt, ch));
    WholeLength(fmt, ch, r, Flatten(Pairs(m, k)), whole);
  }

  lemma BlockSize(q: nat, f: nat)
    requires 0 < f <= 32 && q == Wholes(DRAIN_CHUNK, f) && DRAIN_CHUNK % f != 0
    ensures DRAIN_CHUNK < (q + 1) * f < DRAIN_CHUNK + f && (q + 1) * f % f == 0
  {
    var rem := WholesAndRest(DRAIN_CHUNK, f);
    assert (q + 1) * f == q * f + f;
    DivModUnique((q + 1) * f, f, q + 1, 0);
  }

  lemma Regroup(k: nat, n: nat, f: nat)
    ensures k * (n * f) == (k * n) * f
  {
  }

  lemma CutFramesHarm(fmt: Format, ch: nat, r: Rate, cap: nat)
    requires ValidChannels(ch) && ValidRate(r) && !NeverCuts(FrameBytes(fmt, ch), cap)
    ensures !DrainIsHarmless(fmt, ch, r, cap)
  {
    var k, q := TAPS + (if r.Resampled? then r.c.num else 0), Wholes(DRAIN_CHUNK, FrameBytes(fmt, ch));
    OneFrameEachBlock(k, q);
    BlockSize(q, FrameBytes(fmt, ch));
    BlocksHarm(fmt, ch, r, LeastCut(FrameBytes(fmt, ch)), k, q, k * q, k * (q + 1), cap);
  }

  lemma BlocksHarm(fmt: Format, ch: nat, r: Rate, m: nat, k: nat, q: nat, cut: nat, whole: nat, cap: nat)
    requires ValidChannels(ch) && ValidRate(r) && q == Wholes(DRAIN_CHUNK, FrameBytes(fmt, ch))
    requires DRAIN_CHUNK < m == (q + 1) * FrameBytes(fmt, ch) < DRAIN_CHUNK + FrameBytes(fmt, ch)
    requires m % FrameBytes(fmt, ch) == 0 && m <= cap
    requires cut == k * q && whole == k * (q + 1) && cut + k <= whole && k >= TAPS && (r.Resampled? ==> k >= r.c.num)
    ensures !DrainIsHarmless(fmt, ch, r, cap)
  {
    BlocksPayloads(fmt, ch, m, k, cap);
    CutPairs(fmt, ch, r, m, k, q, cut);
    WholePairs(fmt, ch, r, m, k, q + 1, whole);
    ShortReadHarms(fmt, ch, r, Blocks(m, k), cut, whole, k, cap);
  }

  lemma OneFrameEachBlock(k: nat, q: nat)
    ensures k * (q + 1) == k * q + k
  {
  }

  lemma ShortReadHarms(fmt: Format, ch: nat, r: Rate, es: seq<Event>, cut: nat, whole: nat, k: nat, cap: nat)
    requires ValidChannels(ch) && ValidRate(r) && WholeWrites(fmt, ch, es) && Fitting([], es, cap)
    requires cut + k <= whole && k >= TAPS && (r.Resampled? ==> k >= r.c.num)
    requires |ReadAll(fmt, ch, r, Reader(Origin, []), Sent([], es)).pushed| == 4 * Made(r, cut)
    requires |Pack(Convert(r, Origin, Fold(fmt, ch, Flatten(Sent([], es)))).out)| == 4 * Made(r, whole)
    ensures !DrainIsHarmless(fmt, ch, r, cap)
  {
    MoreInMoreOut(r, cut, whole);
    LengthsTell(fmt, ch, r, es, Made(r, cut), Made(r, whole), cap);
  }

  lemma LengthsTell(fmt: Format, ch: nat, r: Rate, es: seq<Event>, a: nat, b: nat, cap: nat)
    requires ValidChannels(ch) && ValidRate(r) && WholeWrites(fmt, ch, es) && Fitting([], es, cap) && a < b
    requires |ReadAll(fmt, ch, r, Reader(Origin, []), Sent([], es)).pushed| == 4 * a
    requires |Pack(Convert(r, Origin, Fold(fmt, ch, Flatten(Sent([], es)))).out)| == 4 * b
    ensures !DrainIsHarmless(fmt, ch, r, cap)
  {
    assert !Unharmed(fmt, ch, r, Sent([], es));
  }

  /**
   * The drain thread's cuts never hurt exactly when a drain chunk is a whole number of the
   * client's frames or the shim's ring is too small for a longer one, at any rate. With a ring
   * that holds a drain chunk and a frame more, that means one, two, four or eight channels.
   */
  lemma DrainIsHarmlessIff(fmt: Format, ch: nat, r: Rate, cap: nat)
    requires ValidChannels(ch) && ValidRate(r)
    ensures DrainIsHarmless(fmt, ch, r, cap) <==> NeverCuts(FrameBytes(fmt, ch), cap)
    ensures cap >= DRAIN_CHUNK + 32 ==>
              (DrainIsHarmless(fmt, ch, r, cap) <==> ch == 1 || ch == 2 || ch == 4 || ch == 8)
  {
    var f := FrameBytes(fmt, ch);
    if NeverCuts(f, cap) {
      WholeDrainHelps(fmt, ch, r, cap);
    } else {
      CutFramesHarm(fmt, ch, r, cap);
    }
    EvenFrames(fmt, ch);
    if DRAIN_CHUNK % f != 0 {
      BlockSize(Wholes(DRAIN_CHUNK, f), f);
    }
  }

  lemma WholeDrainHelps(fmt: Format, ch: nat, r: Rate, cap: nat)
    requires ValidChannels(ch) && ValidRate(r) && NeverCuts(FrameBytes(fmt, ch), cap)
    ensures DrainIsHarmless(fmt, ch, r, cap)
  {
    forall es | WholeWrites(fmt, ch, es) && Fitting([], es, cap) ensures Unharmed(fmt, ch, r, Sent([], es)) {
      DivModUnique(0, FrameBytes(fmt, ch), 0, 0);
      PayloadsStayAligned(fmt, ch, [], es, cap);
      PipelineChunkInvariance(fmt, ch, r, Sent([], es));
    }
  }

  lemma EvenFrames(fmt: Format, ch: nat)
    requires ValidChannels(ch)
    ensures DRAIN_CHUNK % FrameBytes(fmt, ch) == 0 <==> ch == 1 || ch == 2 || ch == 4 || ch == 8
    ensures FrameBytes(fmt, ch) <= 32
  {
  }

  /** Six channels: 86 frames of 16-bit sound go out in two payloads and 85 come in. */
  lemma SixChannelsLoseAFrame()
    ensures var chunks := Sent([], Blocks(86 * 12, 1));
            && Fitting([], Blocks(86 * 12, 1), 86 * 12) && |Flatten(chunks)| == 86 * 12
            && |ReadAll(S16Le, 6, SameRate, Reader(Origin, []), chunks).pushed| == 4 * 85
            && |Pack(Convert(SameRate, Origin, Fold(S16Le, 6, Flatten(chunks))).out)| == 4 * 86
  {
    WholesIsQuotient(DRAIN_CHUNK, 12);
    BlocksPayloads(S16Le, 6, 86 * 12, 1, 86 * 12);
    CutPairs(S16Le, 6, SameRate, 86 * 12, 1, 85, 85);
    WholePairs(S16Le, 6, SameRate, 86 * 12, 1, 86, 86);
  }

  // ---------------------------------------------------------------- which clients hang the reader

  function BytesPushed(fmt: Format, ch: nat, r: Rate, st: Reader, chunk: seq<byte>): int
    requires ValidChannels(ch) && ValidRate(r)
  {
    |ReadChunk(fmt, ch, r, st, chunk).pushed| - |st.pushed|
  }

  /** A payload of `f` whole frames after `before` frames pushes the difference of two counts. */
  lemma PushIsDifference(fmt: Format, ch: nat, r: Rate, chunks: seq<seq<byte>>, chunk: seq<byte>, before: nat, f: nat)
    requires ValidChannels(ch) && ValidRate(r)
    requires |FoldEach(fmt, ch, chunks)| == 2 * before && |Fold(fmt, ch, chunk)| == 2 * f
    ensures BytesPushed(fmt, ch, r, ReadAll(fmt, ch, r, Reader(Origin, []), chunks), chunk)
         == 4 * (Made(r, before + f) - Made(r, before))
  {
    var st := ReadAll(fmt, ch, r, Reader(Origin, []), chunks);
    StreamChunkInvariance(fmt, ch, r, Reader(Origin, []), chunks);
    PushedByChunk(fmt, ch, r, st, chunk);
    ConvertedLengths(r, FoldEach(fmt, ch, chunks), Fold(fmt, ch, chunk), before, f);
  }

  lemma PushedByChunk(fmt: Format, ch: nat, r: Rate, st: Reader, chunk: seq<byte>)
    requires ValidChannels(ch) && ValidRate(r)
    ensures BytesPushed(fmt, ch, r, st, chunk)
         == 2 * (|Convert(r, st.stream, Fold(fmt, ch, chunk)).out| - |st.stream.out|)
  {
  }

  lemma ConvertedLengths(r: Rate, x: seq<real>, y: seq<real>, before: nat, f: nat)
    requires ValidRate(r) && |x| == 2 * before && |y| == 2 * f
    ensures |Convert(r, Origin, x).out| == 2 * Made(r, before)
    ensures |Convert(r, Convert(r, Origin, x), y).out| == 2 * Made(r, before + f)
  {
    ConvertTwice(r, Origin, x, y);
    ConvertedLength(r, x, before);
    ConvertedLength(r, x + y, before + f);
  }

  /** The most frames that `f` more input frames can make. */
  function MostMade(r: Rate, f: nat): nat
    requires ValidRate(r)
  {
    if r.SameRate? then f else CeilDiv(f * r.c.den, r.c.num)
  }

  lemma CeilDivSum(a: nat, b: nat, d: nat)
    requires d > 0
    ensures CeilDiv(a + b, d) <= CeilDiv(a, d) + CeilDiv(b, d)
  {
    var p, q := CeilDiv(a, d), CeilDiv(b, d);
    CeilDivIff(p, a, d);
    CeilDivIff(q, b, d);
    CeilDivIff(p + q, a + b, d);
    assert (p + q) * d == p * d + q * d;
  }

  lemma CeilDivMonotone(a: nat, b: nat, d: nat)
    requires d > 0 && a <= b
    ensures CeilDiv(a, d) <= CeilDiv(b, d)
  {
    QuotientMonotone(a + d - 1, b + d - 1, d);
  }

  /** That bound, and where it is reached: right after the window has filled up to its last frame. */
  lemma MadeAtMost(r: Rate, before: nat, f: nat)
    requires ValidRate(r)
    ensures Made(r, before + f) - Made(r, before) <= MostMade(r, f)
    ensures before == TAPS - 1 ==> Made(r, before + f) - Made(r, before) == MostMade(r, f)
  {
    if r.Resampled? {
      var c := r.c;
      CeilOfZero(c.num);
      if before >= TAPS - 1 {
        var a := before - TAPS + 1;
        assert (a + f) * c.den == a * c.den + f * c.den;
        CeilDivSum(a * c.den, f * c.den, c.num);
      } else if before + f >= TAPS {
        MulMonotone(before + f - TAPS + 1, f, c.den);
        CeilDivMonotone((before + f - TAPS + 1) * c.den, f * c.den, c.num);
      }
    }
  }

  lemma CeilOfZero(d: nat)
    requires d > 0
    ensures CeilDiv(0, d) == 0
  {
    DivModUnique(d - 1, d, 0, d - 1);
  }

  predicate AllWithin(chunks: seq<seq<byte>>, limit: nat) {
    forall i :: 0 <= i < |chunks| ==> |chunks[i]| <= limit
  }

  /** Payloads of at most `limit` bytes, the last of which makes a push longer than `cap`. */
  ghost predicate Overfills(
      fmt: Format, ch: nat, r: Rate, limit: nat, cap: nat, chunks: seq<seq<byte>>, chunk: seq<byte>)
    requires ValidChannels(ch) && ValidRate(r)
  {
    && AllWithin(chunks, limit) && |chunk| <= limit
    && BytesPushed(fmt, ch, r, ReadAll(fmt, ch, r, Reader(Origin, []), chunks), chunk) > cap
  }

  ghost predicate CanOverfill(fmt: Format, ch: nat, r: Rate, limit: nat, cap: nat)
    requires ValidChannels(ch) && ValidRate(r)
  {
    exists chunks, chunk :: Overfills(fmt, ch, r, limit, cap, chunks, chunk)
  }

  /** Payloads within the limit can overfill a ring exactly when the fullest one can. */
  lemma CanOverfillIff(fmt: Format, ch: nat, r: Rate, limit: nat, cap: nat)
    requires ValidChannels(ch) && ValidRate(r)
    ensures CanOverfill(fmt, ch, r, limit, cap) <==> 4 * MostMade(r, Wholes(limit, FrameBytes(fmt, ch))) > cap
  {
    var most := MostMade(r, Wholes(limit, FrameBytes(fmt, ch)));
    if CanOverfill(fmt, ch, r, limit, cap) {
      OverfillNeedsRoom(fmt, ch, r, limit, cap, most);
    }
    if 4 * most > cap {
      FullestOverfills(fmt, ch, r, limit, cap, most);
    }
  }

  lemma OverfillNeedsRoom(fmt: Format, ch: nat, r: Rate, limit: nat, cap: nat, most: nat)
    requires ValidChannels(ch) && ValidRate(r) && CanOverfill(fmt, ch, r, limit, cap)
    requires most == MostMade(r, Wholes(limit, FrameBytes(fmt, ch)))
    ensures 4 * most > cap
  {
    var chunks, chunk :| Overfills(fmt, ch, r, limit, cap, chunks, chunk);
    PushWithinMost(fmt, ch, r, chunks, chunk, limit);
  }

  lemma FullestOverfills(fmt: Format, ch: nat, r: Rate, limit: nat, cap: nat, most: nat)
    requires ValidChannels(ch) && ValidRate(r) && 4 * most > cap
    requires most == MostMade(r, Wholes(limit, FrameBytes(fmt, ch)))
    ensures CanOverfill(fmt, ch, r, limit, cap)
  {
    var chunks, chunk := FullestPush(fmt, ch, r, limit);
    assert Overfills(fmt, ch, r, limit, cap, chunks, chunk);
  }

  lemma {:induction false} FoldEachFrames(fmt: Format, ch: nat, chunks: seq<seq<byte>>) returns (frames: nat)
    requires ValidChannels(ch)
    ensures |FoldEach(fmt, ch, chunks)| == 2 * frames
  {
    frames := 0;
    if chunks != [] {
      frames := FoldEachFrames(fmt, ch, chunks[1..]);
      FoldLength(fmt, ch, chunks[0]);
      frames := frames + Wholes(|chunks[0]|, FrameBytes(fmt, ch));
    }
  }

  lemma PushWithinMost(fmt: Format, ch: nat, r: Rate, chunks: seq<seq<byte>>, chunk: seq<byte>, limit: nat)
    requires ValidChannels(ch) && ValidRate(r) && |chunk| <= limit
    ensures BytesPushed(fmt, ch, r, ReadAll(fmt, ch, r, Reader(Origin, []), chunks), chunk)
         <= 4 * MostMade(r, Wholes(limit, FrameBytes(fmt, ch)))
  {
    var before := FoldEachFrames(fmt, ch, chunks);
    var f, most := Wholes(|chunk|, FrameBytes(fmt, ch)), Wholes(limit, FrameBytes(fmt, ch));
    FoldLength(fmt, ch, chunk);
    PushIsDifference(fmt, ch, r, chunks, chunk, before, f);
    MadeAtMost(r, before, f);
    WholesMonotone(|chunk|, limit, FrameBytes(fmt, ch));
    MostMadeMonotone(r, f, most);
  }

  lemma MostMadeMonotone(r: Rate, f: nat, most: nat)
    requires ValidRate(r) && f <= most
    ensures MostMade(r, f) <= MostMade(r, most)
  {
    if r.Resampled? {
      MulMonotone(f, most, r.c.den);
      CeilDivMonotone(f * r.c.den, most * r.c.den, r.c.num);
    }
  }

  /** One frame at a time until the window lacks one, then as much as fits. */
  lemma FullestPush(fmt: Format, ch: nat, r: Rate, limit: nat) returns (chunks: seq<seq<byte>>, chunk: seq<byte>)
    requires ValidChannels(ch) && ValidRate(r)
    ensures AllWithin(chunks, limit) && |chunk| <= limit
    ensures BytesPushed(fmt, ch, r, ReadAll(fmt, ch, r, Reader(Origin, []), chunks), chunk)
         == 4 * MostMade(r, Wholes(limit, FrameBytes(fmt, ch)))
  {
    var fsz := FrameBytes(fmt, ch);
    chunk := Zeros(limit);
    FoldLength(fmt, ch, chunk);
    if limit < fsz {
      chunks := [];
      EmptyPush(fmt, ch, r, chunk);
    } else {
      chunks := Repeat(Zeros(fsz), TAPS - 1);
      OneFrameEach(fmt, ch, TAPS - 1);
      PushIsDifference(fmt, ch, r, chunks, chunk, TAPS - 1, Wholes(limit, fsz));
      MadeAtMost(r, TAPS - 1, Wholes(limit, fsz));
    }
  }

  lemma EmptyPush(fmt: Format, ch: nat, r: Rate, chunk: seq<byte>)
    requires ValidChannels(ch) && ValidRate(r) && |Fold(fmt, ch, chunk)| == 0
    ensures BytesPushed(fmt, ch, r, ReadAll(fmt, ch, r, Reader(Origin, []), []), chunk) == 0 == MostMade(r, 0)
  {
    PushIsDifference(fmt, ch, r, [], chunk, 0, 0);
    if r.Resampled? {
      CeilOfZero(r.c.num);
    }
  }

  lemma OneFrameEach(fmt: Format, ch: nat, m: nat)
    requires ValidChannels(ch)
    ensures |FoldEach(fmt, ch, Repeat(Zeros(FrameBytes(fmt, ch)), m))| == 2 * m
  {
    FoldLength(fmt, ch, Zeros(FrameBytes(fmt, ch)));
    RepeatFolds(fmt, ch, Zeros(FrameBytes(fmt, ch)), m, 2);
  }

  /** Once a reader is in such a push it never comes back, whatever the mixer does. */
  lemma OverfullPushHangs(s: RingProtocol.State, steps: seq<RingProtocol.Step>, fmt: Format, ch: nat, r: Rate, st: Reader, chunk: seq<byte>, cap: nat)
    requires ValidChannels(ch) && ValidRate(r) && BytesPushed(fmt, ch, r, st, chunk) > cap
    requires RingProtocol.InPush(s.p, BytesPushed(fmt, ch, r, st, chunk)) && RingProtocol.Run(s, steps, cap)
    ensures RingProtocol.InPush(RingProtocol.After(s, steps, cap).p, BytesPushed(fmt, ch, r, st, chunk))
  {
    RingProtocol.LongPushNeverReturns(s, steps, cap, BytesPushed(fmt, ch, r, st, chunk));
  }

  /** The default client ring, and its capacity. */
  const CLIENT_RING: nat := 65536

  lemma DefaultRing()
    ensures Ring.NextPowerOfTwo(CLIENT_RING) == CLIENT_RING
  {
    assert Ring.IsPowerOfTwo(64);
    assert Ring.IsPowerOfTwo(2048);
    Ring.PowersStay(CLIENT_RING);
  }

  /** 1000 Hz mono: the first drain chunk already overfills the default client ring. */
  lemma SlowMonoHangs(kind: Kind, chunk: seq<byte>)
    requires kind.Sinc? ==> |kind.coeffs| == PHASES * TAPS
    requires |chunk| == DRAIN_CHUNK
    ensures ConfigOf(1000, 48000, kind) == Config(kind, 1, 48)
    ensures BytesPushed(S16Le, 1, Resampled(Config(kind, 1, 48)), Reader(Origin, []), chunk) == 89280
    ensures Ring.NextPowerOfTwo(CLIENT_RING) < 89280
    ensures CanOverfill(S16Le, 1, Resampled(Config(kind, 1, 48)), DRAIN_CHUNK, Ring.NextPowerOfTwo(CLIENT_RING))
  {
    FirstSlowChunk(kind, chunk);
    DefaultRing();
    var r := Resampled(Config(kind, 1, 48));
    assert ReadAll(S16Le, 1, r, Reader(Origin, []), []) == Reader(Origin, []);
    assert Overfills(S16Le, 1, r, DRAIN_CHUNK, CLIENT_RING, [], chunk);
    assert Gcd(1000, 48000) == Gcd(48000, 1000) == Gcd(1000, 0) == 1000;
  }

  lemma FirstSlowChunk(kind: Kind, chunk: seq<byte>)
    requires kind.Sinc? ==> |kind.coeffs| == PHASES * TAPS
    requires |chunk| == DRAIN_CHUNK
    ensures BytesPushed(S16Le, 1, Resampled(Config(kind, 1, 48)), Reader(Origin, []), chunk) == 89280
  {
    FoldLength(S16Le, 1, chunk);
    WholesIsQuotient(DRAIN_CHUNK, 2);
    PushIsDifference(S16Le, 1, Resampled(Config(kind, 1, 48)), [], chunk, 0, 512);
  }
}
