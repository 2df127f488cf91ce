/** What the resampler promises over whole streams: chunking, counts, phases, erasure, DC gain. */
module ResamplerLaws {
  import opened Numbers
  import opened Dsp

  function Flatten<T>(chunks: seq<seq<T>>): seq<T> {
    if chunks == [] then [] else chunks[0] + Flatten(chunks[1..])
  }

  predicate WholeFrames(chunks: seq<seq<real>>) {
    forall i :: 0 <= i < |chunks| ==> |chunks[i]| % 2 == 0
  }

  // ---------------------------------------------------------------- chunk-split invariance

  lemma FrameInPrefix(c: Config, h: seq<real>, x: seq<real>, pos: nat)
    requires ValidConfig(c) && Ready(c, h, pos)
    ensures Ready(c, h + x, pos) && Frame(c, h + x, pos) == Frame(c, h, pos)
  {
    assert Window(c, h + x, pos) == Window(c, h, pos);
  }

  /** Stopping after `h` and going on once `x` has arrived emits what one pass over `h + x` does. */
  lemma {:induction false} SplitHistory(c: Config, h: seq<real>, x: seq<real>, pos: nat)
    requires ValidConfig(c)
    ensures var mid := FinalPos(c, h, pos);
            && Produced(c, h + x, pos) == Produced(c, h, pos) + Produced(c, h + x, mid)
            && FinalPos(c, h + x, pos) == FinalPos(c, h + x, mid)
    decreases |h| / 2 * c.den - pos
  {
    if Ready(c, h, pos) {
      ReadyBelowEnd(c, h, pos);
      FrameInPrefix(c, h, x, pos);
      SplitHistory(c, h, x, pos + c.num);
      var mid := FinalPos(c, h, pos);
      var f, a, b := Frame(c, h, pos), Produced(c, h, pos + c.num), Produced(c, h + x, mid);
      assert f + (a + b) == (f + a) + b;
    }
  }

  lemma FeedTwice(c: Config, s: Stream, a: seq<real>, b: seq<real>)
    requires ValidConfig(c)
    ensures Feed(c, Feed(c, s, a), b) == Feed(c, s, a + b)
  {
    var h := s.hist + a;
    assert s.hist + (a + b) == h + b;
    SplitHistory(c, h, b, s.pos);
    var p, q := Produced(c, h, s.pos), Produced(c, h + b, FinalPos(c, h, s.pos));
    assert s.out + (p + q) == (s.out + p) + q;
  }

  /** Any partition of the input gives the output, position and history of one call on the whole. */
  lemma {:induction false} ChunkSplitInvariance(c: Config, s: Stream, chunks: seq<seq<real>>)
    requires ValidConfig(c) && !Ready(c, s.hist, s.pos)
    ensures FeedAll(c, s, chunks) == Feed(c, s, Flatten(chunks))
    decreases |chunks|
  {
    if chunks == [] {
      assert s.hist + [] == s.hist && s.out + [] == s.out;
    } else {
      ChunkSplitInvariance(c, Feed(c, s, chunks[0]), chunks[1..]);
      FeedTwice(c, s, chunks[0], Flatten(chunks[1..]));
    }
  }

  // ---------------------------------------------------------------- exact output count

  lemma WindowArith(frames: nat, p: nat, num: nat, den: nat, n: nat)
    requires num > 0 && den > 0 && p == n * num && frames >= TAPS
    ensures p / den <= frames - TAPS <==> n < CeilDiv((frames - TAPS + 1) * den, num)
  {
    QuotientBound(p, den, frames - TAPS);
    CeilDivIff(n, (frames - TAPS + 1) * den, num);
  }

  /** Output `n` can be made exactly when the closed-form count has passed it. */
  lemma ReadyIff(c: Config, h: seq<real>, n: nat)
    requires ValidConfig(c)
    ensures Ready(c, h, n * c.num) <==> n < Outputs(c, |h| / 2)
  {
    if |h| / 2 >= TAPS {
      WindowArith(|h| / 2, n * c.num, c.num, c.den, n);
    } else {
      assert n * c.num / c.den >= 0;
    }
  }

  lemma {:induction false} CountFrom(c: Config, h: seq<real>, n: nat)
    requires ValidConfig(c)
    ensures FinalPos(c, h, n * c.num) == Max(n, Outputs(c, |h| / 2)) * c.num
    ensures |Produced(c, h, n * c.num)| == 2 * (Max(n, Outputs(c, |h| / 2)) - n)
    decreases Outputs(c, |h| / 2) - n
  {
    ReadyIff(c, h, n);
    if n < Outputs(c, |h| / 2) {
      CountFrom(c, h, n + 1);
      assert n * c.num + c.num == (n + 1) * c.num;
    }
  }

  /**
   * After any chunking of F input frames the stream has made ceil((F-TAPS+1)*den/num) frames
   * (none while F < TAPS), and its position stays below (F-TAPS+1)*den + num.
   */
  lemma ExactOutputCount(c: Config, chunks: seq<seq<real>>)
    requires ValidConfig(c)
    ensures var s, frames := FeedAll(c, Origin, chunks), |Flatten(chunks)| / 2;
            && |s.out| == 2 * Outputs(c, frames)
            && s.pos == Outputs(c, frames) * c.num
            && s.pos < Max(frames - TAPS + 1, 0) * c.den + c.num
  {
    var h := Flatten(chunks);
    ChunkSplitInvariance(c, Origin, chunks);
    assert [] + h == h;
    CountFrom(c, h, 0);
    OutputsBound(c, |h| / 2);
  }

  lemma OutputsBound(c: Config, frames: nat)
    requires ValidConfig(c)
    ensures Outputs(c, frames) * c.num < Max(frames - TAPS + 1, 0) * c.den + c.num
  {
    if frames >= TAPS {
      CeilBound((frames - TAPS + 1) * c.den, c.num);
    }
  }

  // ---------------------------------------------------------------- phases

  /** Output frame `n` of a pass that starts at output `m` is the one computed at position n*num. */
  lemma {:induction false} NthOutput(c: Config, h: seq<real>, m: nat, n: nat)
    requires ValidConfig(c) && m <= n < Outputs(c, |h| / 2)
    ensures Ready(c, h, n * c.num)
    ensures |Produced(c, h, m * c.num)| >= 2 * (n - m) + 2
    ensures Produced(c, h, m * c.num)[2 * (n - m)..2 * (n - m) + 2] == Frame(c, h, n * c.num)
    decreases n - m
  {
    ReadyIff(c, h, n);
    ReadyIff(c, h, m);
    assert m * c.num + c.num == (m + 1) * c.num;
    if m < n {
      NthOutput(c, h, m + 1, n);
      var f, rest := Frame(c, h, m * c.num), Produced(c, h, (m + 1) * c.num);
      assert (f + rest)[2 * (n - m)..2 * (n - m) + 2] == rest[2 * (n - m) - 2..2 * (n - m)];
    }
  }

  /** Output n + den repeats the remainder of output n, its window exactly num frames later. */
  lemma PhasePeriod(c: Config, n: nat)
    requires ValidConfig(c)
    ensures ((n + c.den) * c.num) % c.den == (n * c.num) % c.den
    ensures ((n + c.den) * c.num) / c.den == (n * c.num) / c.den + c.num
  {
    assert (n + c.den) * c.num == n * c.num + c.num * c.den;
    DivShift(n * c.num, c.den, c.num);
  }

  /** So output n + den of a stream is output n of the same stream started num frames later. */
  lemma ShiftInvariance(c: Config, h: seq<real>, n: nat)
    requires ValidConfig(c) && n + c.den < Outputs(c, |h| / 2)
    ensures 2 * c.num <= |h|
    ensures Ready(c, h, (n + c.den) * c.num) && Ready(c, h[2 * c.num..], n * c.num)
    ensures Frame(c, h, (n + c.den) * c.num) == Frame(c, h[2 * c.num..], n * c.num)
  {
    ReadyIff(c, h, n + c.den);
    PhasePeriod(c, n);
    SameWindow(c, h, (n + c.den) * c.num, n * c.num);
  }

  lemma SameWindow(c: Config, h: seq<real>, q: nat, p: nat)
    requires ValidConfig(c) && Ready(c, h, q)
    requires q % c.den == p % c.den && q / c.den == p / c.den + c.num
    ensures 2 * c.num <= |h| && Ready(c, h[2 * c.num..], p)
    ensures Frame(c, h, q) == Frame(c, h[2 * c.num..], p)
  {
    var w := p / c.den;
    assert w >= 0;
    assert Ready(c, h, q) ==> w + c.num + TAPS <= |h| / 2;
    var later := h[2 * c.num..];
    assert Window(c, h, q) == Window(c, later, p);
  }

  /** `new` reduces the rate ratio to lowest terms without changing it. */
  lemma LowestTerms(src: nat, dst: nat, kind: Kind)
    requires src > 0 && dst > 0
    ensures var c := ConfigOf(src, dst, kind);
            c.num * dst == c.den * src && exists x: int, y: int :: c.num * x + c.den * y == 1
  {
    var c, g := ConfigOf(src, dst, kind), Gcd(src, dst);
    GcdDivides(src, dst);
    assert src == c.num * g && dst == c.den * g;
    CrossMultiply(c.num, c.den, g);
    var x, y := Bezout(src, dst);
    ReducedBezout(c.num, c.den, g, x, y);
  }

  lemma CrossMultiply(a: int, b: int, g: int)
    ensures a * (b * g) == b * (a * g)
  {
  }

  lemma ReducedBezout(a: nat, b: nat, g: nat, x: int, y: int)
    requires g > 0 && (a * g) * x + (b * g) * y == g
    ensures a * x + b * y == 1
  {
    assert (a * g) * x == (a * x) * g;
    assert (b * g) * y == (b * y) * g;
    assert (a * x + b * y) * g == g;
    UnitMultiple(a * x + b * y, g);
  }

  lemma UnitMultiple(k: int, g: nat)
    requires g > 0 && k * g == g
    ensures k == 1
  {
    assert (k - 1) * g == 0;
  }

  /** Among any den consecutive outputs, exactly one has remainder r. */
  lemma EveryPhaseOnce(c: Config, x: int, y: int, start: nat, r: nat) returns (n: nat)
    requires ValidConfig(c) && c.num * x + c.den * y == 1 && r < c.den
    ensures start <= n < start + c.den && (n * c.num) % c.den == r
    ensures forall m: nat :: start <= m < start + c.den && (m * c.num) % c.den == r ==> m == n
  {
    n := start + (r * x - start) % c.den;
    var k := (r * x - start) / c.den;
    assert n == r * x - k * c.den;
    assert n * c.num == r + (- (r * y) - k * c.num) * c.den by {
      assert n * c.num == r * (x * c.num) - (k * c.num) * c.den;
      assert x * c.num == 1 - y * c.den;
      assert r * (1 - y * c.den) == r - (r * y) * c.den;
    }
    DivShift(r, c.den, - (r * y) - k * c.num);
    DivModUnique(r, c.den, 0, r);
    forall m: nat | start <= m < start + c.den && (m * c.num) % c.den == r
      ensures m == n
    {
      SamePhase(c, x, y, m, n);
    }
  }

  /** Two outputs less than den apart never share a remainder. */
  lemma SamePhase(c: Config, x: int, y: int, m: nat, n: nat)
    requires ValidConfig(c) && c.num * x + c.den * y == 1
    requires (m * c.num) % c.den == (n * c.num) % c.den && m - n < c.den && n - m < c.den
    ensures m == n
  {
    var q := (m * c.num) / c.den - (n * c.num) / c.den;
    assert (m - n) * c.num == q * c.den;
    assert m - n == (q * x + (m - n) * y) * c.den by {
      assert (m - n) * (c.num * x + c.den * y) == m - n;
      assert (m - n) * (c.num * x) == (q * c.den) * x;
    }
    var e := q * x + (m - n) * y;
    if e >= 1 {
      MulMonotone(1, e, c.den);
    } else if e <= -1 {
      MulMonotone(e, -1, c.den);
    }
  }

  // ---------------------------------------------------------------- erasure

  function Consumed(c: Config, s: Stream): (d: nat)
    requires ValidConfig(c)
    ensures 2 * d <= |s.hist| && d <= s.pos / c.den
  {
    Min(s.pos / c.den, SatSub(|s.hist| / 2, if c.kind.Sinc? then TAPS - 1 else 1))
  }

  function Rebase(c: Config, pos: nat, d: nat): (p: nat)
    requires ValidConfig(c) && d <= pos / c.den
    ensures p / c.den == pos / c.den - d && p % c.den == pos % c.den
  {
    MulMonotone(d, pos / c.den, c.den);
    DivShift(pos - d * c.den, c.den, d);
    pos - d * c.den
  }

  /** Dropping d consumed frames and rebasing changes no output to come. */
  lemma {:induction false} DropPrefix(c: Config, h: seq<real>, pos: nat, d: nat)
    requires ValidConfig(c) && d <= pos / c.den && 2 * d <= |h|
    ensures Produced(c, h[2 * d..], Rebase(c, pos, d)) == Produced(c, h, pos)
    ensures d <= FinalPos(c, h, pos) / c.den
    ensures FinalPos(c, h[2 * d..], Rebase(c, pos, d)) == Rebase(c, FinalPos(c, h, pos), d)
    decreases |h| / 2 * c.den - pos
  {
    FrameRebased(c, h, pos, d);
    if Ready(c, h, pos) {
      ReadyBelowEnd(c, h, pos);
      QuotientMonotone(pos, pos + c.num, c.den);
      DropPrefix(c, h, pos + c.num, d);
      assert Rebase(c, pos + c.num, d) == Rebase(c, pos, d) + c.num;
    }
  }

  lemma FrameRebased(c: Config, h: seq<real>, pos: nat, d: nat)
    requires ValidConfig(c) && d <= pos / c.den && 2 * d <= |h|
    ensures Ready(c, h[2 * d..], Rebase(c, pos, d)) <==> Ready(c, h, pos)
    ensures Ready(c, h, pos) ==> Frame(c, h[2 * d..], Rebase(c, pos, d)) == Frame(c, h, pos)
  {
    var k, p := h[2 * d..], Rebase(c, pos, d);
    assert p / c.den == pos / c.den - d && |k| == |h| - 2 * d;
    if Ready(c, h, pos) {
      assert Window(c, k, p) == Window(c, h, pos);
    }
  }

  /** `k` is `h` without its first d frames, at the matching position. */
  predicate Trails(c: Config, k: Stream, h: Stream, d: nat)
    requires ValidConfig(c)
  {
    2 * d <= |h.hist| && d <= h.pos / c.den && k == Stream(h.hist[2 * d..], Rebase(c, h.pos, d), h.out)
  }

  /** The stream without its first `e` frames, its position rebased. */
  function Dropped(c: Config, t: Stream, e: nat): Stream
    requires ValidConfig(c) && e <= Consumed(c, t)
  {
    Stream(t.hist[2 * e..], Rebase(c, t.pos, e), t.out)
  }

  lemma FeedTrails(c: Config, k: Stream, h: Stream, d: nat, x: seq<real>)
    requires ValidConfig(c) && Trails(c, k, h, d)
    ensures Trails(c, Feed(c, k, x), Feed(c, h, x), d)
  {
    assert (h.hist + x)[2 * d..] == k.hist + x;
    DropPrefix(c, h.hist + x, h.pos, d);
  }

  lemma DropTrails(c: Config, k: Stream, h: Stream, d: nat, e: nat)
    requires ValidConfig(c) && Trails(c, k, h, d) && e <= Consumed(c, k)
    ensures Trails(c, Dropped(c, k, e), h, d + e)
  {
    assert h.hist[2 * d..][2 * e..] == h.hist[2 * (d + e)..];
    RebaseTwice(c, h.pos, d, e);
  }

  lemma DropStep(c: Config, k: Stream, h: Stream, d: nat, x: seq<real>, e: nat) returns (d': nat)
    requires ValidConfig(c) && Trails(c, k, h, d) && e <= Consumed(c, Feed(c, k, x))
    ensures Trails(c, Dropped(c, Feed(c, k, x), e), Feed(c, h, x), d')
  {
    FeedTrails(c, k, h, d, x);
    DropTrails(c, Feed(c, k, x), Feed(c, h, x), d, e);
    d' := d + e;
  }

  /** A resampler that erases after each call, as many of the consumed frames as `ns` says. */
  function ErasingFeedAll(c: Config, s: Stream, chunks: seq<seq<real>>, ns: seq<nat>): Stream
    requires ValidConfig(c) && |ns| == |chunks|
    decreases |chunks|
  {
    if chunks == [] then s
    else
      var t := Feed(c, s, chunks[0]);
      ErasingFeedAll(c, Dropped(c, t, Min(ns[0], Consumed(c, t))), chunks[1..], ns[1..])
  }

  /** Whatever is erased of the consumed prefix, and whenever, every chunk list gives the same output. */
  lemma {:induction false} ErasureIsOutputNeutral(
      c: Config, k: Stream, h: Stream, d: nat, chunks: seq<seq<real>>, ns: seq<nat>)
    requires ValidConfig(c) && Trails(c, k, h, d) && |ns| == |chunks|
    ensures ErasingFeedAll(c, k, chunks, ns).out == FeedAll(c, h, chunks).out
    decreases |chunks|
  {
    if chunks != [] {
      var t := Feed(c, k, chunks[0]);
      var e := Min(ns[0], Consumed(c, t));
      var d' := DropStep(c, k, h, d, chunks[0], e);
      ErasureIsOutputNeutral(c, Dropped(c, t, e), Feed(c, h, chunks[0]), d', chunks[1..], ns[1..]);
    }
  }

  /** Erasing everything consumed at once. */
  function EagerFeedAll(c: Config, s: Stream, chunks: seq<seq<real>>): Stream
    requires ValidConfig(c)
    decreases |chunks|
  {
    if chunks == [] then s
    else
      var t := Feed(c, s, chunks[0]);
      EagerFeedAll(c, Dropped(c, t, Consumed(c, t)), chunks[1..])
  }

  /** After any call the eager variant holds fewer than TAPS frames. */
  lemma {:induction false} EagerHistoryBounded(c: Config, k: Stream, chunks: seq<seq<real>>)
    requires ValidConfig(c) && WholeFrames(chunks) && |k.hist| % 2 == 0 && chunks != []
    ensures |EagerFeedAll(c, k, chunks).hist| <= 2 * (TAPS - 1)
    decreases |chunks|
  {
    var t, rest := Feed(c, k, chunks[0]), chunks[1..];
    ShortHistory(c, t);
    if rest != [] {
      EagerHistoryBounded(c, Dropped(c, t, Consumed(c, t)), rest);
    }
  }

  lemma {:induction false} EagerTrails(c: Config, k: Stream, h: Stream, d: nat, chunks: seq<seq<real>>)
    requires ValidConfig(c) && Trails(c, k, h, d)
    ensures EagerFeedAll(c, k, chunks).out == FeedAll(c, h, chunks).out
    decreases |chunks|
  {
    if chunks != [] {
      var t := Feed(c, k, chunks[0]);
      var d' := DropStep(c, k, h, d, chunks[0], Consumed(c, t));
      EagerTrails(c, Dropped(c, t, Consumed(c, t)), Feed(c, h, chunks[0]), d', chunks[1..]);
    }
  }

  /** From the origin: the eager variant and the code agree on every chunk list. */
  lemma EagerFromOrigin(c: Config, chunks: seq<seq<real>>)
    requires ValidConfig(c)
    ensures EagerFeedAll(c, Origin, chunks).out == FeedAll(c, Origin, chunks).out
  {
    EagerTrails(c, Origin, Origin, 0, chunks);
  }

  // ---------------------------------------------------------------- the erasure the comments describe

  /** The source's `off` with its guard corrected to compare frames with frames. */
  datatype Deferred = Deferred(s: Stream, off: nat)

  predicate OffBehind(c: Config, k: Deferred)
    requires ValidConfig(c)
  {
    k.off <= Consumed(c, k.s)
  }

  lemma ConsumedGrows(c: Config, s: Stream, x: seq<real>)
    requires ValidConfig(c)
    ensures Consumed(c, s) <= Consumed(c, Feed(c, s, x))
  {
    QuotientMonotone(s.pos, FinalPos(c, s.hist + x, s.pos), c.den);
  }

  function DeferredFeed(c: Config, k: Deferred, x: seq<real>): (k': Deferred)
    requires ValidConfig(c) && OffBehind(c, k)
    ensures OffBehind(c, k')
  {
    ConsumedGrows(c, k.s, x);
    var t := Feed(c, k.s, x);
    var off := Max(k.off, Consumed(c, t));
    if off * 2 > |t.hist| / 2 then Deferred(Dropped(c, t, off), 0) else Deferred(t, off)
  }

  function DeferredFeedAll(c: Config, k: Deferred, chunks: seq<seq<real>>): Deferred
    requires ValidConfig(c) && OffBehind(c, k)
    decreases |chunks|
  {
    if chunks == [] then k else DeferredFeedAll(c, DeferredFeed(c, k, chunks[0]), chunks[1..])
  }

  /** The corrected resampler gives the output of the one in the code. */
  lemma {:induction false} DeferredErasureIsNeutral(c: Config, k: Deferred, h: Stream, d: nat, chunks: seq<seq<real>>)
    requires ValidConfig(c) && OffBehind(c, k) && Trails(c, k.s, h, d)
    ensures DeferredFeedAll(c, k, chunks).s.out == FeedAll(c, h, chunks).out
    decreases |chunks|
  {
    if chunks != [] {
      var d' := DeferredStep(c, k, h, d, chunks[0]);
      DeferredErasureIsNeutral(c, DeferredFeed(c, k, chunks[0]), Feed(c, h, chunks[0]), d', chunks[1..]);
    }
  }

  lemma DeferredStep(c: Config, k: Deferred, h: Stream, d: nat, x: seq<real>) returns (d': nat)
    requires ValidConfig(c) && OffBehind(c, k) && Trails(c, k.s, h, d)
    ensures Trails(c, DeferredFeed(c, k, x).s, Feed(c, h, x), d')
  {
    var t := Feed(c, k.s, x);
    var k' := DeferredFeed(c, k, x);
    ConsumedGrows(c, k.s, x);
    d' := DropStep(c, k.s, h, d, x, if k'.off == 0 && k'.s != t then Consumed(c, t) else 0);
    assert t.hist[0..] == t.hist;
  }

  /** Its memory is bounded: at most twice the frames the eager variant may hold. */
  lemma {:induction false} DeferredHistoryBounded(c: Config, k: Deferred, chunks: seq<seq<real>>)
    requires ValidConfig(c) && WholeFrames(chunks) && |k.s.hist| % 2 == 0 && OffBehind(c, k) && chunks != []
    ensures |DeferredFeedAll(c, k, chunks).s.hist| <= 4 * (TAPS - 1)
    decreases |chunks|
  {
    DeferredStepBounded(c, k, chunks[0]);
    if chunks[1..] != [] {
      DeferredHistoryBounded(c, DeferredFeed(c, k, chunks[0]), chunks[1..]);
    }
  }

  lemma DeferredStepBounded(c: Config, k: Deferred, x: seq<real>)
    requires ValidConfig(c) && |x| % 2 == 0 && |k.s.hist| % 2 == 0 && OffBehind(c, k)
    ensures |DeferredFeed(c, k, x).s.hist| % 2 == 0
    ensures |DeferredFeed(c, k, x).s.hist| <= 4 * (TAPS - 1)
  {
    ConsumedGrows(c, k.s, x);
    ShortHistory(c, Feed(c, k.s, x));
  }

  lemma RebaseTwice(c: Config, pos: nat, d: nat, e: nat)
    requires ValidConfig(c) && d <= pos / c.den && e <= pos / c.den - d
    ensures Rebase(c, Rebase(c, pos, d), e) == Rebase(c, pos, d + e)
  {
    assert (d + e) * c.den == d * c.den + e * c.den;
  }

  lemma ShortHistory(c: Config, u: Stream)
    requires ValidConfig(c) && !Ready(c, u.hist, u.pos) && |u.hist| % 2 == 0
    ensures |u.hist[2 * Consumed(c, u)..]| <= 2 * (TAPS - 1)
  {
  }

  /** The code's own history: nothing is ever erased, so it is the whole input. */
  lemma {:induction false} HistoryKeepsEverything(c: Config, s: Stream, chunks: seq<seq<real>>)
    requires ValidConfig(c)
    ensures FeedAll(c, s, chunks).hist == s.hist + Flatten(chunks)
    decreases |chunks|
  {
    if chunks == [] {
      assert s.hist + [] == s.hist;
    } else {
      HistoryKeepsEverything(c, Feed(c, s, chunks[0]), chunks[1..]);
      assert (s.hist + chunks[0]) + Flatten(chunks[1..]) == s.hist + Flatten(chunks);
    }
  }

  // ---------------------------------------------------------------- DC gain

  function SumTo(r: seq<real>, k: nat): real
    requires k <= |r|
  {
    if k == 0 then 0.0 else SumTo(r, k - 1) + r[k - 1]
  }

  lemma {:induction false} TapSumOfConstant(win: seq<real>, r0: seq<real>, r1: seq<real>, t: real, v: real, ch: nat, k: nat)
    requires |r0| == |r1| && |win| == 2 * |r0| && ch < 2 && k <= |r0|
    requires forall i :: 0 <= i < |win| ==> win[i] == v
    ensures TapSum(win, r0, r1, t, ch, k) == (SumTo(r0, k) + (SumTo(r1, k) - SumTo(r0, k)) * t) * v
  {
    if k > 0 {
      TapSumOfConstant(win, r0, r1, t, v, ch, k - 1);
      DcStep(SumTo(r0, k - 1), SumTo(r1, k - 1), r0[k - 1], r1[k - 1], t, v);
    }
  }

  lemma DcStep(s0: real, s1: real, a: real, b: real, t: real, v: real)
    ensures (s0 + (s1 - s0) * t) * v + (a + (b - a) * t) * v
         == ((s0 + a) + ((s1 + b) - (s0 + a)) * t) * v
  {
    assert (s1 - s0) * t + (b - a) * t == ((s1 + b) - (s0 + a)) * t;
  }

  /** With every row summing to one, a constant signal passes at unit gain at every phase. */
  lemma UnityDcGain(c: Config, win: seq<real>, rem: nat, ch: nat, v: real)
    requires ValidConfig(c) && |win| == 2 * TAPS && rem < c.den && ch < 2
    requires forall i :: 0 <= i < |win| ==> win[i] == v
    requires c.kind.Sinc? ==> forall p :: 0 <= p < PHASES ==> SumTo(Row(c.kind.coeffs, p), TAPS) == 1.0
    ensures Sample(c, win, rem, ch) == v
  {
    if c.kind.Sinc? {
      var p0 := Phase(rem, c.den);
      var p1 := (p0 + 1) % PHASES;
      var r0, r1 := Row(c.kind.coeffs, p0), Row(c.kind.coeffs, p1);
      TapSumOfConstant(win, r0, r1, PhasePos(rem, c.den) - p0 as real, v, ch, TAPS);
    }
  }
}
