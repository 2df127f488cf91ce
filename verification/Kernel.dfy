/**
 * What one output sample of the resampler is made of (server/src/dsp.rs), in terms of the history
 * and of the kernel table: which samples count, that they count linearly, and by how much each.
 */
module Kernel {
  import opened Dsp
  import opened ResamplerLaws

  /** Channel `ch` of output frame `n` of a stream whose input so far is `h`. */
  function Heard(c: Config, h: seq<real>, n: nat, ch: nat): real
    requires ValidConfig(c) && n < Outputs(c, |h| / 2) && ch < 2
  {
    HeardInBounds(c, h, n);
    Produced(c, h, 0)[2 * n + ch]
  }

  /** The first input frame of that output's window, and how far into it the output lies. */
  function First(c: Config, n: nat): nat
    requires c.den > 0
  {
    n * c.num / c.den
  }

  function Rest(c: Config, n: nat): (r: nat)
    requires c.den > 0
    ensures r < c.den
  {
    n * c.num % c.den
  }

  lemma HeardInBounds(c: Config, h: seq<real>, n: nat)
    requires ValidConfig(c) && n < Outputs(c, |h| / 2)
    ensures 2 * n + 2 <= |Produced(c, h, 0)|
    ensures Ready(c, h, n * c.num) && 2 * (First(c, n) + 48) <= |h|
    ensures Produced(c, h, 0)[2 * n..2 * n + 2] == Frame(c, h, n * c.num)
  {
    NthOutput(c, h, 0, n);
    assert 0 * c.num == 0;
  }

  lemma HeardIsSample(c: Config, h: seq<real>, n: nat, ch: nat)
    requires ValidConfig(c) && n < Outputs(c, |h| / 2) && ch < 2
    ensures Ready(c, h, n * c.num)
    ensures Heard(c, h, n, ch) == Sample(c, Window(c, h, n * c.num), Rest(c, n), ch)
  {
    HeardInBounds(c, h, n);
    assert Produced(c, h, 0)[2 * n..2 * n + 2][ch] == Produced(c, h, 0)[2 * n + ch];
  }

  /** Channel `ch` of frame `k` of the window of output `n`. */
  function Tap(c: Config, h: seq<real>, n: nat, ch: nat, k: nat): real
    requires c.den > 0
  {
    var i := 2 * (First(c, n) + k) + ch;
    if i < |h| then h[i] else 0.0
  }

  lemma WindowTap(c: Config, h: seq<real>, n: nat, ch: nat, k: nat)
    requires ValidConfig(c) && Ready(c, h, n * c.num) && ch < 2 && k < 48
    ensures 2 * k + ch < |Window(c, h, n * c.num)|
    ensures Window(c, h, n * c.num)[2 * k + ch] == Tap(c, h, n, ch, k)
  {
  }

  // ---------------------------------------------------------------- channels

  predicate SameChannel(v: seq<real>, w: seq<real>, ch: nat) {
    |v| == |w| == 2 * TAPS && ch < 2 && forall k :: 0 <= k < TAPS ==> v[2 * k + ch] == w[2 * k + ch]
  }

  lemma {:induction false} TapSumOfChannel(v: seq<real>, w: seq<real>, r0: seq<real>, r1: seq<real>, t: real, ch: nat, k: nat)
    requires SameChannel(v, w, ch) && |r0| == |r1| == TAPS && k <= TAPS
    ensures TapSum(v, r0, r1, t, ch, k) == TapSum(w, r0, r1, t, ch, k)
  {
    if k > 0 {
      TapSumOfChannel(v, w, r0, r1, t, ch, k - 1);
      assert v[2 * (k - 1) + ch] == w[2 * (k - 1) + ch];
    }
  }

  lemma SampleOfChannel(c: Config, v: seq<real>, w: seq<real>, rem: nat, ch: nat)
    requires ValidConfig(c) && rem < c.den && SameChannel(v, w, ch)
    ensures Sample(c, v, rem, ch) == Sample(c, w, rem, ch)
  {
    if c.kind.Sinc? {
      var p0 := Phase(rem, c.den);
      TapSumOfChannel(v, w, Row(c.kind.coeffs, p0), Row(c.kind.coeffs, (p0 + 1) % PHASES),
                      PhasePos(rem, c.den) - p0 as real, ch, TAPS);
    } else {
      assert v[2 * 0 + ch] == w[2 * 0 + ch] && v[2 * 1 + ch] == w[2 * 1 + ch];
    }
  }

  /** Left comes from left and right from right, and only from the 48 frames of the window. */
  lemma ChannelsStayApart(c: Config, g: seq<real>, h: seq<real>, n: nat, ch: nat)
    requires ValidConfig(c) && |g| == |h| && n < Outputs(c, |h| / 2) && ch < 2
    requires forall k :: 0 <= k < 48 ==> Tap(c, g, n, ch, k) == Tap(c, h, n, ch, k)
    ensures Heard(c, g, n, ch) == Heard(c, h, n, ch)
  {
    HeardIsSample(c, g, n, ch);
    HeardIsSample(c, h, n, ch);
    WindowsAgree(c, g, h, n, ch);
    SampleOfChannel(c, Window(c, g, n * c.num), Window(c, h, n * c.num), Rest(c, n), ch);
  }

  lemma WindowsAgree(c: Config, g: seq<real>, h: seq<real>, n: nat, ch: nat)
    requires ValidConfig(c) && Ready(c, g, n * c.num) && Ready(c, h, n * c.num) && ch < 2
    requires forall k :: 0 <= k < 48 ==> Tap(c, g, n, ch, k) == Tap(c, h, n, ch, k)
    ensures SameChannel(Window(c, g, n * c.num), Window(c, h, n * c.num), ch)
  {
    var v, w := Window(c, g, n * c.num), Window(c, h, n * c.num);
    forall k | 0 <= k < TAPS ensures v[2 * k + ch] == w[2 * k + ch] {
      WindowTap(c, g, n, ch, k);
      WindowTap(c, h, n, ch, k);
    }
  }

  // ---------------------------------------------------------------- linearity

  /** `m` is `x` times `v` plus `y` times `w` on channel `ch`. */
  predicate Blended(m: seq<real>, x: real, v: seq<real>, y: real, w: seq<real>, ch: nat) {
    && |m| == |v| == |w| == 2 * TAPS && ch < 2
    && forall k :: 0 <= k < TAPS ==> m[2 * k + ch] == x * v[2 * k + ch] + y * w[2 * k + ch]
  }

  lemma {:induction false} TapSumIsLinear(
      m: seq<real>, x: real, v: seq<real>, y: real, w: seq<real>, r0: seq<real>, r1: seq<real>, t: real, ch: nat, k: nat)
    requires Blended(m, x, v, y, w, ch) && |r0| == |r1| == TAPS && k <= TAPS
    ensures TapSum(m, r0, r1, t, ch, k) == x * TapSum(v, r0, r1, t, ch, k) + y * TapSum(w, r0, r1, t, ch, k)
  {
    if k > 0 {
      TapSumIsLinear(m, x, v, y, w, r0, r1, t, ch, k - 1);
      Distribute(x, y, TapSum(v, r0, r1, t, ch, k - 1), TapSum(w, r0, r1, t, ch, k - 1),
                 Blend(r0, r1, t, k - 1), v[2 * (k - 1) + ch], w[2 * (k - 1) + ch]);
    }
  }

  lemma Distribute(x: real, y: real, s: real, u: real, b: real, v: real, w: real)
    ensures (x * s + y * u) + b * (x * v + y * w) == x * (s + b * v) + y * (u + b * w)
  {
    assert b * (x * v + y * w) == x * (b * v) + y * (b * w);
  }

  lemma InterpolateIsLinear(x: real, y: real, a: real, b: real, d: real, e: real, f: real)
    ensures (x * a + y * d) + ((x * b + y * e) - (x * a + y * d)) * f == x * (a + (b - a) * f) + y * (d + (e - d) * f)
  {
    assert ((x * b + y * e) - (x * a + y * d)) * f == x * ((b - a) * f) + y * ((e - d) * f);
  }

  lemma SampleIsLinear(c: Config, m: seq<real>, x: real, v: seq<real>, y: real, w: seq<real>, rem: nat, ch: nat)
    requires ValidConfig(c) && rem < c.den && Blended(m, x, v, y, w, ch)
    ensures Sample(c, m, rem, ch) == x * Sample(c, v, rem, ch) + y * Sample(c, w, rem, ch)
  {
    if c.kind.Sinc? {
      var p0 := Phase(rem, c.den);
      TapSumIsLinear(m, x, v, y, w, Row(c.kind.coeffs, p0), Row(c.kind.coeffs, (p0 + 1) % PHASES),
                     PhasePos(rem, c.den) - p0 as real, ch, TAPS);
    } else {
      assert m[2 * 0 + ch] == x * v[2 * 0 + ch] + y * w[2 * 0 + ch];
      assert m[2 * 1 + ch] == x * v[2 * 1 + ch] + y * w[2 * 1 + ch];
      InterpolateIsLinear(x, y, v[ch], v[ch + 2], w[ch], w[ch + 2], rem as real / c.den as real);
    }
  }

  /** Mixing two inputs before or after resampling is the same. */
  lemma OutputIsLinear(c: Config, m: seq<real>, x: real, g: seq<real>, y: real, h: seq<real>, n: nat, ch: nat)
    requires ValidConfig(c) && |m| == |g| == |h| && n < Outputs(c, |h| / 2) && ch < 2
    requires forall i :: 0 <= i < |m| ==> m[i] == x * g[i] + y * h[i]
    ensures Heard(c, m, n, ch) == x * Heard(c, g, n, ch) + y * Heard(c, h, n, ch)
  {
    HeardIsSample(c, m, n, ch);
    HeardIsSample(c, g, n, ch);
    HeardIsSample(c, h, n, ch);
    WindowsBlend(c, m, x, g, y, h, n * c.num, ch);
    SampleIsLinear(c, Window(c, m, n * c.num), x, Window(c, g, n * c.num), y, Window(c, h, n * c.num), Rest(c, n), ch);
  }

  lemma WindowsBlend(c: Config, m: seq<real>, x: real, g: seq<real>, y: real, h: seq<real>, q: nat, ch: nat)
    requires ValidConfig(c) && |m| == |g| == |h| && Ready(c, h, q) && ch < 2
    requires forall i :: 0 <= i < |m| ==> m[i] == x * g[i] + y * h[i]
    ensures Blended(Window(c, m, q), x, Window(c, g, q), y, Window(c, h, q), ch)
  {
    var b := q / c.den * 2;
    forall k | 0 <= k < TAPS
      ensures Window(c, m, q)[2 * k + ch] == x * Window(c, g, q)[2 * k + ch] + y * Window(c, h, q)[2 * k + ch]
    {
      assert m[b + (2 * k + ch)] == x * g[b + (2 * k + ch)] + y * h[b + (2 * k + ch)];
    }
  }

  // ---------------------------------------------------------------- the weight of one sample

  /** On channel `ch`, `w` is a single one, at tap `j`. */
  predicate Impulse(w: seq<real>, ch: nat, j: nat) {
    && |w| == 2 * TAPS && ch < 2 && j < TAPS
    && forall k :: 0 <= k < TAPS ==> w[2 * k + ch] == if k == j then 1.0 else 0.0
  }

  lemma {:induction false} TapSumOfImpulse(w: seq<real>, r0: seq<real>, r1: seq<real>, t: real, ch: nat, j: nat, k: nat)
    requires Impulse(w, ch, j) && |r0| == |r1| == TAPS && k <= TAPS
    ensures TapSum(w, r0, r1, t, ch, k) == if j < k then r0[j] + (r1[j] - r0[j]) * t else 0.0
  {
    if k > 0 {
      TapSumOfImpulse(w, r0, r1, t, ch, j, k - 1);
      assert w[2 * (k - 1) + ch] == if k - 1 == j then 1.0 else 0.0;
      assert Blend(r0, r1, t, k - 1) * 1.0 == Blend(r0, r1, t, k - 1);
    }
  }

  /** The row and the fraction that the remainder names: 256 rows to an input frame. */
  predicate Between(p: nat, t: real, rem: nat, den: nat) {
    (p as real + t) * den as real == 256.0 * rem as real && 0.0 <= t < 1.0
  }

  lemma PhaseIsBetween(p: nat, t: real, rem: nat, den: nat)
    requires rem < den && Between(p, t, rem, den)
    ensures p < 256 && Phase(rem, den) == p && PhasePos(rem, den) == p as real + t
  {
    var d, x := den as real, PhasePos(rem, den);
    SamePlace(x, p as real + t, rem as real, d);
    BelowRows(x, rem as real, d);
    assert x.Floor == p;
  }

  lemma SamePlace(x: real, y: real, r: real, d: real)
    requires d > 0.0 && x == (r / d) * 256.0 && y * d == 256.0 * r
    ensures x == y
  {
    assert (r / d) * d == r;
    assert x * d == 256.0 * r;
    assert (x - y) * d == 0.0;
  }

  lemma BelowRows(x: real, r: real, d: real)
    requires 0.0 <= r < d && x == (r / d) * 256.0
    ensures x < 256.0
  {
    assert (r / d) * d == r;
    assert (r / d) < 1.0;
  }

  /** `x` is the table's entry for tap `j`, a fraction `t` of the way from row `p` to the next. */
  predicate FromTable(x: real, coeffs: seq<real>, p: nat, t: real, j: nat)
    requires |coeffs| == 256 * 48 && p < 256 && j < 48
  {
    var a, b := coeffs[p * 48 + j], coeffs[(p + 1) % 256 * 48 + j];
    x == a + (b - a) * t
  }

  /**
   * The weight of one input sample: with a single one at tap `j` of a channel, that channel's
   * output is what the table has for that tap at the output's place between two input frames.
   */
  lemma WeightOfTap(c: Config, h: seq<real>, n: nat, ch: nat, j: nat, p: nat, t: real)
    requires ValidConfig(c) && c.kind.Sinc? && n < Outputs(c, |h| / 2) && ch < 2 && j < 48
    requires Between(p, t, n * c.num % c.den, c.den)
    requires forall k :: 0 <= k < 48 ==> Tap(c, h, n, ch, k) == if k == j then 1.0 else 0.0
    ensures p < 256 && FromTable(Heard(c, h, n, ch), c.kind.coeffs, p, t, j)
  {
    HeardIsSample(c, h, n, ch);
    PhaseIsBetween(p, t, Rest(c, n), c.den);
    WindowIsImpulse(c, h, n, ch, j);
    SampleFromTable(c, Window(c, h, n * c.num), Rest(c, n), ch, j, p, t);
  }

  lemma SampleFromTable(c: Config, w: seq<real>, rem: nat, ch: nat, j: nat, p: nat, t: real)
    requires ValidConfig(c) && c.kind.Sinc? && rem < c.den && Impulse(w, ch, j)
    requires p < 256 && Phase(rem, c.den) == p && PhasePos(rem, c.den) == p as real + t
    ensures FromTable(Sample(c, w, rem, ch), c.kind.coeffs, p, t, j)
  {
    SampleOfImpulse(c, w, rem, ch, j, p, t);
    RowAt(c.kind.coeffs, p, j);
    RowAt(c.kind.coeffs, (p + 1) % 256, j);
  }

  lemma WindowIsImpulse(c: Config, h: seq<real>, n: nat, ch: nat, j: nat)
    requires ValidConfig(c) && Ready(c, h, n * c.num) && ch < 2 && j < 48
    requires forall k :: 0 <= k < 48 ==> Tap(c, h, n, ch, k) == if k == j then 1.0 else 0.0
    ensures Impulse(Window(c, h, n * c.num), ch, j)
  {
    forall k | 0 <= k < TAPS ensures Window(c, h, n * c.num)[2 * k + ch] == if k == j then 1.0 else 0.0 {
      WindowTap(c, h, n, ch, k);
    }
  }

  lemma SampleOfImpulse(c: Config, w: seq<real>, rem: nat, ch: nat, j: nat, p: nat, t: real)
    requires ValidConfig(c) && c.kind.Sinc? && rem < c.den && Impulse(w, ch, j)
    requires p < 256 && Phase(rem, c.den) == p && PhasePos(rem, c.den) == p as real + t
    ensures var a, b := Row(c.kind.coeffs, p)[j], Row(c.kind.coeffs, (p + 1) % 256)[j];
            Sample(c, w, rem, ch) == a + (b - a) * t
  {
    TapSumOfImpulse(w, Row(c.kind.coeffs, p), Row(c.kind.coeffs, (p + 1) % 256), t, ch, j, TAPS);
  }

  lemma RowAt(coeffs: seq<real>, p: nat, j: nat)
    requires |coeffs| == PHASES * TAPS && p < 256 && j < 48
    ensures Row(coeffs, p)[j] == coeffs[p * 48 + j]
  {
  }

  /** The linear kind lies on the line between the two samples around the output's place. */
  lemma LinearIsBetween(c: Config, h: seq<real>, n: nat, ch: nat)
    requires ValidConfig(c) && c.kind.Linear? && n < Outputs(c, |h| / 2) && ch < 2
    ensures OnLine(Heard(c, h, n, ch), Tap(c, h, n, ch, 0), Tap(c, h, n, ch, 1), n * c.num % c.den, c.den)
  {
    HeardIsSample(c, h, n, ch);
    WindowTap(c, h, n, ch, 0);
    WindowTap(c, h, n, ch, 1);
    SampleOnLine(c, Window(c, h, n * c.num), Rest(c, n), ch);
  }

  /** `x` lies `rem/den` of the way from `x0` to `x1`. */
  predicate OnLine(x: real, x0: real, x1: real, rem: nat, den: nat) {
    den as real * (x - x0) == rem as real * (x1 - x0)
  }

  lemma SampleOnLine(c: Config, w: seq<real>, rem: nat, ch: nat)
    requires ValidConfig(c) && c.kind.Linear? && |w| == 2 * TAPS && rem < c.den && ch < 2
    ensures OnLine(Sample(c, w, rem, ch), w[2 * 0 + ch], w[2 * 1 + ch], rem, c.den)
  {
    OnTheLine(w[ch], w[ch + 2], rem as real, c.den as real);
  }

  lemma OnTheLine(a: real, b: real, r: real, d: real)
    requires d > 0.0
    ensures d * ((a + (b - a) * (r / d)) - a) == r * (b - a)
  {
    assert (r / d) * d == r;
    assert d * ((b - a) * (r / d)) == (b - a) * ((r / d) * d);
  }

  /** And all this is what a stream fed in any chunks has put out. */
  lemma StreamIsHeard(c: Config, chunks: seq<seq<real>>, n: nat, ch: nat)
    requires ValidConfig(c) && n < Outputs(c, |Flatten(chunks)| / 2) && ch < 2
    ensures 2 * n + ch < |FeedAll(c, Origin, chunks).out|
    ensures FeedAll(c, Origin, chunks).out[2 * n + ch] == Heard(c, Flatten(chunks), n, ch)
  {
    ChunkSplitInvariance(c, Origin, chunks);
    HeardInBounds(c, Flatten(chunks), n);
    assert [] + Flatten(chunks) == Flatten(chunks);
  }
}
