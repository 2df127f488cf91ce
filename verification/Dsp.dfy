/**
 * The streaming resampler of server/src/dsp.rs.
 *
 * A position is an exact count of `1/den`-ths of an input frame from the stream's origin.
 * Samples are interleaved stereo reals; the kernel table is an arbitrary PHASES x TAPS table.
 */
module Dsp {
  import opened Numbers

  const TAPS: nat := 48
  const PHASES: nat := 256

  datatype Kind = Sinc(coeffs: seq<real>) | Linear

  /** What `Resampler::new` fixes for the life of a stream. */
  datatype Config = Config(kind: Kind, num: nat, den: nat)

  predicate ValidConfig(c: Config) {
    c.num > 0 && c.den > 0 && (c.kind.Sinc? ==> |c.kind.coeffs| == PHASES * TAPS)
  }

  function Row(coeffs: seq<real>, p: nat): (r: seq<real>)
    requires |coeffs| == PHASES * TAPS && p < PHASES
    ensures |r| == TAPS
  {
    coeffs[p * TAPS..(p + 1) * TAPS]
  }

  /** Coefficient `k`, a fraction `t` of the way from row `r0` to row `r1`. */
  function Blend(r0: seq<real>, r1: seq<real>, t: real, k: nat): real
    requires |r0| == |r1| && k < |r0|
  {
    r0[k] + (r1[k] - r0[k]) * t
  }

  /** The first `k` taps of channel `ch`, accumulated in tap order. */
  function TapSum(win: seq<real>, r0: seq<real>, r1: seq<real>, t: real, ch: nat, k: nat): real
    requires |r0| == |r1| && |win| == 2 * |r0| && ch < 2 && k <= |r0|
  {
    if k == 0 then 0.0
    else TapSum(win, r0, r1, t, ch, k - 1) + Blend(r0, r1, t, k - 1) * win[2 * (k - 1) + ch]
  }

  function PhasePos(rem: nat, den: nat): (pf: real)
    requires rem < den
    ensures pf >= 0.0
  {
    (rem as real / den as real) * 256.0
  }

  function Phase(rem: nat, den: nat): (p: nat)
    requires rem < den
    ensures p < PHASES
  {
    var p := PhasePos(rem, den).Floor;
    if p < PHASES - 1 then p else PHASES - 1
  }

  /** Channel `ch` of the output whose window is `win` and whose fractional offset is `rem/den`. */
  function Sample(c: Config, win: seq<real>, rem: nat, ch: nat): real
    requires ValidConfig(c) && |win| == 2 * TAPS && rem < c.den && ch < 2
  {
    match c.kind
    case Sinc(coeffs) =>
      var p0 := Phase(rem, c.den);
      var t := PhasePos(rem, c.den) - p0 as real;
      TapSum(win, Row(coeffs, p0), Row(coeffs, (p0 + 1) % PHASES), t, ch, TAPS)
    case Linear =>
      Interpolate(win[ch], win[ch + 2], rem, c.den)
  }

  function Interpolate(a: real, b: real, rem: nat, den: nat): real
    requires den > 0
  {
    a + (b - a) * (rem as real / den as real)
  }

  /** Whether history `h` holds the whole window of the output at `pos`. */
  predicate Ready(c: Config, h: seq<real>, pos: nat)
    requires c.den > 0
  {
    pos / c.den + TAPS <= |h| / 2
  }

  function Window(c: Config, h: seq<real>, pos: nat): (w: seq<real>)
    requires c.den > 0 && Ready(c, h, pos)
    ensures |w| == 2 * TAPS
  {
    h[pos / c.den * 2..(pos / c.den + TAPS) * 2]
  }

  function Frame(c: Config, h: seq<real>, pos: nat): (f: seq<real>)
    requires ValidConfig(c) && Ready(c, h, pos)
    ensures |f| == 2
  {
    var w, rem := Window(c, h, pos), pos % c.den;
    [Sample(c, w, rem, 0), Sample(c, w, rem, 1)]
  }

  /** Everything the loop emits from `pos` until the history runs out. */
  function Produced(c: Config, h: seq<real>, pos: nat): (r: seq<real>)
    requires ValidConfig(c)
    decreases |h| / 2 * c.den - pos
  {
    if !Ready(c, h, pos) then []
    else
      ReadyBelowEnd(c, h, pos);
      Frame(c, h, pos) + Produced(c, h, pos + c.num)
  }

  lemma {:induction false} ProducesWholeFrames(c: Config, h: seq<real>, pos: nat) returns (frames: nat)
    requires ValidConfig(c)
    ensures |Produced(c, h, pos)| == 2 * frames
    decreases |h| / 2 * c.den - pos
  {
    frames := 0;
    if Ready(c, h, pos) {
      ReadyBelowEnd(c, h, pos);
      frames := ProducesWholeFrames(c, h, pos + c.num);
      frames := frames + 1;
    }
  }

  /** Where the loop stops. */
  function FinalPos(c: Config, h: seq<real>, pos: nat): (p: nat)
    requires ValidConfig(c)
    ensures !Ready(c, h, p) && p >= pos
    decreases |h| / 2 * c.den - pos
  {
    if !Ready(c, h, pos) then pos
    else
      ReadyBelowEnd(c, h, pos);
      FinalPos(c, h, pos + c.num)
  }

  /** A stream between calls: all input so far, the next output's position, all output so far. */
  datatype Stream = Stream(hist: seq<real>, pos: nat, out: seq<real>)

  const Origin := Stream([], 0, [])

  function Feed(c: Config, s: Stream, input: seq<real>): Stream
    requires ValidConfig(c)
  {
    var h := s.hist + input;
    Stream(h, FinalPos(c, h, s.pos), s.out + Produced(c, h, s.pos))
  }

  function FeedAll(c: Config, s: Stream, chunks: seq<seq<real>>): Stream
    requires ValidConfig(c)
    decreases |chunks|
  {
    if chunks == [] then s else FeedAll(c, Feed(c, s, chunks[0]), chunks[1..])
  }

  lemma ReadyBelowEnd(c: Config, h: seq<real>, pos: nat)
    requires c.den > 0 && Ready(c, h, pos)
    ensures pos < |h| / 2 * c.den
  {
    var b, f := pos / c.den, |h| / 2;
    assert pos == b * c.den + pos % c.den;
    MulMonotone(b + 1, f, c.den);
  }

  /** Outputs a stream of `frames` input frames has produced since its origin. */
  function Outputs(c: Config, frames: nat): nat
    requires c.num > 0
  {
    if frames < TAPS then 0 else CeilDiv((frames - TAPS + 1) * c.den, c.num)
  }

  /** The tap loop of one sinc output. */
  method ConvolveWindow(win: seq<real>, r0: seq<real>, r1: seq<real>, t: real)
    returns (l: real, r: real)
    requires |r0| == |r1| && |win| == 2 * |r0|
    ensures l == TapSum(win, r0, r1, t, 0, |r0|)
    ensures r == TapSum(win, r0, r1, t, 1, |r0|)
  {
    l, r := 0.0, 0.0;
    for k := 0 to |r0|
      invariant l == TapSum(win, r0, r1, t, 0, k)
      invariant r == TapSum(win, r0, r1, t, 1, k)
    {
      var c := r0[k] + (r1[k] - r0[k]) * t;
      l := l + c * win[2 * k];
      r := r + c * win[2 * k + 1];
    }
  }

  lemma Regroup(a: seq<real>, b: seq<real>, c: seq<real>)
    ensures (a + b) + c == a + (b + c)
  {
  }

  /** One sinc output: pick the two adjacent phase rows and convolve. */
  method SincFrame(c: Config, win: seq<real>, rem: nat) returns (l: real, r: real)
    requires ValidConfig(c) && c.kind.Sinc? && |win| == 2 * TAPS && rem < c.den
    ensures l == Sample(c, win, rem, 0) && r == Sample(c, win, rem, 1)
  {
    var pf := PhasePos(rem, c.den);
    var p0 := if pf.Floor < PHASES - 1 then pf.Floor else PHASES - 1;
    var p1 := (p0 + 1) % PHASES;
    l, r := ConvolveWindow(win, Row(c.kind.coeffs, p0), Row(c.kind.coeffs, p1), pf - p0 as real);
  }

  class Resampler {
    const cfg: Config
    var pos: nat
    var hist: seq<real>
    var off: nat

    constructor (c: Config)
      requires ValidConfig(c)
      ensures Valid() && cfg == c && hist == [] && off == 0 && pos == 0
    {
      cfg := c;
      pos, hist, off := 0, [], 0;
    }

    /** `off` never passes the end of the history, and the loop has left nothing ready. */
    ghost predicate Valid()
      reads this
    {
      && ValidConfig(cfg)
      && |hist| % 2 == 0
      && off * 2 <= |hist|
      && !Ready(cfg, hist, pos)
    }

    method EmitFrame(p: nat) returns (l: real, r: real)
      requires ValidConfig(cfg) && Ready(cfg, hist, p)
      ensures [l, r] == Frame(cfg, hist, p)
    {
      var base, rem := p / cfg.den, p % cfg.den;
      if cfg.kind.Sinc? {
        l, r := SincFrame(cfg, hist[base * 2..(base + TAPS) * 2], rem);
      } else {
        var s := base * 2;
        ghost var w := Window(cfg, hist, p);
        assert w[0] == hist[s] && w[1] == hist[s + 1] && w[2] == hist[s + 2] && w[3] == hist[s + 3];
        l := Interpolate(hist[s], hist[s + 2], rem, cfg.den);
        r := Interpolate(hist[s + 1], hist[s + 3], rem, cfg.den);
      }
    }

    /** The output loop. */
    method EmitReady(out: seq<real>) returns (out': seq<real>, produced: nat)
      requires ValidConfig(cfg)
      modifies this`pos
      ensures pos == FinalPos(cfg, hist, old(pos))
      ensures out' == out + Produced(cfg, hist, old(pos)) && |out'| == |out| + 2 * produced
    {
      out', produced := out, 0;
      while true
        invariant |out'| == |out| + 2 * produced
        invariant out' + Produced(cfg, hist, pos) == out + Produced(cfg, hist, old(pos))
        invariant FinalPos(cfg, hist, pos) == FinalPos(cfg, hist, old(pos))
        decreases |hist| / 2 * cfg.den - pos
      {
        var base := pos / cfg.den;
        if base + TAPS > |hist| / 2 {
          break;
        }
        ReadyBelowEnd(cfg, hist, pos);
        var l, r := EmitFrame(pos);
        Regroup(out', [l, r], Produced(cfg, hist, pos + cfg.num));
        out' := out' + [l, r];
        produced := produced + 1;
        pos := pos + cfg.num;
      }
    }

    /** One call: append the input, emit every ready output, retire consumed frames. */
    method Resample(input: seq<real>, out: seq<real>) returns (out': seq<real>, produced: nat)
      requires Valid() && |input| % 2 == 0
      modifies this
      ensures Valid()
      ensures Stream(hist, pos, out') == Feed(cfg, Stream(old(hist), old(pos), out), input)
      ensures |out'| == |out| + 2 * produced
      ensures off >= old(off)
      ensures off == Max(old(off), Min(pos / cfg.den, SatSub(|hist| / 2, if cfg.kind.Sinc? then TAPS - 1 else 1)))
    {
      hist := hist + input;
      out', produced := EmitReady(out);
      Retire();
    }

    /** Note how far consumed frames reach, and erase them if they dominate. */
    method Retire()
      requires ValidConfig(cfg) && off * 2 <= |hist|
      modifies this`off
      ensures off * 2 <= |hist|
      ensures off == Max(old(off), Min(pos / cfg.den, SatSub(|hist| / 2, if cfg.kind.Sinc? then TAPS - 1 else 1)))
    {
      var keep := if cfg.kind.Sinc? then TAPS - 1 else 1;
      var consumed := Min(pos / cfg.den, SatSub(|hist| / 2, keep));
      if consumed > off {
        off := consumed;
      }
      if off * 2 > |hist| {
        // The erasure of the consumed prefix: the guard compares frames with samples.
        assert false;
      }
    }
  }

  /** `Resampler::new`: null when no resampling is needed or a rate is zero. */
  method NewResampler(src: nat, dst: nat, kind: Kind) returns (r: Resampler?)
    requires kind.Sinc? ==> |kind.coeffs| == PHASES * TAPS
    ensures r == null <==> src == dst || src == 0 || dst == 0
    ensures r != null ==> fresh(r) && r.Valid() && r.hist == [] && r.pos == 0 && r.off == 0
    ensures r != null ==> r.cfg == ConfigOf(src, dst, kind)
  {
    if src == dst || src == 0 || dst == 0 {
      return null;
    }
    var g := GcdLoop(src, dst);
    GcdPositive(src, dst);
    GcdDivides(src, dst);
    r := new Resampler(Config(kind, src / g, dst / g));
  }

  function ConfigOf(src: nat, dst: nat, kind: Kind): (c: Config)
    requires src > 0 && dst > 0
    ensures c.kind == kind && c.num > 0 && c.den > 0
  {
    GcdPositive(src, dst);
    GcdDivides(src, dst);
    var g := Gcd(src, dst);
    Config(kind, src / g, dst / g)
  }
}
