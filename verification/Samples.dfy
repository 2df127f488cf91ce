/**
 * What the reader makes of a client's bytes, in plain numbers: folding, packing, and a client's
 * samples as the mixer hears them (server/src/dsp.rs, server/src/main.rs).
 */
module Samples {
  import opened Bytes
  import opened Pcm
  import Mixer
  import Delivery

  // ---------------------------------------------------------------- folding

  /** Frame `f` of a fold is the downmix of the bytes of frame `f`. */
  lemma NthFrame(fmt: Format, ch: nat, src: seq<byte>, f: nat, at: nat)
    requires ValidChannels(ch) && at == f * FrameBytes(fmt, ch) && at + FrameBytes(fmt, ch) <= |src|
    ensures 2 * f + 2 <= |Fold(fmt, ch, src)|
    ensures Fold(fmt, ch, src)[2 * f..2 * f + 2] == Downmix(Channels(fmt, src[at..at + FrameBytes(fmt, ch)], ch))
  {
    FramesBefore(f, at, FrameBytes(fmt, ch));
    NthFrameIs(fmt, ch, src, f, at, src[at..at + FrameBytes(fmt, ch)]);
  }

  /** Offset `at` lies `f` frames of `fsz` bytes in. */
  predicate Behind(f: nat, at: nat, fsz: nat) {
    if f == 0 then at == 0 else at >= fsz && Behind(f - 1, at - fsz, fsz)
  }

  lemma {:induction false} FramesBefore(f: nat, at: nat, fsz: nat)
    requires at == f * fsz
    ensures Behind(f, at, fsz)
  {
    if f > 0 {
      OneFrameLess(f, fsz);
      FramesBefore(f - 1, at - fsz, fsz);
    }
  }

  lemma {:induction false} NthFrameIs(fmt: Format, ch: nat, src: seq<byte>, f: nat, at: nat, frame: seq<byte>)
    requires ValidChannels(ch) && Behind(f, at, FrameBytes(fmt, ch)) && at + FrameBytes(fmt, ch) <= |src|
    requires frame == src[at..at + FrameBytes(fmt, ch)]
    ensures 2 * f + 2 <= |Fold(fmt, ch, src)|
    ensures Fold(fmt, ch, src)[2 * f..2 * f + 2] == Downmix(Channels(fmt, frame, ch))
    decreases f
  {
    var fsz := FrameBytes(fmt, ch);
    if f == 0 {
      FirstFrameIs(fmt, ch, src);
    } else {
      SliceOfRest(src, fsz, at);
      NthFrameIs(fmt, ch, src[fsz..], f - 1, at - fsz, frame);
      LaterFrameIs(fmt, ch, src, f);
    }
  }

  lemma FirstFrameIs(fmt: Format, ch: nat, src: seq<byte>)
    requires ValidChannels(ch) && |src| >= FrameBytes(fmt, ch)
    ensures 2 <= |Fold(fmt, ch, src)|
    ensures Fold(fmt, ch, src)[0..2] == Downmix(Channels(fmt, src[0..FrameBytes(fmt, ch)], ch))
  {
    assert src[0..FrameBytes(fmt, ch)] == src[..FrameBytes(fmt, ch)];
  }

  lemma LaterFrameIs(fmt: Format, ch: nat, src: seq<byte>, f: nat)
    requires ValidChannels(ch) && f > 0 && |src| >= FrameBytes(fmt, ch)
    requires 2 * f <= |Fold(fmt, ch, src[FrameBytes(fmt, ch)..])|
    ensures 2 * f + 2 <= |Fold(fmt, ch, src)|
    ensures Fold(fmt, ch, src)[2 * f..2 * f + 2]
         == Fold(fmt, ch, src[FrameBytes(fmt, ch)..])[2 * (f - 1)..2 * (f - 1) + 2]
  {
    var rest := src[FrameBytes(fmt, ch)..];
    var d := Downmix(Channels(fmt, src[..FrameBytes(fmt, ch)], ch));
    FoldStep(fmt, ch, src, d, rest);
    SliceBehind(d, Fold(fmt, ch, rest), f);
  }

  lemma SliceOfRest(src: seq<byte>, fsz: nat, at: nat)
    requires fsz <= at && at + fsz <= |src|
    ensures src[fsz..][at - fsz..at - fsz + fsz] == src[at..at + fsz]
  {
  }

  lemma SliceBehind(d: seq<real>, t: seq<real>, f: nat)
    requires |d| == 2 && 0 < f && 2 * f <= |t|
    ensures (d + t)[2 * f..2 * f + 2] == t[2 * (f - 1)..2 * (f - 1) + 2]
  {
  }

  lemma PairAt<T>(s: seq<T>, i: nat)
    requires 2 * i + 2 <= |s|
    ensures s[2 * i..2 * i + 2] == [s[2 * i], s[2 * i + 1]]
  {
  }

  /** A 16-bit channel of a frame is the number its two bytes stand for, in units of 32768. */
  lemma ShortChannel(src: seq<byte>, at: nat, ch: nat, k: nat, x: int)
    requires at + 2 * ch <= |src| && k < ch && Stands(x, src[at + 2 * k], src[at + 2 * k + 1])
    ensures Channels(S16Le, src[at..at + 2 * ch], ch)[k] == x as real / 32768.0
  {
    var s := src[at..at + 2 * ch];
    assert s[k * 2] == src[at + 2 * k] && s[k * 2 + 1] == src[at + 2 * k + 1];
    DecodedStands(s[k * 2], s[k * 2 + 1]);
    OneNumber(x, DecodeI16(s[k * 2], s[k * 2 + 1]), s[k * 2], s[k * 2 + 1]);
  }

  /** A float channel is what its four bytes decode to, in their order. */
  lemma FloatChannel(fmt: Format, src: seq<byte>, at: nat, ch: nat, k: nat)
    requires fmt.FloatLe? && at + 4 * ch <= |src| && k < ch
    ensures Channels(fmt, src[at..at + 4 * ch], ch)[k]
         == fmt.decode(src[at + 4 * k], src[at + 4 * k + 1], src[at + 4 * k + 2], src[at + 4 * k + 3])
  {
  }

  /** Mono goes to both sides. */
  lemma MonoFrame(src: seq<byte>, f: nat, x: int)
    requires 2 * f + 2 <= |src| && Stands(x, src[2 * f], src[2 * f + 1])
    ensures 2 * f + 2 <= |Fold(S16Le, 1, src)|
    ensures Fold(S16Le, 1, src)[2 * f] == Fold(S16Le, 1, src)[2 * f + 1] == x as real / 32768.0
  {
    NthFrame(S16Le, 1, src, f, 2 * f);
    ShortChannel(src, 2 * f, 1, 0, x);
    PairAt(Fold(S16Le, 1, src), f);
  }

  /** Stereo keeps its sides. */
  lemma StereoFrame(src: seq<byte>, f: nat, x: int, y: int)
    requires 4 * f + 4 <= |src|
    requires Stands(x, src[4 * f], src[4 * f + 1]) && Stands(y, src[4 * f + 2], src[4 * f + 3])
    ensures 2 * f + 2 <= |Fold(S16Le, 2, src)|
    ensures Fold(S16Le, 2, src)[2 * f] == x as real / 32768.0
    ensures Fold(S16Le, 2, src)[2 * f + 1] == y as real / 32768.0
  {
    NthFrame(S16Le, 2, src, f, 4 * f);
    ShortChannel(src, 4 * f, 2, 0, x);
    ShortChannel(src, 4 * f, 2, 1, y);
    PairAt(Fold(S16Le, 2, src), f);
  }

  /** Every second value, from `from` on. */
  function EverySecond(v: seq<real>, from: nat): real
    decreases |v| - from
  {
    if from >= |v| then 0.0 else v[from] + EverySecond(v, from + 2)
  }

  lemma {:induction false} SecondsUpTo(v: seq<real>, from: nat, k: nat)
    requires from <= k <= |v|
    ensures ParitySum(v, from % 2, k) + (if (k - from) % 2 == 0 then EverySecond(v, k) else EverySecond(v, k + 1))
         == ParitySum(v, from % 2, from) + EverySecond(v, from)
    decreases k - from
  {
    if k > from {
      SecondsUpTo(v, from, k - 1);
    }
  }

  lemma ParityIsEverySecond(v: seq<real>, p: nat)
    requires p < 2 <= |v|
    ensures ParitySum(v, p, |v|) == EverySecond(v, p)
  {
    SecondsUpTo(v, p, |v|);
  }

  /** Each side times its number of channels is the sum of every second one. */
  predicate Averages(left: real, right: real, v: seq<real>) {
    && left * ((|v| + 1) / 2) as real == EverySecond(v, 0)
    && right * (|v| / 2) as real == EverySecond(v, 1)
  }

  /** More than two channels average to the sides by their index. */
  lemma WideFrame(fmt: Format, ch: nat, src: seq<byte>, f: nat, at: nat)
    requires 2 < ch <= 8 && at == f * FrameBytes(fmt, ch) && at + FrameBytes(fmt, ch) <= |src|
    ensures 2 * f + 2 <= |Fold(fmt, ch, src)|
    ensures Averages(Fold(fmt, ch, src)[2 * f], Fold(fmt, ch, src)[2 * f + 1],
                     Channels(fmt, src[at..at + FrameBytes(fmt, ch)], ch))
  {
    NthFrame(fmt, ch, src, f, at);
    PairAt(Fold(fmt, ch, src), f);
    DownmixAverages(Channels(fmt, src[at..at + FrameBytes(fmt, ch)], ch));
  }

  lemma DownmixAverages(v: seq<real>)
    requires |v| > 2
    ensures Averages(Downmix(v)[0], Downmix(v)[1], v)
  {
    ParityIsEverySecond(v, 0);
    ParityIsEverySecond(v, 1);
    TimesCount(EverySecond(v, 0), (|v| + 1) / 2);
    TimesCount(EverySecond(v, 1), |v| / 2);
  }

  lemma TimesCount(s: real, n: nat)
    requires n > 0
    ensures (s / n as real) * n as real == s
  {
  }

  // ---------------------------------------------------------------- packing

  /** The number that packed bytes stand for is the packed sample. */
  lemma {:induction false} PackedNumber(inp: seq<real>, i: nat, x: int)
    requires i < |inp| && Stands(x, Pack(inp)[2 * i], Pack(inp)[2 * i + 1])
    ensures x == PackSample(inp[i])
  {
    if i == 0 {
      EncodedStands(PackSample(inp[0]));
    } else {
      var e := EncodeI16(PackSample(inp[0]));
      assert Pack(inp) == e + Pack(inp[1..]);
      PackedNumber(inp[1..], i - 1, x);
    }
  }

  /** `x` is `v` in units of 32767, cut toward zero, and held at the rails beyond one. */
  predicate Scaled(x: int, v: real) {
    && (v >= 1.0 ==> x == 32767)
    && (v <= -1.0 ==> x == -32767)
    && (-1.0 < v < 1.0 ==>
          && (x > 0 ==> v > 0.0) && (x < 0 ==> v < 0.0)
          && Mixer.Size(x) as real <= Mixer.SizeOf(v * 32767.0) < Mixer.Size(x) as real + 1.0)
  }

  /** A packed sample's bytes stand for the sample, scaled. */
  lemma PackedIsScaled(inp: seq<real>, i: nat, x: int)
    requires i < |inp| && Stands(x, Pack(inp)[2 * i], Pack(inp)[2 * i + 1])
    ensures Scaled(x, inp[i])
  {
    PackedNumber(inp, i, x);
    PackSampleIsScaled(inp[i]);
  }

  lemma PackSampleIsScaled(v: real)
    ensures Scaled(PackSample(v), v)
  {
    if -1.0 < v < 1.0 {
      Mixer.TruncCuts(v * 32767.0);
    }
  }

  // ---------------------------------------------------------------- one client, sample by sample

  function StepToZero(x: int): int {
    if x > 0 then x - 1 else if x < 0 then x + 1 else 0
  }

  /**
   * A 16-bit stereo client at the mix rate that goes through conversion is rendered to its own
   * samples, channel for channel, each one step nearer zero.
   */
  lemma StereoClientIsItself(src: seq<byte>, i: nat, x: int, y: int)
    requires |src| % 4 == 0 && 2 * i + 1 < |src| && Stands(x, src[2 * i], src[2 * i + 1])
    ensures |Delivery.Rendered(Delivery.Converting(S16Le, 2, SameRate), src)| == |src|
    ensures var out := Delivery.Rendered(Delivery.Converting(S16Le, 2, SameRate), src);
            Stands(y, out[2 * i], out[2 * i + 1]) ==> y == StepToZero(x)
  {
    var folded := Fold(S16Le, 2, src);
    StereoFoldLength(src);
    StereoSample(src, i, x);
    assert [] + folded == folded;
    if Stands(y, Pack(folded)[2 * i], Pack(folded)[2 * i + 1]) {
      PackedNumber(folded, i, y);
      PackAfterFold(x);
    }
  }

  lemma {:induction false} StereoFoldLength(src: seq<byte>)
    requires |src| % 4 == 0
    ensures 2 * |Fold(S16Le, 2, src)| == |src|
    decreases |src|
  {
    if |src| >= 4 {
      StereoFoldLength(src[4..]);
    }
  }

  lemma StereoSample(src: seq<byte>, i: nat, x: int)
    requires |src| % 4 == 0 && 2 * i + 1 < |src| && Stands(x, src[2 * i], src[2 * i + 1])
    ensures i < |Fold(S16Le, 2, src)| && Fold(S16Le, 2, src)[i] == x as real / 32768.0
  {
    var f := i / 2;
    if i % 2 == 0 {
      StereoFrame(src, f, x, DecodeI16(src[4 * f + 2], src[4 * f + 3]));
    } else {
      StereoFrame(src, f, DecodeI16(src[4 * f], src[4 * f + 1]), x);
    }
  }
}
