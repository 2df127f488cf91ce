/**
 * Client PCM to mix-rate S16LE stereo: `fold_to_stereo` and `f32_stereo_to_s16` of
 * server/src/dsp.rs, and the reader's fold -> resample -> pack pipeline of server/src/main.rs.
 */
module Pcm {
  import opened Bytes
  import opened Numbers
  import opened Dsp
  import opened ResamplerLaws

  /** The two formats the header check admits; decoding four float bytes is a parameter. */
  datatype Format = S16Le | FloatLe(decode: (byte, byte, byte, byte) -> real)

  predicate ValidChannels(ch: nat) {
    1 <= ch <= 8
  }

  function Channel(fmt: Format, s: seq<byte>, c: nat): real
    requires FrameBytes(fmt, c + 1) <= |s|
  {
    match fmt
    case S16Le => DecodeI16(s[c * 2], s[c * 2 + 1]) as real / 32768.0
    case FloatLe(decode) => decode(s[c * 4], s[c * 4 + 1], s[c * 4 + 2], s[c * 4 + 3])
  }

  function Channels(fmt: Format, s: seq<byte>, ch: nat): (v: seq<real>)
    requires FrameBytes(fmt, ch) <= |s|
    ensures |v| == ch
  {
    seq(ch, c requires 0 <= c < ch => Channel(fmt, s, c))
  }

  /** Sum of the first `k` channels whose index has the given parity. */
  function ParitySum(v: seq<real>, parity: nat, k: nat): real
    requires k <= |v|
  {
    if k == 0 then 0.0
    else ParitySum(v, parity, k - 1) + (if (k - 1) % 2 == parity then v[k - 1] else 0.0)
  }

  /** Mono duplicates, stereo passes, more channels average by index parity. */
  function Downmix(v: seq<real>): (f: seq<real>)
    requires |v| > 0
    ensures |f| == 2
  {
    if |v| == 1 then [v[0], v[0]]
    else if |v| == 2 then [v[0], v[1]]
    else [ParitySum(v, 0, |v|) / ((|v| + 1) / 2) as real, ParitySum(v, 1, |v|) / (|v| / 2) as real]
  }

  function FrameBytes(fmt: Format, ch: nat): (n: nat)
    ensures ch > 0 ==> n >= 2
  {
    if fmt.S16Le? then 2 * ch else 4 * ch
  }

  function Fold(fmt: Format, ch: nat, src: seq<byte>): (out: seq<real>)
    requires ValidChannels(ch)
    decreases |src|
  {
    var fsz := FrameBytes(fmt, ch);
    if |src| < fsz then []
    else Downmix(Channels(fmt, src[..fsz], ch)) + Fold(fmt, ch, src[fsz..])
  }

  method AverageChannels(v: seq<real>) returns (l: real, r: real)
    requires |v| > 2
    ensures [l, r] == Downmix(v)
  {
    l, r := 0.0, 0.0;
    var nl, nr := 0, 0;
    for c := 0 to |v|
      invariant l == ParitySum(v, 0, c) && r == ParitySum(v, 1, c)
      invariant nl == (c + 1) / 2 && nr == c / 2
    {
      if c % 2 == 0 {
        l, nl := l + v[c], nl + 1;
      } else {
        r, nr := r + v[c], nr + 1;
      }
    }
    l, r := l / nl as real, r / nr as real;
  }

  method FoldFrame(chans: seq<real>) returns (l: real, r: real)
    requires |chans| > 0
    ensures [l, r] == Downmix(chans)
  {
    if |chans| == 1 {
      l, r := chans[0], chans[0];
    } else if |chans| == 2 {
      l, r := chans[0], chans[1];
    } else {
      l, r := AverageChannels(chans);
    }
  }

  /** One pass over the whole frames of `src`; a trailing partial frame is ignored. */
  method FoldToStereo(src: seq<byte>, fmt: Format, ch: nat, out: seq<real>) returns (out': seq<real>)
    requires ValidChannels(ch)
    ensures out' == out + Fold(fmt, ch, src)
  {
    var fsz := FrameBytes(fmt, ch);
    out' := out;
    var rest := src;
    while |rest| >= fsz
      invariant out' + Fold(fmt, ch, rest) == out + Fold(fmt, ch, src)
      decreases |rest|
    {
      var l, r := FoldFrame(Channels(fmt, rest[..fsz], ch));
      Regroup(out', [l, r], Fold(fmt, ch, rest[fsz..]));
      out' := out' + [l, r];
      rest := rest[fsz..];
    }
  }

  function PackSample(v: real): i16 {
    Trunc((if v < -1.0 then -1.0 else if v > 1.0 then 1.0 else v) * 32767.0)
  }

  function Pack(inp: seq<real>): (out: seq<byte>)
    ensures |out| == 2 * |inp|
  {
    if inp == [] then [] else EncodeI16(PackSample(inp[0])) + Pack(inp[1..])
  }

  method PackToS16(inp: seq<real>, out: seq<byte>) returns (out': seq<byte>)
    ensures out' == out + Pack(inp)
  {
    out' := out;
    for i := 0 to |inp|
      invariant out' + Pack(inp[i..]) == out + Pack(inp)
    {
      var b := EncodeI16(PackSample(inp[i]));
      ghost var tail := Pack(inp[i + 1..]);
      assert inp[i..][1..] == inp[i + 1..];
      assert (out' + b) + tail == out' + (b + tail);
      out' := out' + b;
    }
    assert inp[|inp|..] == [];
  }

  // ---------------------------------------------------------------- laws

  lemma {:induction false} FoldDistributes(fmt: Format, ch: nat, a: seq<byte>, b: seq<byte>, frames: nat)
    requires ValidChannels(ch) && |a| == frames * FrameBytes(fmt, ch)
    ensures Fold(fmt, ch, a + b) == Fold(fmt, ch, a) + Fold(fmt, ch, b)
  {
    var fsz := FrameBytes(fmt, ch);
    if frames == 0 {
      assert a + b == b;
    } else {
      OneFrameLess(frames, fsz);
      FoldDistributes(fmt, ch, a[fsz..], b, frames - 1);
      FoldFirst(fmt, ch, a, b);
    }
  }

  lemma FoldFirst(fmt: Format, ch: nat, a: seq<byte>, b: seq<byte>)
    requires ValidChannels(ch) && |a| >= FrameBytes(fmt, ch)
    requires var t := a[FrameBytes(fmt, ch)..]; Fold(fmt, ch, t + b) == Fold(fmt, ch, t) + Fold(fmt, ch, b)
    ensures Fold(fmt, ch, a + b) == Fold(fmt, ch, a) + Fold(fmt, ch, b)
  {
    var fsz := FrameBytes(fmt, ch);
    var f, t := Downmix(Channels(fmt, a[..fsz], ch)), a[fsz..];
    FirstFrame(a, b, fsz);
    FoldStep(fmt, ch, a, f, t);
    FoldStep(fmt, ch, a + b, f, t + b);
    Regroup(f, Fold(fmt, ch, t), Fold(fmt, ch, b));
  }

  lemma FoldStep(fmt: Format, ch: nat, src: seq<byte>, f: seq<real>, rest: seq<byte>)
    requires ValidChannels(ch) && |src| >= FrameBytes(fmt, ch)
    requires f == Downmix(Channels(fmt, src[..FrameBytes(fmt, ch)], ch)) && rest == src[FrameBytes(fmt, ch)..]
    ensures Fold(fmt, ch, src) == f + Fold(fmt, ch, rest)
  {
  }

  lemma OneFrameLess(frames: nat, fsz: nat)
    requires frames > 0
    ensures frames * fsz >= fsz && (frames - 1) * fsz == frames * fsz - fsz
  {
    MulMonotone(1, frames, fsz);
  }

  lemma FirstFrame(a: seq<byte>, b: seq<byte>, fsz: nat)
    requires fsz <= |a|
    ensures (a + b)[..fsz] == a[..fsz] && (a + b)[fsz..] == a[fsz..] + b
  {
  }

  lemma {:induction false} PackDistributes(a: seq<real>, b: seq<real>)
    ensures Pack(a + b) == Pack(a) + Pack(b)
  {
    if a == [] {
      assert a + b == b;
    } else {
      assert (a + b)[1..] == a[1..] + b;
      PackDistributes(a[1..], b);
    }
  }

  /** Folding a 16-bit sample and packing it again moves every nonzero sample one step to zero. */
  lemma PackAfterFold(x: i16)
    ensures PackSample(x as real / 32768.0) == if x > 0 then x - 1 else if x < 0 then x + 1 else 0
  {
    var y := (x as real / 32768.0) * 32767.0;
    assert y == x as real - x as real / 32768.0;
    if x > 0 {
      assert (x - 1) as real <= y < x as real;
      assert y.Floor == x - 1;
    } else if x < 0 {
      var m: int := x;
      assert (-m - 1) as real <= -y < (-m) as real;
      assert (-y).Floor == -m - 1;
    }
  }

  // ---------------------------------------------------------------- the reader pipeline

  /** A reader between chunks: its resampler's stream and the bytes pushed to the mixer ring. */
  datatype Reader = Reader(stream: Stream, pushed: seq<byte>)

  /** `None` for a client already at the mix rate. */
  datatype Rate = SameRate | Resampled(c: Config)

  predicate ValidRate(r: Rate) {
    r.Resampled? ==> ValidConfig(r.c)
  }

  function Convert(r: Rate, s: Stream, folded: seq<real>): (t: Stream)
    requires ValidRate(r)
    ensures |t.out| >= |s.out| && t.out[..|s.out|] == s.out
  {
    match r
    case SameRate => Stream(s.hist, s.pos, s.out + folded)
    case Resampled(c) => Feed(c, s, folded)
  }

  function ReadChunk(fmt: Format, ch: nat, r: Rate, st: Reader, chunk: seq<byte>): Reader
    requires ValidChannels(ch) && ValidRate(r)
  {
    var t := Convert(r, st.stream, Fold(fmt, ch, chunk));
    Reader(t, st.pushed + Pack(t.out[|st.stream.out|..]))
  }

  function ReadAll(fmt: Format, ch: nat, r: Rate, st: Reader, chunks: seq<seq<byte>>): Reader
    requires ValidChannels(ch) && ValidRate(r)
    decreases |chunks|
  {
    if chunks == [] then st
    else ReadAll(fmt, ch, r, ReadChunk(fmt, ch, r, st, chunks[0]), chunks[1..])
  }

  predicate FrameAligned(fmt: Format, ch: nat, chunks: seq<seq<byte>>)
    requires ValidChannels(ch)
  {
    forall i :: 0 <= i < |chunks| ==> |chunks[i]| % FrameBytes(fmt, ch) == 0
  }

  lemma ConvertTwice(r: Rate, s: Stream, a: seq<real>, b: seq<real>)
    requires ValidRate(r)
    ensures Convert(r, Convert(r, s, a), b) == Convert(r, s, a + b)
  {
    match r
    case SameRate =>
      assert s.out + (a + b) == (s.out + a) + b;
    case Resampled(c) =>
      FeedTwice(c, s, a, b);
  }

  predicate AtRest(r: Rate, s: Stream)
    requires ValidRate(r)
  {
    r.Resampled? ==> !Ready(r.c, s.hist, s.pos)
  }

  lemma ConvertNothing(r: Rate, s: Stream)
    requires ValidRate(r) && AtRest(r, s)
    ensures Convert(r, s, []) == s
  {
    assert s.out + [] == s.out && s.hist + [] == s.hist;
  }

  predicate InStep(st: Reader) {
    st.pushed == Pack(st.stream.out)
  }

  lemma ChunkKeepsInStep(fmt: Format, ch: nat, r: Rate, st: Reader, chunk: seq<byte>)
    requires ValidChannels(ch) && ValidRate(r) && InStep(st)
    ensures InStep(ReadChunk(fmt, ch, r, st, chunk))
  {
    var t, n := Convert(r, st.stream, Fold(fmt, ch, chunk)), |st.stream.out|;
    PackDistributes(st.stream.out, t.out[n..]);
    assert t.out == st.stream.out + t.out[n..];
  }

  lemma AlignedTail(fmt: Format, ch: nat, chunks: seq<seq<byte>>)
    requires ValidChannels(ch) && chunks != [] && FrameAligned(fmt, ch, chunks)
    ensures |chunks[0]| % FrameBytes(fmt, ch) == 0 && FrameAligned(fmt, ch, chunks[1..])
  {
  }

  /** The whole frames of each chunk, one chunk after another. */
  function FoldEach(fmt: Format, ch: nat, chunks: seq<seq<byte>>): (out: seq<real>)
    requires ValidChannels(ch)
  {
    if chunks == [] then [] else Fold(fmt, ch, chunks[0]) + FoldEach(fmt, ch, chunks[1..])
  }

  /** Whatever the chunks, the reader's stream is one conversion of their whole frames. */
  lemma {:induction false} StreamChunkInvariance(fmt: Format, ch: nat, r: Rate, st: Reader, chunks: seq<seq<byte>>)
    requires ValidChannels(ch) && ValidRate(r) && AtRest(r, st.stream) && InStep(st)
    ensures ReadAll(fmt, ch, r, st, chunks).stream == Convert(r, st.stream, FoldEach(fmt, ch, chunks))
    ensures InStep(ReadAll(fmt, ch, r, st, chunks)) && AtRest(r, ReadAll(fmt, ch, r, st, chunks).stream)
    decreases |chunks|
  {
    if chunks == [] {
      ConvertNothing(r, st.stream);
    } else {
      ChunkKeepsInStep(fmt, ch, r, st, chunks[0]);
      StreamChunkInvariance(fmt, ch, r, ReadChunk(fmt, ch, r, st, chunks[0]), chunks[1..]);
      ConvertTwice(r, st.stream, Fold(fmt, ch, chunks[0]), FoldEach(fmt, ch, chunks[1..]));
    }
  }

  /** Chunks cut at frame boundaries lose nothing. */
  lemma {:induction false} AlignedChunksFoldWhole(fmt: Format, ch: nat, chunks: seq<seq<byte>>)
    requires ValidChannels(ch) && FrameAligned(fmt, ch, chunks)
    ensures FoldEach(fmt, ch, chunks) == Fold(fmt, ch, Flatten(chunks))
  {
    if chunks != [] {
      AlignedTail(fmt, ch, chunks);
      var a, fsz := chunks[0], FrameBytes(fmt, ch);
      assert |a| == |a| / fsz * fsz;
      FoldDistributes(fmt, ch, a, Flatten(chunks[1..]), |a| / fsz);
      AlignedChunksFoldWhole(fmt, ch, chunks[1..]);
    }
  }

  /**
   * However a client's bytes are cut, the reader pushes the packing of one conversion of the whole
   * frames of each chunk; cut at frame boundaries, that is the conversion of everything.
   */
  lemma PipelineChunkInvariance(fmt: Format, ch: nat, r: Rate, chunks: seq<seq<byte>>)
    requires ValidChannels(ch) && ValidRate(r)
    ensures ReadAll(fmt, ch, r, Reader(Origin, []), chunks).pushed
         == Pack(Convert(r, Origin, FoldEach(fmt, ch, chunks)).out)
    ensures FrameAligned(fmt, ch, chunks) ==> FoldEach(fmt, ch, chunks) == Fold(fmt, ch, Flatten(chunks))
  {
    StreamChunkInvariance(fmt, ch, r, Reader(Origin, []), chunks);
    if FrameAligned(fmt, ch, chunks) {
      AlignedChunksFoldWhole(fmt, ch, chunks);
    }
  }

  lemma {:induction false} FoldsToFrames(fmt: Format, ch: nat, src: seq<byte>) returns (frames: nat)
    requires ValidChannels(ch)
    ensures |Fold(fmt, ch, src)| == 2 * frames
    decreases |src|
  {
    frames := 0;
    var fsz := FrameBytes(fmt, ch);
    if |src| >= fsz {
      frames := FoldsToFrames(fmt, ch, src[fsz..]);
      frames := frames + 1;
    }
  }

  lemma ConvertAddsWholeFrames(r: Rate, s: Stream, folded: seq<real>, n: nat) returns (frames: nat)
    requires ValidRate(r) && |folded| == 2 * n
    ensures |Convert(r, s, folded).out| == |s.out| + 2 * frames
  {
    if r.Resampled? {
      frames := ProducesWholeFrames(r.c, s.hist + folded, s.pos);
    } else {
      frames := n;
    }
  }

  /** Every push of the converting path is a whole number of four-byte frames. */
  lemma PushesWholeFrames(fmt: Format, ch: nat, r: Rate, st: Reader, chunk: seq<byte>)
    requires ValidChannels(ch) && ValidRate(r)
    ensures (|ReadChunk(fmt, ch, r, st, chunk).pushed| - |st.pushed|) % 4 == 0
  {
    var folded := Fold(fmt, ch, chunk);
    var n := FoldsToFrames(fmt, ch, chunk);
    var frames := ConvertAddsWholeFrames(r, st.stream, folded, n);
    var more := Convert(r, st.stream, folded).out[|st.stream.out|..];
    PackedFrames(st.pushed, more, frames);
  }

  lemma PackedFrames(pushed: seq<byte>, more: seq<real>, frames: nat)
    requires |more| == 2 * frames
    ensures (|pushed + Pack(more)| - |pushed|) % 4 == 0
  {
    assert |Pack(more)| == 2 * |more|;
  }
}
