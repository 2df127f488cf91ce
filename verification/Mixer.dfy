/** One mixing tick of server/src/mixer.rs: pop from every stream, sum, scale, clamp. */
module Mixer {
  import opened Bytes
  import opened Numbers
  import opened Ring

  const CHUNK_FRAMES: nat := 1024

  /** Whole frames one stream contributes. */
  function Want(ring: seq<byte>, writable: nat): (n: nat)
    ensures n <= |ring| && n <= writable * 4 && n % 4 == 0
  {
    Min(writable * 4, |ring| / 4 * 4)
  }

  /**
   * What the pop returns: all that was asked for, or nothing when the ring was cleared after its
   * fill was read.
   */
  function Got(ring: seq<byte>, writable: nat, cleared: bool): (chunk: seq<byte>)
    ensures |chunk| <= writable * 4 && |chunk| % 4 == 0
  {
    if cleared then [] else ring[..Want(ring, writable)]
  }

  function Chunks(rings: seq<seq<byte>>, writable: nat, cleared: seq<bool>): (c: seq<seq<byte>>)
    requires |cleared| == |rings|
    ensures |c| == |rings|
  {
    seq(|rings|, k requires 0 <= k < |rings| => Got(rings[k], writable, cleared[k]))
  }

  function Left(rings: seq<seq<byte>>, writable: nat, cleared: seq<bool>): (c: seq<seq<byte>>)
    requires |cleared| == |rings|
    ensures |c| == |rings|
  {
    seq(|rings|, k requires 0 <= k < |rings| => if cleared[k] then [] else rings[k][Want(rings[k], writable)..])
  }

  /** Sample `i` of a chunk, silence past its end. */
  function SampleAt(chunk: seq<byte>, i: nat): i16 {
    if 2 * i + 1 < |chunk| then DecodeI16(chunk[2 * i], chunk[2 * i + 1]) else 0
  }

  function SumAt(chunks: seq<seq<byte>>, i: nat): int {
    if chunks == [] then 0
    else SumAt(chunks[..|chunks| - 1], i) + SampleAt(chunks[|chunks| - 1], i)
  }

  function OutSample(v: int, gain: real, muted: bool): i16 {
    var s := if muted then 0.0 else v as real * gain;
    Trunc(if s < -32768.0 then -32768.0 else if s > 32767.0 then 32767.0 else s)
  }

  /** The first `n` output samples, as bytes. */
  function MixedBytes(chunks: seq<seq<byte>>, n: nat, gain: real, muted: bool): (b: seq<byte>)
    ensures |b| == 2 * n
  {
    if n == 0 then []
    else MixedBytes(chunks, n - 1, gain, muted) + EncodeI16(OutSample(SumAt(chunks, n - 1), gain, muted))
  }

  /** The mixer thread's scratch buffers. */
  class Scratch {
    const acc: array<int>
    const pop: array<byte>
    const out: array<byte>

    ghost predicate Valid() {
      && acc.Length == CHUNK_FRAMES * 2
      && pop.Length == CHUNK_FRAMES * 4
      && out.Length == CHUNK_FRAMES * 4
      && pop != out && (acc as object) != pop && (acc as object) != out
    }

    constructor ()
      ensures Valid() && fresh(acc) && fresh(pop) && fresh(out)
    {
      acc := new int[CHUNK_FRAMES * 2](_ => 0);
      pop := new byte[CHUNK_FRAMES * 4](_ => 0);
      out := new byte[CHUNK_FRAMES * 4](_ => 0);
    }

    /** Pop one stream's chunk and add it to the accumulator. */
    method Accumulate(chunk: seq<byte>)
      requires Valid() && |chunk| <= CHUNK_FRAMES * 4 && |chunk| % 4 == 0
      modifies acc, pop
      ensures forall j :: 0 <= j < acc.Length ==> acc[j] == old(acc[j]) + SampleAt(chunk, j)
    {
      CopyInto(pop, 0, chunk);
      assert pop[..|chunk|] == chunk;
      AddSamples(chunk, |chunk|);
    }

    method AddSamples(ghost chunk: seq<byte>, n: nat)
      requires Valid() && n == |chunk| <= pop.Length && n % 4 == 0
      requires forall j :: 0 <= j < n ==> pop[j] == chunk[j]
      modifies acc
      ensures forall j :: 0 <= j < acc.Length ==> acc[j] == old(acc[j]) + SampleAt(chunk, j)
    {
      for i := 0 to n / 2
        invariant forall j :: 0 <= j < i ==> acc[j] == old(acc[j]) + SampleAt(chunk, j)
        invariant forall j :: i <= j < acc.Length ==> acc[j] == old(acc[j])
      {
        var v := DecodeI16(pop[2 * i], pop[2 * i + 1]);
        assert v == SampleAt(chunk, i);
        acc[i] := acc[i] + v;
      }
      assert forall j: nat :: j >= n / 2 ==> SampleAt(chunk, j) == 0;
    }

    /** `cleared[k]` says whether another thread clears ring k between its fill read and its pop. */
    method SumStreams(rings: seq<seq<byte>>, writable: nat, cleared: seq<bool>)
      returns (rings': seq<seq<byte>>, hadData: bool)
      requires Valid() && writable <= CHUNK_FRAMES && |cleared| == |rings|
      modifies acc, pop
      ensures rings' == Left(rings, writable, cleared)
      ensures hadData <==> exists k :: 0 <= k < |rings| && Want(rings[k], writable) > 0
      ensures forall i :: 0 <= i < acc.Length ==> acc[i] == SumAt(Chunks(rings, writable, cleared), i)
    {
      forall i | 0 <= i < acc.Length {
        acc[i] := 0;
      }
      rings', hadData := [], false;
      ghost var all := Chunks(rings, writable, cleared);
      assert all[..0] == [];
      for k := 0 to |rings|
        invariant rings' == Left(rings, writable, cleared)[..k]
        invariant hadData <==> exists j :: 0 <= j < k && Want(rings[j], writable) > 0
        invariant forall i :: 0 <= i < acc.Length ==> acc[i] == SumAt(all[..k], i)
      {
        var want := Want(rings[k], writable);
        assert all[..k + 1] == all[..k] + [all[k]];
        SumOneMore(all[..k], all[k]);
        if want != 0 {
          Accumulate(Got(rings[k], writable, cleared[k]));
          hadData := true;
        }
        rings' := rings' + [if cleared[k] then [] else rings[k][want..]];
      }
      assert all[..|rings|] == all;
    }

    /** Scale, clamp and pack the accumulator. */
    method Render(ghost chunks: seq<seq<byte>>, writable: nat, gain: real, muted: bool)
      requires Valid() && writable <= CHUNK_FRAMES
      requires forall i :: 0 <= i < acc.Length ==> acc[i] == SumAt(chunks, i)
      modifies out
      ensures out[..writable * 4] == MixedBytes(chunks, writable * 2, gain, muted)
    {
      for i := 0 to writable * 2
        invariant out[..i * 2] == MixedBytes(chunks, i, gain, muted)
      {
        var c := EncodeI16(OutSample(acc[i], gain, muted));
        out[i * 2], out[i * 2 + 1] := c[0], c[1];
        assert out[..i * 2 + 2] == out[..i * 2] + c;
      }
    }

    /** A tick's data path: what is consumed does not depend on gain or mute. */
    method MixTick(rings: seq<seq<byte>>, writable: nat, cleared: seq<bool>, gain: real, muted: bool)
      returns (rings': seq<seq<byte>>, hadData: bool)
      requires Valid() && writable <= CHUNK_FRAMES && |cleared| == |rings|
      modifies acc, pop, out
      ensures rings' == Left(rings, writable, cleared)
      ensures hadData <==> exists k :: 0 <= k < |rings| && Want(rings[k], writable) > 0
      ensures hadData ==> out[..writable * 4] == MixedBytes(Chunks(rings, writable, cleared), writable * 2, gain, muted)
    {
      rings', hadData := SumStreams(rings, writable, cleared);
      if hadData {
        Render(Chunks(rings, writable, cleared), writable, gain, muted);
      }
    }
  }

  lemma SumOneMore(before: seq<seq<byte>>, chunk: seq<byte>)
    ensures forall i: nat :: SumAt(before + [chunk], i) == SumAt(before, i) + SampleAt(chunk, i)
  {
    assert (before + [chunk])[..|before|] == before;
  }

  // ---------------------------------------------------------------- laws

  /** `x` is `s` cut toward zero, and held at the rails beyond them. */
  predicate Limited(x: int, s: real) {
    && (s >= 32767.0 ==> x == 32767)
    && (s <= -32768.0 ==> x == -32768)
    && (-32768.0 < s < 32767.0 ==>
          && (x > 0 ==> s > 0.0) && (x < 0 ==> s < 0.0)
          && Size(x) as real <= SizeOf(s) < Size(x) as real + 1.0)
  }

  function Size(x: int): nat {
    if x < 0 then -x else x
  }

  function SizeOf(s: real): real {
    if s < 0.0 then -s else s
  }

  /** What a sum is scaled by. */
  function Level(gain: real, muted: bool): real {
    if muted then 0.0 else gain
  }

  lemma OutSampleIsLimited(v: int, gain: real, muted: bool)
    ensures Limited(OutSample(v, gain, muted), v as real * Level(gain, muted))
  {
    var s := v as real * Level(gain, muted);
    if -32768.0 < s < 32767.0 {
      TruncCuts(s);
    }
  }

  lemma TruncCuts(s: real)
    ensures var x := Trunc(s);
            && (x > 0 ==> s > 0.0) && (x < 0 ==> s < 0.0)
            && Size(x) as real <= SizeOf(s) < Size(x) as real + 1.0
  {
  }

  /** A stream's samples are what its bytes stand for, two by two, and silence past its end. */
  lemma SampleStands(chunk: seq<byte>, i: nat)
    ensures 2 * i + 1 < |chunk| ==> Stands(SampleAt(chunk, i), chunk[2 * i], chunk[2 * i + 1])
    ensures 2 * i + 1 >= |chunk| ==> SampleAt(chunk, i) == 0
  {
  }

  /** The sum counts every stream once. */
  lemma SumIsSum(chunks: seq<seq<byte>>, chunk: seq<byte>, i: nat)
    ensures SumAt([], i) == 0
    ensures SumAt(chunks + [chunk], i) == SumAt(chunks, i) + SampleAt(chunk, i)
  {
    assert (chunks + [chunk])[..|chunks|] == chunks;
  }

  /** The number that output sample `i` stands for is the sum `v` scaled and limited. */
  predicate LimitedAt(out: seq<byte>, i: nat, v: int, gain: real, muted: bool)
    requires 2 * i + 1 < |out|
  {
    Limited(DecodeI16(out[2 * i], out[2 * i + 1]), v as real * Level(gain, muted))
  }

  lemma {:induction false} MixedOutSample(chunks: seq<seq<byte>>, n: nat, gain: real, muted: bool, i: nat)
    requires i < n
    ensures var b := MixedBytes(chunks, n, gain, muted);
            DecodeI16(b[2 * i], b[2 * i + 1]) == OutSample(SumAt(chunks, i), gain, muted)
  {
    if i == n - 1 {
      I16RoundTrip(OutSample(SumAt(chunks, i), gain, muted));
    } else {
      MixedOutSample(chunks, n - 1, gain, muted, i);
    }
  }

  lemma LimitedBy(out: seq<byte>, i: nat, v: int, gain: real, muted: bool)
    requires 2 * i + 1 < |out| && DecodeI16(out[2 * i], out[2 * i + 1]) == OutSample(v, gain, muted)
    ensures LimitedAt(out, i, v, gain, muted)
  {
    OutSampleIsLimited(v, gain, muted);
  }

  /** Each output sample is the scaled sum of that sample over all streams, limited. */
  lemma MixedSample(chunks: seq<seq<byte>>, n: nat, gain: real, muted: bool, i: nat)
    requires i < n
    ensures LimitedAt(MixedBytes(chunks, n, gain, muted), i, SumAt(chunks, i), gain, muted)
  {
    MixedOutSample(chunks, n, gain, muted, i);
    LimitedBy(MixedBytes(chunks, n, gain, muted), i, SumAt(chunks, i), gain, muted);
  }

  lemma {:induction false} SumSplit(a: seq<seq<byte>>, b: seq<seq<byte>>, i: nat)
    ensures SumAt(a + b, i) == SumAt(a, i) + SumAt(b, i)
  {
    if b == [] {
      assert a + b == a;
    } else {
      assert (a + b)[..|a + b| - 1] == a + b[..|b| - 1];
      SumSplit(a, b[..|b| - 1], i);
    }
  }

  /** The order of the streams does not matter. */
  lemma {:induction false} OrderIndependent(a: seq<seq<byte>>, b: seq<seq<byte>>, i: nat)
    requires multiset(a) == multiset(b)
    ensures SumAt(a, i) == SumAt(b, i)
    decreases |a|
  {
    if a == [] {
      assert |multiset(b)| == |b|;
    } else {
      var x, init := a[|a| - 1], a[..|a| - 1];
      assert a == init + [x];
      assert x in multiset(b);
      var k := RemoveOne(b, x, i);
      assert multiset(init) == multiset(a) - multiset{x};
      OrderIndependent(init, b[..k] + b[k + 1..], i);
    }
  }

  /** Taking one stream out removes its sample from the sum. */
  lemma RemoveOne(b: seq<seq<byte>>, x: seq<byte>, i: nat) returns (k: nat)
    requires x in b
    ensures k < |b| && multiset(b[..k] + b[k + 1..]) == multiset(b) - multiset{x}
    ensures SumAt(b, i) == SumAt(b[..k] + b[k + 1..], i) + SampleAt(x, i)
  {
    k :| 0 <= k < |b| && b[k] == x;
    var front, back := b[..k], b[k + 1..];
    assert b == front + ([x] + back);
    SumSplit(front, [x] + back, i);
    SumSplit([x], back, i);
    SumSplit(front, back, i);
    assert SumAt([x], i) == SampleAt(x, i);
  }

  predicate FitsI32(x: int) {
    -0x8000_0000 <= x < 0x8000_0000
  }

  lemma {:induction false} SumBound(chunks: seq<seq<byte>>, i: nat)
    ensures -32768 * |chunks| <= SumAt(chunks, i) <= 32767 * |chunks|
  {
    if chunks != [] {
      SumBound(chunks[..|chunks| - 1], i);
    }
  }

  function Loudest(n: nat): (c: seq<seq<byte>>)
    ensures |c| == n
  {
    if n == 0 then [] else Loudest(n - 1) + [[0, 128, 0, 128]]
  }

  lemma {:induction false} LoudestSum(n: nat)
    ensures SumAt(Loudest(n), 0) == -32768 * n
  {
    if n > 0 {
      assert Loudest(n)[..n - 1] == Loudest(n - 1);
      LoudestSum(n - 1);
    }
  }

  /** A 32-bit accumulator never overflows for `n` streams exactly when n is at most 65536. */
  lemma NoOverflowIff(n: nat)
    ensures n <= 65536 <==> forall chunks: seq<seq<byte>>, i: nat :: |chunks| <= n ==> FitsI32(SumAt(chunks, i))
  {
    forall chunks: seq<seq<byte>>, i: nat | |chunks| <= 65536 ensures FitsI32(SumAt(chunks, i)) {
      SumBound(chunks, i);
    }
    LoudestSum(65537);
    assert !FitsI32(SumAt(Loudest(65537), 0));
  }

  lemma EncodeDecoded(lo: byte, hi: byte)
    ensures EncodeI16(DecodeI16(lo, hi)) == [lo, hi]
  {
  }

  /** One unmuted stream at gain 1 passes bit for bit, followed by silence. */
  lemma {:induction false} Passthrough(chunk: seq<byte>, n: nat)
    requires |chunk| % 2 == 0 && |chunk| <= 2 * n
    ensures MixedBytes([chunk], n, 1.0, false) == chunk + Zeros(2 * n - |chunk|)
    decreases n
  {
    if n > 0 {
      assert SumAt([chunk], n - 1) == SampleAt(chunk, n - 1);
      assert OutSample(SampleAt(chunk, n - 1), 1.0, false) == SampleAt(chunk, n - 1);
      if |chunk| == 2 * n {
        SamePrefix(chunk, chunk[..2 * n - 2], n - 1);
        Passthrough(chunk[..2 * n - 2], n - 1);
        LastSample(chunk, n);
      } else {
        Passthrough(chunk, n - 1);
        LastSilence(chunk, n);
      }
    }
  }

  lemma LastSample(chunk: seq<byte>, n: nat)
    requires n > 0 && |chunk| == 2 * n
    ensures chunk[..2 * n - 2] + EncodeI16(SampleAt(chunk, n - 1)) == chunk
  {
    EncodeDecoded(chunk[2 * n - 2], chunk[2 * n - 1]);
  }

  lemma LastSilence(chunk: seq<byte>, n: nat)
    requires n > 0 && |chunk| % 2 == 0 && |chunk| < 2 * n
    ensures chunk + Zeros(2 * (n - 1) - |chunk|) + EncodeI16(SampleAt(chunk, n - 1)) == chunk + Zeros(2 * n - |chunk|)
  {
    assert EncodeI16(0) == [0, 0];
  }

  lemma {:induction false} SamePrefix(a: seq<byte>, b: seq<byte>, n: nat)
    requires 2 * n <= |b| <= |a| && b == a[..|b|]
    ensures MixedBytes([a], n, 1.0, false) == MixedBytes([b], n, 1.0, false)
  {
    if n > 0 {
      SamePrefix(a, b, n - 1);
      assert SumAt([a], n - 1) == SampleAt(a, n - 1) == SampleAt(b, n - 1) == SumAt([b], n - 1);
    }
  }

  /** A muted tick is silence, whatever was consumed. */
  lemma {:induction false} MutedIsSilent(chunks: seq<seq<byte>>, n: nat, gain: real)
    ensures MixedBytes(chunks, n, gain, true) == Zeros(2 * n)
  {
    if n > 0 {
      MutedIsSilent(chunks, n - 1, gain);
      assert EncodeI16(0) == [0, 0];
    }
  }
}
