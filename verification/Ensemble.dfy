/**
 * Several clients at once: each with its own pipeline of Delivery.dfy, all feeding one mixer loop
 * (server/src/mixer.rs). Clients join at any time; volume and mute may change from pass to pass.
 */
module Ensemble {
  import opened Bytes
  import opened Dma
  import opened Mixer
  import Transport
  import Delivery
  import MixLoop
  import Hearing
  import opened Session

  datatype Knobs = Knobs(gain: real, muted: bool)

  /**
   * `lanes[k]` is what client k contributed so far, byte for byte of the output, and `knobs[i]`
   * what output sample i was scaled with.
   */
  datatype Hall = Hall(
    nets: seq<Delivery.State>, setups: seq<Delivery.Setup>, loop: MixLoop.State,
    lanes: seq<seq<byte>>, knobs: seq<Knobs>)

  const Empty: Hall := Hall([], [], MixLoop.Boot, [], [])

  datatype Move =
    | Join(u: Delivery.Setup)
    | ClientMoves(k: nat, e: Transport.Step)
    | Reads(now: nat, knobs: Knobs)      // a pass up to its push
    | Pushes
    | Plays(n: nat)

  predicate Sized(h: Hall) {
    && |h.nets| == |h.setups| == |h.lanes|
    && forall k :: 0 <= k < |h.setups| ==> Delivery.Valid(h.setups[k])
  }

  // ---------------------------------------------------------------- one pass

  /** A client's whole-frame share of a pass. */
  function ShareOf(n: Delivery.State, w: nat): (b: seq<byte>)
    ensures |b| % 4 == 0 && |b| <= 4 * w
  {
    n.serverRing[..Want(n.serverRing, w)]
  }

  /** A client after its pop, if there was one. */
  function PoppedOf(n: Delivery.State, w: nat, u: Delivery.Setup): Delivery.State
    requires Delivery.Valid(u)
  {
    if ShareOf(n, w) == [] then n else Delivery.Next(n, Delivery.MixerPops(w), u)
  }

  function Share(h: Hall, k: nat): (b: seq<byte>)
    requires Mapped(h.loop.view) && k < |h.nets|
    ensures |b| % 4 == 0 && |b| <= 4 * MixLoop.Writable(h.loop)
  {
    ShareOf(h.nets[k], MixLoop.Writable(h.loop))
  }

  function Shares(h: Hall): (c: seq<seq<byte>>)
    requires Mapped(h.loop.view)
    ensures |c| == |h.nets| && forall k :: 0 <= k < |h.nets| ==> c[k] == Share(h, k)
  {
    seq(|h.nets|, k requires 0 <= k < |h.nets| => Share(h, k))
  }

  ghost predicate AnyShare(h: Hall)
    requires Mapped(h.loop.view)
  {
    exists k :: 0 <= k < |h.nets| && Share(h, k) != []
  }

  ghost predicate AnyData(h: Hall) {
    exists k :: 0 <= k < |h.nets| && h.nets[k].serverRing != []
  }

  /** What the pass observes and mixes. */
  ghost function Observed(h: Hall, now: nat, kn: Knobs): (t: MixLoop.Tick)
    requires Mapped(h.loop.view)
    ensures MixLoop.ValidTick(t)
  {
    MixLoop.Tick(now, false, false, h.nets == [], AnyData(h), AnyShare(h),
                 MixedBytes(Shares(h), CHUNK_FRAMES * 2, kn.gain, kn.muted))
  }

  /** A share with silence up to the paced length. */
  function Padded(share: seq<byte>, w: nat): (b: seq<byte>)
    requires |share| <= 4 * w
    ensures |b| == 4 * w
  {
    share + Zeros(4 * w - |share|)
  }

  function Lanes(h: Hall): (l: seq<seq<byte>>)
    requires Mapped(h.loop.view) && |h.lanes| == |h.nets|
    ensures |l| == |h.lanes|
    ensures forall k :: 0 <= k < |l| ==> l[k] == h.lanes[k] + Padded(Share(h, k), MixLoop.Writable(h.loop))
  {
    seq(|h.lanes|, k requires 0 <= k < |h.lanes| => h.lanes[k] + Padded(Share(h, k), MixLoop.Writable(h.loop)))
  }

  function Popped(h: Hall, k: nat): Delivery.State
    requires Sized(h) && Mapped(h.loop.view) && k < |h.nets|
  {
    PoppedOf(h.nets[k], MixLoop.Writable(h.loop), h.setups[k])
  }

  function AllPopped(h: Hall): (n: seq<Delivery.State>)
    requires Sized(h) && Mapped(h.loop.view)
    ensures |n| == |h.nets| && forall k :: 0 <= k < |n| ==> n[k] == Popped(h, k)
  {
    seq(|h.nets|, k requires 0 <= k < |h.nets| => Popped(h, k))
  }

  function Same(kn: Knobs, n: nat): (ks: seq<Knobs>)
    ensures |ks| == n && forall i :: 0 <= i < n ==> ks[i] == kn
  {
    seq(n, _ => kn)
  }

  // ---------------------------------------------------------------- steps

  ghost predicate Allowed(h: Hall, m: Move) {
    && Sized(h) && Mapped(h.loop.view)
    && match m
       case Join(u) => Delivery.Valid(u)
       case ClientMoves(k, e) => k < |h.nets| && Delivery.Enabled(h.nets[k], Delivery.Pipe(e), h.setups[k])
       case Reads(now, kn) => h.loop.due.Nothing?
       case Pushes => h.loop.due.Chunk? && Hearing.HasRoom(h.loop, MixLoop.LoopPush)
       case Plays(n) => h.loop.running
  }

  ghost function Moved(h: Hall, m: Move): Hall
    requires Allowed(h, m)
  {
    match m
    case Join(u) => Joined(h, u, |AllMixed(h.loop)|)
    case ClientMoves(k, e) =>
      h.(nets := h.nets[k := Delivery.Next(h.nets[k], Delivery.Pipe(e), h.setups[k])])
    case Reads(now, kn) =>
      Shared(h, MixLoop.Begin(h.loop, Observed(h, now, kn)), kn)
    case Pushes => h.(loop := MixLoop.Finish(h.loop))
    case Plays(n) => h.(loop := MixLoop.Played(h.loop, n))
  }

  /** The pops of a pass, if anyone had a share. */
  ghost function Shared(h: Hall, loop: MixLoop.State, kn: Knobs): Hall
    requires Sized(h) && Mapped(h.loop.view)
  {
    if !AnyShare(h) then h.(loop := loop)
    else
      Hall(AllPopped(h), h.setups, loop, Lanes(h), h.knobs + Same(kn, 2 * MixLoop.Writable(h.loop)))
  }

  ghost predicate Run(h: Hall, moves: seq<Move>)
    decreases |moves|
  {
    moves == [] || (Allowed(h, moves[0]) && Run(Moved(h, moves[0]), moves[1..]))
  }

  ghost function After(h: Hall, moves: seq<Move>): Hall
    requires Run(h, moves)
    decreases |moves|
  {
    if moves == [] then h else After(Moved(h, moves[0]), moves[1..])
  }

  // ---------------------------------------------------------------- mixing lanes

  /** The sum of all lanes, sample by sample, scaled and clamped. */
  function Mixdown(lanes: seq<seq<byte>>, ks: seq<Knobs>): (b: seq<byte>)
    ensures |b| == 2 * |ks|
  {
    if ks == [] then []
    else
      var n := |ks| - 1;
      Mixdown(lanes, ks[..n]) + EncodeI16(OutSample(SumAt(lanes, n), ks[n].gain, ks[n].muted))
  }

  lemma {:induction false} MixdownOutSample(lanes: seq<seq<byte>>, ks: seq<Knobs>, i: nat)
    requires i < |ks|
    ensures var b := Mixdown(lanes, ks);
            DecodeI16(b[2 * i], b[2 * i + 1]) == OutSample(SumAt(lanes, i), ks[i].gain, ks[i].muted)
    decreases |ks|
  {
    if i < |ks| - 1 {
      MixdownOutSample(lanes, ks[..|ks| - 1], i);
    } else {
      I16RoundTrip(OutSample(SumAt(lanes, i), ks[i].gain, ks[i].muted));
    }
  }

  /** Output sample `i` is the scaled sum of the lanes there, limited. */
  predicate HeardAt(out: seq<byte>, lanes: seq<seq<byte>>, ks: seq<Knobs>, i: nat)
    requires i < |ks| && |out| == 2 * |ks|
  {
    LimitedAt(out, i, SumAt(lanes, i), ks[i].gain, ks[i].muted)
  }

  lemma MixdownIsLimited(lanes: seq<seq<byte>>, ks: seq<Knobs>, i: nat)
    requires i < |ks|
    ensures HeardAt(Mixdown(lanes, ks), lanes, ks, i)
  {
    MixdownOutSample(lanes, ks, i);
    LimitedBy(Mixdown(lanes, ks), i, SumAt(lanes, i), ks[i].gain, ks[i].muted);
  }

  /** Two sets of lanes that sum alike mix alike. */
  predicate SumAlike(a: seq<seq<byte>>, b: seq<seq<byte>>, n: nat) {
    forall i: nat :: i < n ==> SumAt(a, i) == SumAt(b, i)
  }

  lemma {:induction false} MixdownOf(chunks: seq<seq<byte>>, n: nat, kn: Knobs)
    ensures MixedBytes(chunks, n, kn.gain, kn.muted) == Mixdown(chunks, Same(kn, n))
  {
    if n > 0 {
      assert Same(kn, n)[..n - 1] == Same(kn, n - 1);
      MixdownOf(chunks, n - 1, kn);
    }
  }

  lemma {:induction false} MixedPrefix(chunks: seq<seq<byte>>, n: nat, m: nat, kn: Knobs)
    requires m <= n
    ensures MixedBytes(chunks, n, kn.gain, kn.muted)[..2 * m] == MixedBytes(chunks, m, kn.gain, kn.muted)
  {
    if m < n {
      MixedPrefix(chunks, n - 1, m, kn);
    }
  }

  lemma {:induction false} MixdownAlike(a: seq<seq<byte>>, b: seq<seq<byte>>, ks: seq<Knobs>)
    requires SumAlike(a, b, |ks|)
    ensures Mixdown(a, ks) == Mixdown(b, ks)
  {
    if ks != [] {
      MixdownAlike(a, b, ks[..|ks| - 1]);
    }
  }

  /** `ext` is `a` with `b` behind it, lane by lane. */
  predicate Extends(ext: seq<seq<byte>>, a: seq<seq<byte>>, b: seq<seq<byte>>, n: nat) {
    && |ext| == |a| == |b|
    && forall k :: 0 <= k < |a| ==> |a[k]| == 2 * n && ext[k] == a[k] + b[k]
  }

  lemma {:induction false} SumsExtend(ext: seq<seq<byte>>, a: seq<seq<byte>>, b: seq<seq<byte>>, n: nat, i: nat)
    requires Extends(ext, a, b, n)
    ensures SumAt(ext, i) == if i < n then SumAt(a, i) else SumAt(b, i - n)
    decreases |ext|
  {
    if ext != [] {
      var l := |ext| - 1;
      SumsExtend(ext[..l], a[..l], b[..l], n, i);
      SampleExtends(a[l], b[l], n, i);
    }
  }

  lemma SampleExtends(a: seq<byte>, b: seq<byte>, n: nat, i: nat)
    requires |a| == 2 * n
    ensures SampleAt(a + b, i) == if i < n then SampleAt(a, i) else SampleAt(b, i - n)
  {
  }

  /** Mixing longer lanes goes on where the shorter ones ended. */
  lemma {:induction false} MixdownExtends(ext: seq<seq<byte>>, a: seq<seq<byte>>, b: seq<seq<byte>>, ks: seq<Knobs>, more: seq<Knobs>)
    requires Extends(ext, a, b, |ks|)
    ensures Mixdown(ext, ks + more) == Mixdown(a, ks) + Mixdown(b, more)
    decreases |more|
  {
    if more == [] {
      MixdownOfPrefix(ext, a, b, ks);
      assert ks + more == ks;
    } else {
      var init, last := more[..|more| - 1], more[|more| - 1];
      MixdownExtends(ext, a, b, ks, init);
      MixdownGoesOn(ext, a, b, ks, init, last);
      assert init + [last] == more;
    }
  }

  lemma MixdownGoesOn(ext: seq<seq<byte>>, a: seq<seq<byte>>, b: seq<seq<byte>>, ks: seq<Knobs>, init: seq<Knobs>, last: Knobs)
    requires Extends(ext, a, b, |ks|)
    requires Mixdown(ext, ks + init) == Mixdown(a, ks) + Mixdown(b, init)
    ensures Mixdown(ext, ks + (init + [last])) == Mixdown(a, ks) + Mixdown(b, init + [last])
  {
    SumsExtend(ext, a, b, |ks|, |ks| + |init|);
    MixdownLast(ext, ks + init, last);
    MixdownLast(b, init, last);
    assert (ks + init) + [last] == ks + (init + [last]);
    Joined3(Mixdown(a, ks), Mixdown(b, init), OutBytes(b, |init|, last));
  }

  function OutBytes(lanes: seq<seq<byte>>, i: nat, kn: Knobs): seq<byte> {
    EncodeI16(OutSample(SumAt(lanes, i), kn.gain, kn.muted))
  }

  lemma MixdownLast(lanes: seq<seq<byte>>, ks: seq<Knobs>, kn: Knobs)
    ensures Mixdown(lanes, ks + [kn]) == Mixdown(lanes, ks) + OutBytes(lanes, |ks|, kn)
  {
    assert (ks + [kn])[..|ks|] == ks;
  }

  lemma Joined3(x: seq<byte>, y: seq<byte>, z: seq<byte>)
    ensures (x + y) + z == x + (y + z)
  {
  }

  lemma MixdownOfPrefix(ext: seq<seq<byte>>, a: seq<seq<byte>>, b: seq<seq<byte>>, ks: seq<Knobs>)
    requires Extends(ext, a, b, |ks|)
    ensures Mixdown(ext, ks) == Mixdown(a, ks)
  {
    forall i: nat | i < |ks| ensures SumAt(ext, i) == SumAt(a, i) {
      SumsExtend(ext, a, b, |ks|, i);
    }
    MixdownAlike(ext, a, ks);
  }

  /** `b` is `a` with silence behind each lane. */
  predicate Lengthened(b: seq<seq<byte>>, a: seq<seq<byte>>) {
    && |b| == |a|
    && forall k :: 0 <= k < |a| ==> WithSilence(b[k], a[k])
  }

  predicate WithSilence(b: seq<byte>, a: seq<byte>) {
    |a| % 4 == 0 && a <= b && forall i :: |a| <= i < |b| ==> b[i] == 0
  }

  lemma {:induction false} SilenceAddsNothing(b: seq<seq<byte>>, a: seq<seq<byte>>, i: nat)
    requires Lengthened(b, a)
    ensures SumAt(b, i) == SumAt(a, i)
    decreases |a|
  {
    if a != [] {
      var l := |a| - 1;
      SilenceAddsNothing(b[..l], a[..l], i);
      assert WithSilence(b[l], a[l]);
      SilentSample(b[l], a[l], i);
    }
  }

  lemma SilentSample(b: seq<byte>, a: seq<byte>, i: nat)
    requires WithSilence(b, a)
    ensures SampleAt(b, i) == SampleAt(a, i)
  {
  }

  /** A client that has joined and not yet sounded changes nothing. */
  lemma {:induction false} JoinIsSilent(lanes: seq<seq<byte>>, n: nat, ks: seq<Knobs>)
    ensures Mixdown(lanes + [Zeros(n)], ks) == Mixdown(lanes, ks)
  {
    forall i: nat | i < |ks| ensures SumAt(lanes + [Zeros(n)], i) == SumAt(lanes, i) {
      assert (lanes + [Zeros(n)])[..|lanes|] == lanes;
    }
    MixdownAlike(lanes + [Zeros(n)], lanes, ks);
  }

  // ---------------------------------------------------------------- what every step keeps

  predicate LaneInv(h: Hall, k: nat)
    requires Sized(h) && k < |h.nets|
  {
    && Delivery.Inv(h.nets[k], h.setups[k])
    && |h.lanes[k]| == 2 * |h.knobs|
    && OnlySilenceAdded(h.lanes[k], h.nets[k].mixed)
  }

  predicate EachLane(h: Hall) {
    Sized(h) && forall k :: 0 <= k < |h.nets| ==> LaneInv(h, k)
  }

  /** Everything handed over is the mixdown of the lanes. */
  predicate InTune(h: Hall) {
    EachLane(h) && AllMixed(h.loop) == Mixdown(h.lanes, h.knobs) && |h.knobs| % 2 == 0
  }

  predicate Inv(h: Hall) {
    InTune(h) && Hearing.Follows(h.loop)
  }

  /** A pass moves a client's share to what was mixed and appends it, padded, to its lane. */
  lemma LaneAfterPass(n: Delivery.State, u: Delivery.Setup, lane: seq<byte>, w: nat)
    requires Delivery.Valid(u) && Delivery.Inv(n, u) && OnlySilenceAdded(lane, n.mixed)
    ensures Delivery.Inv(PoppedOf(n, w, u), u)
    ensures OnlySilenceAdded(lane + Padded(ShareOf(n, w), w), PoppedOf(n, w, u).mixed)
  {
    PaddedAppended(lane, n.mixed, ShareOf(n, w), 4 * w - |ShareOf(n, w)|);
    PoppedIsMixed(n, u, w);
  }

  lemma PoppedIsMixed(n: Delivery.State, u: Delivery.Setup, w: nat)
    requires Delivery.Valid(u) && Delivery.Inv(n, u)
    ensures Delivery.Inv(PoppedOf(n, w, u), u)
    ensures PoppedOf(n, w, u).mixed == n.mixed + ShareOf(n, w)
  {
    if Want(n.serverRing, w) > 0 {
      Delivery.StepKeepsInv(n, Delivery.MixerPops(w), u);
    } else {
      assert n.mixed + [] == n.mixed;
    }
  }

  function PaddedShares(h: Hall): (c: seq<seq<byte>>)
    requires Mapped(h.loop.view)
    ensures |c| == |h.nets|
    ensures forall k :: 0 <= k < |h.nets| ==> c[k] == Padded(Share(h, k), MixLoop.Writable(h.loop))
  {
    seq(|h.nets|, k requires 0 <= k < |h.nets| => Padded(Share(h, k), MixLoop.Writable(h.loop)))
  }

  /** Mixing shares is mixing them with silence behind. */
  lemma PaddedMix(shares: seq<seq<byte>>, padded: seq<seq<byte>>, w: nat, kn: Knobs)
    requires w <= CHUNK_FRAMES && Lengthened(padded, shares)
    ensures MixedBytes(shares, CHUNK_FRAMES * 2, kn.gain, kn.muted)[..w * 4] == Mixdown(padded, Same(kn, 2 * w))
  {
    MixedPrefix(shares, CHUNK_FRAMES * 2, 2 * w, kn);
    MixdownOf(shares, 2 * w, kn);
    forall i: nat | i < 2 * w ensures SumAt(shares, i) == SumAt(padded, i) {
      SilenceAddsNothing(padded, shares, i);
    }
    MixdownAlike(shares, padded, Same(kn, 2 * w));
  }

  lemma PaddedIsSilent(share: seq<byte>, w: nat)
    requires |share| % 4 == 0 && |share| <= 4 * w
    ensures WithSilence(Padded(share, w), share)
  {
  }

  lemma SharesLengthened(h: Hall)
    requires Mapped(h.loop.view)
    ensures Lengthened(PaddedShares(h), Shares(h))
  {
    forall k | 0 <= k < |h.nets| ensures WithSilence(PaddedShares(h)[k], Shares(h)[k]) {
      PaddedIsSilent(Share(h, k), MixLoop.Writable(h.loop));
    }
  }

  /** The chunk a pass mixes is the mixdown of what it adds to the lanes. */
  lemma PayloadIsMixdown(h: Hall, now: nat, kn: Knobs)
    requires Mapped(h.loop.view)
    ensures MixLoop.Payload(h.loop, Observed(h, now, kn))
         == Mixdown(PaddedShares(h), Same(kn, 2 * MixLoop.Writable(h.loop)))
  {
    SharesLengthened(h);
    PaddedMix(Shares(h), PaddedShares(h), MixLoop.Writable(h.loop), kn);
  }

  lemma LanesExtend(h: Hall)
    requires EachLane(h) && Mapped(h.loop.view)
    ensures Extends(Lanes(h), h.lanes, PaddedShares(h), |h.knobs|)
  {
    forall k | 0 <= k < |h.lanes| ensures |h.lanes[k]| == 2 * |h.knobs| {
      assert LaneInv(h, k);
    }
  }

  /** A pass in which some client has a share makes a chunk due. */
  lemma PassIsDue(h: Hall, now: nat, kn: Knobs)
    requires Allowed(h, Reads(now, kn)) && AnyShare(h)
    ensures var t := Observed(h, now, kn);
            MixLoop.Begin(h.loop, t) == h.loop.(dry := MixLoop.Unarmed, due := MixLoop.Chunk(MixLoop.Payload(h.loop, t)))
  {
    var k :| 0 <= k < |h.nets| && Share(h, k) != [];
    assert h.nets[k].serverRing != [] && AnyData(h);
  }

  lemma DueIsMixed(l: MixLoop.State, data: seq<byte>)
    requires l.due.Nothing?
    ensures AllMixed(l.(dry := MixLoop.Unarmed, due := MixLoop.Chunk(data))) == AllMixed(l) + data
  {
    assert AllPushed(l) + [] == AllPushed(l);
  }

  lemma PassMixes(h: Hall, now: nat, kn: Knobs)
    requires InTune(h) && Allowed(h, Reads(now, kn)) && AnyShare(h)
    ensures AllMixed(MixLoop.Begin(h.loop, Observed(h, now, kn)))
         == Mixdown(Lanes(h), h.knobs + Same(kn, 2 * MixLoop.Writable(h.loop)))
  {
    PassIsDue(h, now, kn);
    DueIsMixed(h.loop, MixLoop.Payload(h.loop, Observed(h, now, kn)));
    PayloadIsMixdown(h, now, kn);
    LanesExtend(h);
    MixdownExtends(Lanes(h), h.lanes, PaddedShares(h), h.knobs, Same(kn, 2 * MixLoop.Writable(h.loop)));
  }

  /** A pass in which nobody has. */
  lemma PassIsIdle(h: Hall, now: nat, kn: Knobs)
    requires Allowed(h, Reads(now, kn)) && !AnyShare(h)
    ensures AllMixed(MixLoop.Begin(h.loop, Observed(h, now, kn))) == AllMixed(h.loop)
  {
    IdlePassKeepsMixed(h.loop, Observed(h, now, kn));
  }

  lemma IdlePassKeepsMixed(l: MixLoop.State, t: MixLoop.Tick)
    requires Mapped(l.view) && MixLoop.ValidTick(t) && l.due.Nothing? && !t.flushed && !t.hadData
    ensures AllMixed(MixLoop.Begin(l, t)) == AllMixed(l)
  {
    StopKeepsPushed(l, false);
  }

  lemma SharedKeepsLanes(h: Hall, loop: MixLoop.State, kn: Knobs)
    requires EachLane(h) && Mapped(h.loop.view) && AnyShare(h)
    ensures EachLane(Shared(h, loop, kn))
  {
    var t := Shared(h, loop, kn);
    forall k | 0 <= k < |t.nets| ensures LaneInv(t, k) {
      assert LaneInv(h, k);
      LaneAfterPass(h.nets[k], h.setups[k], h.lanes[k], MixLoop.Writable(h.loop));
    }
  }

  lemma PassFollows(h: Hall, now: nat, kn: Knobs)
    requires Hearing.Follows(h.loop) && Allowed(h, Reads(now, kn))
    ensures Hearing.Follows(MixLoop.Begin(h.loop, Observed(h, now, kn)))
  {
    Hearing.PassFollows(h.loop, Observed(h, now, kn));
  }

  /** Once the loop is known to have mixed the lanes, hall and loop are in tune again. */
  lemma SharedKeepsTune(h: Hall, loop: MixLoop.State, kn: Knobs)
    requires EachLane(h) && Mapped(h.loop.view) && AnyShare(h) && |h.knobs| % 2 == 0
    requires AllMixed(loop) == Mixdown(Lanes(h), h.knobs + Same(kn, 2 * MixLoop.Writable(h.loop)))
    ensures InTune(Shared(h, loop, kn))
  {
    SharedKeepsLanes(h, loop, kn);
    var more := Same(kn, 2 * MixLoop.Writable(h.loop));
    StillEven(h.knobs, more, MixLoop.Writable(h.loop));
    InTuneBy(Shared(h, loop, kn), Lanes(h), h.knobs + more);
  }

  lemma StillEven(a: seq<Knobs>, b: seq<Knobs>, n: nat)
    requires |a| % 2 == 0 && |b| == 2 * n
    ensures |a + b| % 2 == 0
  {
  }

  lemma InTuneBy(h: Hall, lanes: seq<seq<byte>>, ks: seq<Knobs>)
    requires EachLane(h) && h.lanes == lanes && h.knobs == ks && |ks| % 2 == 0 && AllMixed(h.loop) == Mixdown(lanes, ks)
    ensures InTune(h)
  {
  }

  lemma IdleKeepsTune(h: Hall, loop: MixLoop.State)
    requires InTune(h) && AllMixed(loop) == AllMixed(h.loop)
    ensures InTune(h.(loop := loop))
  {
    KeepsLanes(h, h.(loop := loop));
  }

  lemma ReadsKeepsTune(h: Hall, now: nat, kn: Knobs)
    requires InTune(h) && Allowed(h, Reads(now, kn))
    ensures InTune(Shared(h, MixLoop.Begin(h.loop, Observed(h, now, kn)), kn))
  {
    if AnyShare(h) {
      PassMixes(h, now, kn);
      SharedKeepsTune(h, MixLoop.Begin(h.loop, Observed(h, now, kn)), kn);
    } else {
      PassIsIdle(h, now, kn);
      IdleKeepsTune(h, MixLoop.Begin(h.loop, Observed(h, now, kn)));
    }
  }

  /** Lanes do not depend on the loop. */
  lemma KeepsLanes(h: Hall, t: Hall)
    requires EachLane(h) && t.nets == h.nets && t.setups == h.setups && t.lanes == h.lanes && t.knobs == h.knobs
    ensures EachLane(t)
  {
    forall k | 0 <= k < |t.nets| ensures LaneInv(t, k) {
      assert LaneInv(h, k);
    }
  }

  lemma NewLane(u: Delivery.Setup, n: nat)
    requires Delivery.Valid(u) && n % 4 == 0
    ensures Delivery.Inv(Delivery.Start, u) && OnlySilenceAdded(Zeros(n), Delivery.Start.mixed)
  {
    Delivery.StartInv(u);
    assert OnlySilenceAdded([], []);
    SilenceAppended([], [], n);
    assert [] + Zeros(n) == Zeros(n);
  }

  /** The hall with one more client, whose lane is silent so far. */
  function Joined(h: Hall, u: Delivery.Setup, n: nat): Hall {
    h.(nets := h.nets + [Delivery.Start], setups := h.setups + [u], lanes := h.lanes + [Zeros(n)])
  }

  lemma JoinKeepsLanes(h: Hall, u: Delivery.Setup, n: nat)
    requires EachLane(h) && Delivery.Valid(u) && n == 2 * |h.knobs| && n % 4 == 0
    ensures EachLane(Joined(h, u, n))
  {
    NewLane(u, n);
    var t := Joined(h, u, n);
    forall k | 0 <= k < |t.nets| ensures LaneInv(t, k) {
      if k < |h.nets| {
        assert LaneInv(h, k);
      }
    }
  }

  lemma JoinKeepsTune(h: Hall, u: Delivery.Setup)
    requires InTune(h) && Delivery.Valid(u)
    ensures InTune(Joined(h, u, |AllMixed(h.loop)|))
  {
    var n := |AllMixed(h.loop)|;
    assert n == 2 * |h.knobs|;
    JoinKeepsLanes(h, u, n);
    JoinIsSilent(h.lanes, n, h.knobs);
    InTuneBy(Joined(h, u, n), h.lanes + [Zeros(n)], h.knobs);
  }

  lemma ClientKeepsLanes(h: Hall, k: nat, e: Transport.Step)
    requires EachLane(h) && Allowed(h, ClientMoves(k, e))
    ensures EachLane(Moved(h, ClientMoves(k, e)))
  {
    var t := Moved(h, ClientMoves(k, e));
    assert LaneInv(h, k);
    Delivery.StepKeepsInv(h.nets[k], Delivery.Pipe(e), h.setups[k]);
    MixedByPipe(h.nets[k], e, h.setups[k]);
    forall j | 0 <= j < |t.nets| ensures LaneInv(t, j) {
      assert LaneInv(h, j);
    }
  }

  lemma MixedByPipe(n: Delivery.State, e: Transport.Step, u: Delivery.Setup)
    requires Delivery.Valid(u) && Delivery.Enabled(n, Delivery.Pipe(e), u)
    ensures Delivery.Next(n, Delivery.Pipe(e), u).mixed == n.mixed
  {
  }

  lemma StepKeepsInv(h: Hall, m: Move)
    requires Inv(h) && Allowed(h, m)
    ensures Inv(Moved(h, m))
  {
    match m
    case Join(u) => JoinKeepsTune(h, u);
    case ClientMoves(k, e) => ClientKeepsLanes(h, k, e);
    case Reads(now, kn) =>
      PassFollows(h, now, kn);
      ReadsKeepsTune(h, now, kn);
    case Pushes =>
      Hearing.ActFollows(h.loop, MixLoop.LoopPush);
      PushKeepsMixed(h.loop);
      IdleKeepsTune(h, MixLoop.Finish(h.loop));
    case Plays(n) =>
      Hearing.ActFollows(h.loop, MixLoop.DmaPlays(n));
      IdleKeepsTune(h, MixLoop.Played(h.loop, n));
  }

  lemma {:induction false} RunKeepsInv(h: Hall, moves: seq<Move>)
    requires Inv(h) && Run(h, moves)
    ensures Inv(After(h, moves))
    decreases |moves|
  {
    if moves != [] {
      StepKeepsInv(h, moves[0]);
      RunKeepsInv(Moved(h, moves[0]), moves[1..]);
    }
  }

  lemma EmptyInv()
    ensures Inv(Empty)
  {
    Hearing.BootFollows();
    assert AllMixed(Empty.loop) == [];
  }

  /**
   * Everybody at once. In every run from boot whose pushes find room, for every client, whatever
   * its format and rate and whenever it joined: nothing it wrote is lost or reordered, its lane is
   * the beginning of its sound with only silence put in, and everything ever handed to the DMA ring
   * is the clamped scaled sum of all lanes, sample by sample; and the hardware's fetches follow that.
   */
  lemma EveryClientIsHeard(moves: seq<Move>)
    requires Run(Empty, moves)
    ensures var h := After(Empty, moves);
            && Sized(h)
            && |AllMixed(h.loop)| == 2 * |h.knobs|
            && (forall i :: 0 <= i < |h.knobs| ==> HeardAt(AllMixed(h.loop), h.lanes, h.knobs, i))
            && Hearing.Follows(h.loop)
            && forall k :: 0 <= k < |h.nets| ==>
                 && Delivery.NothingLost(h.nets[k], h.setups[k])
                 && h.nets[k].mixed <= Delivery.Rendered(h.setups[k].client, h.nets[k].pipe.written)
                 && |h.lanes[k]| == |AllMixed(h.loop)|
                 && OnlySilenceAdded(h.lanes[k], h.nets[k].mixed)
  {
    EmptyInv();
    RunKeepsInv(Empty, moves);
    var h := After(Empty, moves);
    forall i | 0 <= i < |h.knobs| ensures HeardAt(AllMixed(h.loop), h.lanes, h.knobs, i) {
      MixdownIsLimited(h.lanes, h.knobs, i);
    }
    forall k | 0 <= k < |h.nets|
      ensures Delivery.NothingLost(h.nets[k], h.setups[k])
      ensures h.nets[k].mixed <= Delivery.Rendered(h.setups[k].client, h.nets[k].pipe.written)
      ensures |h.lanes[k]| == |AllMixed(h.loop)| && OnlySilenceAdded(h.lanes[k], h.nets[k].mixed)
    {
      assert LaneInv(h, k);
      Delivery.InvLosesNothing(h.nets[k], h.setups[k]);
    }
  }

  /** A pass puts silence into a client's lane only when it leaves that client's ring empty. */
  lemma SilenceOnlyWhereDry(h: Hall, k: nat)
    requires Inv(h) && k < |h.nets|
    ensures Popped(h, k).serverRing == []
         || Padded(Share(h, k), MixLoop.Writable(h.loop)) == Share(h, k)
  {
    assert LaneInv(h, k);
    if |Share(h, k)| == 4 * MixLoop.Writable(h.loop) {
      assert Share(h, k) + Zeros(0) == Share(h, k);
    }
  }
}
