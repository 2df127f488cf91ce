/**
 * The whole path for one client of any format and rate, unmuted and at gain 1: the pipeline of
 * Delivery.dfy feeding the mixer loop of MixLoop.dfy and the DMA ring, in any interleaving. The
 * DMA may move between the mixer's reading of the delay and its push.
 */
module Session {
  import opened Bytes
  import opened Dma
  import opened Mixer
  import Transport
  import Delivery
  import MixLoop
  import Hearing

  datatype State = State(net: Delivery.State, loop: MixLoop.State)

  const Boot: State := State(Delivery.Start, MixLoop.Boot)

  datatype Step =
    | Upstream(e: Transport.Step)  // application, drain thread, socket or reader
    | MixerReads(now: nat)         // a pass up to its push: reads the delay, pops, mixes
    | MixerPushes
    | DmaPlays(k: nat)

  /** What this pass pops. */
  function Chunk(s: State): (b: seq<byte>)
    requires Mapped(s.loop.view)
    ensures |b| % 4 == 0 && |b| <= 4 * MixLoop.Writable(s.loop)
  {
    s.net.serverRing[..Want(s.net.serverRing, MixLoop.Writable(s.loop))]
  }

  /** What the pass observes and mixes. */
  function Observed(s: State, now: nat): (t: MixLoop.Tick)
    requires Mapped(s.loop.view)
    ensures MixLoop.ValidTick(t)
  {
    MixLoop.Tick(now, false, false, false, s.net.serverRing != [], Chunk(s) != [],
                 MixedBytes([Chunk(s)], CHUNK_FRAMES * 2, 1.0, false))
  }

  /** The step of the mixer loop or of the DMA. */
  function ActOf(s: State, e: Step): MixLoop.Act
    requires !e.Upstream? && Mapped(s.loop.view)
  {
    match e
    case MixerReads(now) => MixLoop.LoopPass(Observed(s, now))
    case MixerPushes => MixLoop.LoopPush
    case DmaPlays(k) => MixLoop.DmaPlays(k)
  }

  predicate Enabled(s: State, e: Step, u: Delivery.Setup)
    requires Delivery.Valid(u)
  {
    && Mapped(s.loop.view)
    && match e
       case Upstream(d) => Delivery.Enabled(s.net, Delivery.Pipe(d), u)
       case _ => MixLoop.Enabled(s.loop, ActOf(s, e))
  }

  function Next(s: State, e: Step, u: Delivery.Setup): State
    requires Delivery.Valid(u) && Enabled(s, e, u)
  {
    match e
    case Upstream(d) => s.(net := Delivery.Next(s.net, Delivery.Pipe(d), u))
    case MixerReads(now) =>
      State(if Chunk(s) == [] then s.net
            else Delivery.Next(s.net, Delivery.MixerPops(MixLoop.Writable(s.loop)), u),
            MixLoop.After(s.loop, ActOf(s, e)))
    case _ => s.(loop := MixLoop.After(s.loop, ActOf(s, e)))
  }

  /** Every push finds room, as `Hearing.HasRoomIff` spells out; nothing else is asked of the DMA. */
  predicate Roomy(s: State, e: Step, u: Delivery.Setup)
    requires Delivery.Valid(u) && Enabled(s, e, u)
  {
    !e.Upstream? ==> Hearing.HasRoom(s.loop, ActOf(s, e))
  }

  ghost predicate Run(s: State, steps: seq<Step>, u: Delivery.Setup)
    requires Delivery.Valid(u)
    decreases |steps|
  {
    steps == []
    || (Enabled(s, steps[0], u) && Roomy(s, steps[0], u) && Run(Next(s, steps[0], u), steps[1..], u))
  }

  ghost function After(s: State, steps: seq<Step>, u: Delivery.Setup): State
    requires Delivery.Valid(u) && Run(s, steps, u)
    decreases |steps|
  {
    if steps == [] then s else After(Next(s, steps[0], u), steps[1..], u)
  }

  // ---------------------------------------------------------------- silence

  /** `out` is `data` with nothing but whole frames of silence put in. */
  predicate OnlySilenceAdded(out: seq<byte>, data: seq<byte>)
    decreases |out|
  {
    if |out| < 4 then out == [] && data == []
    else
      var o := |out| - 4;
      || (|data| >= 4 && out[o..] == data[|data| - 4..] && OnlySilenceAdded(out[..o], data[..|data| - 4]))
      || (out[o..] == [0, 0, 0, 0] && OnlySilenceAdded(out[..o], data))
  }

  lemma SoundFrame(out: seq<byte>, data: seq<byte>, last: seq<byte>)
    requires OnlySilenceAdded(out, data) && |last| == 4
    ensures OnlySilenceAdded(out + last, data + last)
  {
    LastFrame(out, last);
    LastFrame(data, last);
  }

  lemma SilentFrame(out: seq<byte>, data: seq<byte>)
    requires OnlySilenceAdded(out, data)
    ensures OnlySilenceAdded(out + [0, 0, 0, 0], data)
  {
    LastFrame(out, [0, 0, 0, 0]);
  }

  lemma SoundAppended(out: seq<byte>, data: seq<byte>, x: seq<byte>)
    requires OnlySilenceAdded(out, data) && |x| % 4 == 0
    ensures OnlySilenceAdded(out + x, data + x)
  {
    FramesAppended(out, data, x, |x| / 4);
  }

  lemma {:induction false} FramesAppended(out: seq<byte>, data: seq<byte>, x: seq<byte>, n: nat)
    requires OnlySilenceAdded(out, data) && |x| == 4 * n
    ensures OnlySilenceAdded(out + x, data + x)
    decreases n
  {
    if n == 0 {
      assert out + x == out && data + x == data;
    } else {
      SoundFrame(out, data, x[..4]);
      FramesAppended(out + x[..4], data + x[..4], x[4..], n - 1);
      Rejoin(out, x, 4);
      Rejoin(data, x, 4);
    }
  }

  lemma Rejoin(a: seq<byte>, x: seq<byte>, k: nat)
    requires k <= |x|
    ensures (a + x[..k]) + x[k..] == a + x
  {
  }

  lemma {:induction false} SilenceAppended(out: seq<byte>, data: seq<byte>, n: nat)
    requires OnlySilenceAdded(out, data) && n % 4 == 0
    ensures OnlySilenceAdded(out + Zeros(n), data)
    decreases n
  {
    if n == 0 {
      assert out + Zeros(0) == out;
    } else {
      SilenceAppended(out, data, n - 4);
      SilentFrame(out + Zeros(n - 4), data);
      assert (out + Zeros(n - 4)) + [0, 0, 0, 0] == out + Zeros(n);
    }
  }

  lemma LastFrame(a: seq<byte>, last: seq<byte>)
    requires |last| == 4
    ensures (a + last)[..|a + last| - 4] == a && (a + last)[|a + last| - 4..] == last
  {
  }

  lemma PaddedAppended(out: seq<byte>, data: seq<byte>, chunk: seq<byte>, n: nat)
    requires OnlySilenceAdded(out, data) && |chunk| % 4 == 0 && n % 4 == 0
    ensures OnlySilenceAdded(out + (chunk + Zeros(n)), data + chunk)
  {
    SoundAppended(out, data, chunk);
    SilenceAppended(out + chunk, data + chunk, n);
    assert (out + chunk) + Zeros(n) == out + (chunk + Zeros(n));
  }

  // ---------------------------------------------------------------- what every step keeps

  function PushedBefore(past: seq<MixLoop.Epoch>): seq<byte> {
    if past == [] then [] else PushedBefore(past[..|past| - 1]) + past[|past| - 1].pushed
  }

  /** Everything handed to the DMA ring since boot. */
  function AllPushed(l: MixLoop.State): seq<byte> {
    PushedBefore(l.past) + l.pushed
  }

  function DueData(l: MixLoop.State): seq<byte> {
    if l.due.Chunk? then l.due.data else []
  }

  /** Everything mixed: handed over, or on its way there. */
  function AllMixed(l: MixLoop.State): seq<byte> {
    AllPushed(l) + DueData(l)
  }

  predicate Inv(s: State, u: Delivery.Setup)
    requires Delivery.Valid(u)
  {
    && Delivery.Inv(s.net, u)
    && Hearing.Follows(s.loop)
    && OnlySilenceAdded(AllMixed(s.loop), s.net.mixed)
  }

  /** What the pass will push: the popped bytes, then silence up to the paced length. */
  lemma PayloadIsPadded(s: State, now: nat)
    requires Mapped(s.loop.view)
    ensures MixLoop.Payload(s.loop, Observed(s, now))
         == Chunk(s) + Zeros(4 * MixLoop.Writable(s.loop) - |Chunk(s)|)
  {
    PaddedChunk(Chunk(s), MixLoop.Writable(s.loop));
  }

  lemma PaddedChunk(chunk: seq<byte>, w: nat)
    requires |chunk| % 4 == 0 && |chunk| <= 4 * w && w <= CHUNK_FRAMES
    ensures MixedBytes([chunk], CHUNK_FRAMES * 2, 1.0, false)[..w * 4] == chunk + Zeros(4 * w - |chunk|)
  {
    Passthrough(chunk, CHUNK_FRAMES * 2);
    CutSilence(chunk, CHUNK_FRAMES * 4 - |chunk|, 4 * w - |chunk|);
  }

  lemma CutSilence(x: seq<byte>, n: nat, k: nat)
    requires k <= n
    ensures (x + Zeros(n))[..|x| + k] == x + Zeros(k)
  {
  }

  /** A pass leaves what was mixed alone, but for the chunk it pops. */
  lemma MixedByPass(s: State, now: nat)
    requires Mapped(s.loop.view) && s.loop.due.Nothing?
    ensures var t, l := Observed(s, now), MixLoop.Begin(s.loop, Observed(s, now));
            && (Chunk(s) == [] ==> l.due.Nothing? && AllPushed(l) == AllPushed(s.loop))
            && (Chunk(s) != [] ==>
                  l == s.loop.(dry := MixLoop.Unarmed, due := MixLoop.Chunk(MixLoop.Payload(s.loop, t))))
  {
    StopKeepsPushed(s.loop, false);
  }

  lemma StopKeepsPushed(l: MixLoop.State, flushed: bool)
    ensures AllPushed(MixLoop.Stopped(l, flushed)) == AllPushed(l)
  {
    var past := l.past + [MixLoop.Epoch(l.pushed, l.view.sent, l.heard, flushed)];
    assert past[..|past| - 1] == l.past;
    assert AllPushed(l) + [] == AllPushed(l);
  }

  lemma PopMoves(s: State, u: Delivery.Setup)
    requires Delivery.Valid(u) && Delivery.Inv(s.net, u) && Mapped(s.loop.view) && Chunk(s) != []
    ensures var e := Delivery.MixerPops(MixLoop.Writable(s.loop));
            && Delivery.Enabled(s.net, e, u)
            && Delivery.Inv(Delivery.Next(s.net, e, u), u)
            && Delivery.Next(s.net, e, u).mixed == s.net.mixed + Chunk(s)
  {
    Delivery.StepKeepsInv(s.net, Delivery.MixerPops(MixLoop.Writable(s.loop)), u);
  }

  lemma PassKeepsSilence(s: State, now: nat)
    requires Mapped(s.loop.view) && s.loop.due.Nothing? && OnlySilenceAdded(AllMixed(s.loop), s.net.mixed)
    ensures OnlySilenceAdded(AllMixed(MixLoop.Begin(s.loop, Observed(s, now))), s.net.mixed + Chunk(s))
  {
    var l, all := MixLoop.Begin(s.loop, Observed(s, now)), AllPushed(s.loop);
    assert all + [] == all;
    MixedByPass(s, now);
    if Chunk(s) == [] {
      assert s.net.mixed + Chunk(s) == s.net.mixed;
      assert AllMixed(l) == all;
    } else {
      PayloadIsPadded(s, now);
      assert AllMixed(l) == all + MixLoop.Payload(s.loop, Observed(s, now));
      PaddedAppended(all, s.net.mixed, Chunk(s), 4 * MixLoop.Writable(s.loop) - |Chunk(s)|);
    }
  }

  lemma PushKeepsMixed(l: MixLoop.State)
    requires Mapped(l.view) && l.due.Chunk?
    ensures AllMixed(MixLoop.Finish(l)) == AllMixed(l)
  {
    var before := PushedBefore(l.past);
    assert before + (l.pushed + l.due.data) + [] == (before + l.pushed) + l.due.data;
  }

  lemma ReadKeepsInv(s: State, now: nat, u: Delivery.Setup)
    requires Delivery.Valid(u) && Inv(s, u) && Enabled(s, MixerReads(now), u)
    ensures Inv(Next(s, MixerReads(now), u), u)
  {
    PassKeepsSilence(s, now);
    Hearing.ActFollows(s.loop, MixLoop.LoopPass(Observed(s, now)));
    if Chunk(s) == [] {
      assert s.net.mixed + Chunk(s) == s.net.mixed;
    } else {
      PopMoves(s, u);
    }
  }

  lemma StepKeepsInv(s: State, e: Step, u: Delivery.Setup)
    requires Delivery.Valid(u) && Inv(s, u) && Enabled(s, e, u) && Roomy(s, e, u)
    ensures Inv(Next(s, e, u), u)
  {
    match e
    case Upstream(d) => Delivery.StepKeepsInv(s.net, Delivery.Pipe(d), u);
    case MixerReads(now) => ReadKeepsInv(s, now, u);
    case MixerPushes =>
      Hearing.ActFollows(s.loop, MixLoop.LoopPush);
      PushKeepsMixed(s.loop);
    case DmaPlays(k) =>
      Hearing.ActFollows(s.loop, MixLoop.DmaPlays(k));
  }

  lemma {:induction false} RunKeepsInv(s: State, steps: seq<Step>, u: Delivery.Setup)
    requires Delivery.Valid(u) && Inv(s, u) && Run(s, steps, u)
    ensures Inv(After(s, steps, u), u)
    decreases |steps|
  {
    if steps != [] {
      StepKeepsInv(s, steps[0], u);
      RunKeepsInv(Next(s, steps[0], u), steps[1..], u);
    }
  }

  lemma BootInv(u: Delivery.Setup)
    requires Delivery.Valid(u)
    ensures Inv(Boot, u)
  {
    Hearing.BootFollows();
    Delivery.StartInv(u);
    assert OnlySilenceAdded([], []);
    assert AllMixed(Boot.loop) == [];
  }

  /** Silence is put in only where the client has run dry. */
  lemma SilenceOnlyOnUnderrun(s: State, now: nat, u: Delivery.Setup)
    requires Delivery.Valid(u) && Inv(s, u) && Enabled(s, MixerReads(now), u)
    ensures var t := Next(s, MixerReads(now), u);
            t.net.serverRing == [] || DueData(t.loop) == Chunk(s)
  {
    PayloadIsPadded(s, now);
    MixedByPass(s, now);
    var w := MixLoop.Writable(s.loop);
    if |Chunk(s)| == 4 * w {
      assert Chunk(s) + Zeros(0) == Chunk(s);
    }
  }

  // ---------------------------------------------------------------- from writei to the converter

  lemma InvIsIntact(s: State, u: Delivery.Setup)
    requires Delivery.Valid(u) && Inv(s, u)
    ensures Unplayed(s.loop.view) >= 0 ==> Window(s.loop.view)
  {
    if Unplayed(s.loop.view) >= 0 {
      RememberedIsWindow(s.loop.view);
    }
  }

  /**
   * From `snd_pcm_writei` to the converter. In every run from boot whose pushes find room: nothing
   * written is lost, repeated or reordered on the way to the mixer, which hears its rendering; what
   * the mixer hands over is what it popped with only silence put in; in each epoch every byte the
   * hardware has fetched follows what was handed over, with only repeats of the last lap put in; and
   * unless the DMA is past the writer, the rest of the stream lies intact where it will fetch it.
   */
  lemma SpeakerPlaysTheClient(steps: seq<Step>, u: Delivery.Setup)
    requires Delivery.Valid(u) && Run(Boot, steps, u)
    ensures var s := After(Boot, steps, u);
            && Delivery.NothingLost(s.net, u) && s.net.mixed <= Delivery.Rendered(u.client, s.net.pipe.written)
            && OnlySilenceAdded(AllMixed(s.loop), s.net.mixed)
            && Hearing.Follows(s.loop)
            && (Unplayed(s.loop.view) >= 0 ==> Window(s.loop.view))
  {
    BootInv(u);
    RunKeepsInv(Boot, steps, u);
    InvIsIntact(After(Boot, steps, u), u);
    Delivery.InvLosesNothing(After(Boot, steps, u).net, u);
  }

  // ---------------------------------------------------------------- everything is heard

  /** Steps that bring sound nearer the speaker: of these only the DMA makes room. */
  predicate Progress(s: State, e: Step, u: Delivery.Setup)
    requires Delivery.Valid(u) && Enabled(s, e, u)
  {
    match e
    case Upstream(d) => Transport.Moves(d)
    case MixerReads(_) => Chunk(s) != []
    case MixerPushes => true
    case DmaPlays(k) => 0 < k <= Unplayed(s.loop.view)
  }

  /** The state of a run in which the DMA has not passed the writer. */
  predicate OnTime(s: State, u: Delivery.Setup)
    requires Delivery.Valid(u)
  {
    Inv(s, u) && Hearing.Paced(s.loop) && Hearing.Exact(s.loop)
  }

  lemma ProgressIsRoomy(s: State, e: Step, u: Delivery.Setup)
    requires Delivery.Valid(u) && OnTime(s, u) && Enabled(s, e, u) && Progress(s, e, u)
    ensures Roomy(s, e, u) && OnTime(Next(s, e, u), u)
  {
    if !e.Upstream? {
      Hearing.ActExact(s.loop, ActOf(s, e));
      Hearing.ActPaced(s.loop, ActOf(s, e));
    }
    StepKeepsInv(s, e, u);
  }

  /** How far everything is from the speaker. */
  function Distance(s: State, u: Delivery.Setup): int
    requires Delivery.Valid(u)
  {
    2049 * Delivery.Remaining(s.net, u) + 2 * |DueData(s.loop)| + Unplayed(s.loop.view)
  }

  lemma ProgressShortens(s: State, e: Step, u: Delivery.Setup)
    requires Delivery.Valid(u) && OnTime(s, u) && Enabled(s, e, u) && Progress(s, e, u)
    ensures Nearer(s, Next(s, e, u), u)
  {
    match e
    case Upstream(d) => UpstreamShortens(s, d, u);
    case MixerReads(now) => ReadShortens(s, now, u);
    case MixerPushes => PushShortens(s, u);
    case DmaPlays(k) => PlayShortens(s, k, u);
  }

  /** The distance has shrunk; nothing was written, and nothing stopped. */
  predicate Nearer(s: State, t: State, u: Delivery.Setup)
    requires Delivery.Valid(u)
  {
    Distance(t, u) < Distance(s, u) && t.loop.past == s.loop.past && t.net.pipe.written == s.net.pipe.written
  }

  lemma UpstreamShortens(s: State, d: Transport.Step, u: Delivery.Setup)
    requires Delivery.Valid(u) && Inv(s, u) && Enabled(s, Upstream(d), u) && Transport.Moves(d)
    ensures Nearer(s, Next(s, Upstream(d), u), u)
  {
    Delivery.MovesMakeProgress(s.net, Delivery.Pipe(d), u);
  }

  lemma PushShortens(s: State, u: Delivery.Setup)
    requires Delivery.Valid(u) && OnTime(s, u) && Enabled(s, MixerPushes, u)
    ensures Nearer(s, Next(s, MixerPushes, u), u)
  {
    PushLength(s, u);
  }

  lemma PlayShortens(s: State, k: nat, u: Delivery.Setup)
    requires Delivery.Valid(u) && Enabled(s, DmaPlays(k), u) && k > 0
    ensures Nearer(s, Next(s, DmaPlays(k), u), u)
  {
  }

  /** What a pop takes off the way left outweighs the push that becomes due. */
  lemma ReadShortens(s: State, now: nat, u: Delivery.Setup)
    requires Delivery.Valid(u) && Inv(s, u) && Enabled(s, MixerReads(now), u) && Chunk(s) != []
    ensures Nearer(s, Next(s, MixerReads(now), u), u)
  {
    MixedByPass(s, now);
    PopShortens(s.net, MixLoop.Writable(s.loop), u);
  }

  lemma PopShortens(n: Delivery.State, w: nat, u: Delivery.Setup)
    requires Delivery.Valid(u) && Delivery.Enabled(n, Delivery.MixerPops(w), u)
    ensures var m := Delivery.Next(n, Delivery.MixerPops(w), u);
            Delivery.Remaining(m, u) + 4 <= Delivery.Remaining(n, u) && m.pipe.written == n.pipe.written
  {
  }

  lemma PushLength(s: State, u: Delivery.Setup)
    requires Delivery.Valid(u) && OnTime(s, u) && s.loop.due.Chunk?
    ensures Unplayed(MixLoop.Finish(s.loop).view) == Unplayed(s.loop.view) + |s.loop.due.data|
  {
    Hearing.PushPaced(s.loop);
    Hearing.PushExact(s.loop);
    CaughtUpIsExact(s.loop.view);
  }

  /** While anything written has not been heard, some step brings it nearer. */
  lemma NeverSilenced(s: State, u: Delivery.Setup) returns (e: Step)
    requires Delivery.Valid(u) && OnTime(s, u) && Delivery.Roomy(u)
    requires s.net.mixed != Delivery.Rendered(u.client, s.net.pipe.written) || s.loop.due.Chunk? || Unplayed(s.loop.view) > 0
    ensures Enabled(s, e, u) && Progress(s, e, u)
  {
    if s.loop.due.Chunk? {
      e := MixerPushes;
    } else if Unplayed(s.loop.view) > 0 {
      e := DmaPlays(1);
    } else if s.net.serverRing != [] {
      ReportedIsUnplayed(s.loop.view);
      e := MixerReads(0);
    } else {
      var d := Delivery.NeverStuck(s.net, u);
      e := Upstream(d.e);
    }
  }

  /**
   * So progress alone gets everything heard: such a run, in which the mixer waits for the room the
   * DMA makes, is no longer than the distance left; and when none of its steps is possible any more,
   * all that was written has been mixed, and all of it since the last stop has been heard.
   */
  lemma {:induction false} EverythingIsHeard(s: State, steps: seq<Step>, u: Delivery.Setup)
    requires Delivery.Valid(u) && OnTime(s, u) && Delivery.Roomy(u) && ProgressRun(s, steps, u)
    ensures Run(s, steps, u) && |steps| <= Distance(s, u)
    ensures Exhausted(After(s, steps, u), u) ==>
              AllHeard(After(s, steps, u), s.loop.past, Delivery.Rendered(u.client, s.net.pipe.written))
    decreases |steps|
  {
    DistanceIsNatural(s, u);
    if steps == [] {
      if Exhausted(s, u) {
        ExhaustedIsHeard(s, u);
      }
    } else {
      ProgressIsRoomy(s, steps[0], u);
      ProgressShortens(s, steps[0], u);
      EverythingIsHeard(Next(s, steps[0], u), steps[1..], u);
    }
  }

  ghost predicate ProgressRun(s: State, steps: seq<Step>, u: Delivery.Setup)
    requires Delivery.Valid(u)
    decreases |steps|
  {
    steps == []
    || (Enabled(s, steps[0], u) && Progress(s, steps[0], u) && ProgressRun(Next(s, steps[0], u), steps[1..], u))
  }

  ghost predicate Exhausted(s: State, u: Delivery.Setup)
    requires Delivery.Valid(u)
  {
    forall e :: Enabled(s, e, u) ==> !Progress(s, e, u)
  }

  /** All of `sound` has been mixed, and since the last stop the hardware has fetched all handed over. */
  predicate AllHeard(s: State, past: seq<MixLoop.Epoch>, sound: seq<byte>) {
    && s.net.mixed == sound
    && s.loop.past == past && s.loop.heard == s.loop.pushed
    && OnlySilenceAdded(PushedBefore(past) + s.loop.heard, sound)
  }

  lemma ExhaustedIsHeard(s: State, u: Delivery.Setup)
    requires Delivery.Valid(u) && OnTime(s, u) && Delivery.Roomy(u) && Exhausted(s, u)
    ensures AllHeard(s, s.loop.past, Delivery.Rendered(u.client, s.net.pipe.written))
  {
    if s.net.mixed != Delivery.Rendered(u.client, s.net.pipe.written) || s.loop.due.Chunk? || Unplayed(s.loop.view) > 0 {
      var e := NeverSilenced(s, u);
    } else {
      assert s.loop.pushed[..s.loop.view.played] == s.loop.pushed;
      assert AllPushed(s.loop) + [] == AllPushed(s.loop);
    }
  }

  lemma DistanceIsNatural(s: State, u: Delivery.Setup)
    requires Delivery.Valid(u) && OnTime(s, u)
    ensures Distance(s, u) >= 0
  {
  }
}
