/**
 * End to end for one client: from `snd_pcm_writei` (shim/src/lib.rs) over the transport to the
 * reader, which forwards or converts each payload (server/src/main.rs), and on to the mixer's pops
 * (server/src/mixer.rs). Every transfer may be cut anywhere and the threads run in any order.
 */
module Delivery {
  import opened Bytes
  import opened Numbers
  import opened Dsp
  import opened Pcm
  import opened Mixer
  import opened Transport
  import Payloads

  /** A client in the mixer's own format, whose bytes go through verbatim, or any other. */
  datatype Client = Direct | Converting(fmt: Format, ch: nat, r: Rate)

  predicate ValidClient(c: Client) {
    c.Converting? ==> ValidChannels(c.ch) && ValidRate(c.r)
  }

  function FrameSize(c: Client): (f: nat)
    requires ValidClient(c)
    ensures f > 1
  {
    if c.Direct? then 4 else FrameBytes(c.fmt, c.ch)
  }

  /** The drain thread's cuts fall between this client's frames. */
  predicate Even(c: Client)
    requires ValidClient(c)
  {
    DRAIN_CHUNK % FrameSize(c) == 0
  }

  /** The direct reader keeps whole-frame payloads and drops the rest. */
  function Kept(payload: seq<byte>): seq<byte> {
    if |payload| % 4 == 0 then payload else []
  }

  /** The reader after one payload; `pushed` is all it has pushed. */
  function Taken(c: Client, rd: Reader, payload: seq<byte>): Reader
    requires ValidClient(c)
  {
    match c
    case Direct => Reader(rd.stream, rd.pushed + Kept(payload))
    case Converting(fmt, ch, r) => ReadChunk(fmt, ch, r, rd, payload)
  }

  function TakenAll(c: Client, rd: Reader, payloads: seq<seq<byte>>): Reader
    requires ValidClient(c)
    decreases |payloads|
  {
    if payloads == [] then rd else TakenAll(c, Taken(c, rd, payloads[0]), payloads[1..])
  }

  const Fresh: Reader := Reader(Origin, [])

  /** What all of `x` sounds like to the mixer. */
  function Rendered(c: Client, x: seq<byte>): seq<byte>
    requires ValidClient(c)
  {
    match c
    case Direct => x
    case Converting(fmt, ch, r) => Pack(Convert(r, Origin, Fold(fmt, ch, x)).out)
  }

  /** The most bytes one payload can push. */
  function MostPushed(c: Client): nat
    requires ValidClient(c)
  {
    match c
    case Direct => DRAIN_CHUNK
    case Converting(fmt, ch, r) => 4 * Payloads.MostMade(r, Payloads.Wholes(DRAIN_CHUNK, FrameBytes(fmt, ch)))
  }

  datatype State = State(pipe: Transport.State, reader: Reader, serverRing: seq<byte>, mixed: seq<byte>)

  const Start: State := State.State(Transport.Start, Fresh, [], [])

  /** The client and the capacities of the two rings. */
  datatype Setup = Setup(client: Client, shim: nat, server: nat)

  predicate Valid(u: Setup) {
    ValidClient(u.client) && Even(u.client)
  }

  /** The server's ring takes any one push; without that a reader can hang. */
  predicate Roomy(u: Setup)
    requires ValidClient(u.client)
  {
    u.shim > 0 && u.server >= MostPushed(u.client)
  }

  datatype Step = Pipe(e: Transport.Step) | MixerPops(writable: nat)

  function Pushed(s: State, u: Setup): seq<byte>
    requires ValidClient(u.client) && |s.pipe.received| >= 4
  {
    var rd := Taken(u.client, s.reader, Received(s.pipe));
    rd.pushed[Min(|s.reader.pushed|, |rd.pushed|)..]
  }

  predicate Enabled(s: State, e: Step, u: Setup)
    requires Valid(u)
  {
    match e
    case MixerPops(w) => Want(s.serverRing, w) > 0
    case Pipe(d) =>
      && Transport.Enabled(s.pipe, d, u.shim)
      && (d.Writei? ==> |d.b| % FrameSize(u.client) == 0)
      && (d.ReaderFinishes? && Received(s.pipe) != [] ==> |s.serverRing| + |Pushed(s, u)| <= u.server)
  }

  function Next(s: State, e: Step, u: Setup): State
    requires Valid(u) && Enabled(s, e, u)
  {
    match e
    case MixerPops(w) =>
      var n := Want(s.serverRing, w);
      s.(serverRing := s.serverRing[n..], mixed := s.mixed + s.serverRing[..n])
    case Pipe(d) =>
      var t := s.(pipe := Transport.Next(s.pipe, d, u.shim));
      if d.ReaderFinishes? && Received(s.pipe) != [] then
        t.(reader := Taken(u.client, s.reader, Received(s.pipe)), serverRing := s.serverRing + Pushed(s, u))
      else t
  }

  ghost predicate Run(s: State, steps: seq<Step>, u: Setup)
    requires Valid(u)
    decreases |steps|
  {
    steps == [] || (Enabled(s, steps[0], u) && Run(Next(s, steps[0], u), steps[1..], u))
  }

  ghost function After(s: State, steps: seq<Step>, u: Setup): State
    requires Valid(u) && Run(s, steps, u)
    decreases |steps|
  {
    if steps == [] then s else After(Next(s, steps[0], u), steps[1..], u)
  }

  /** The reader has done exactly its payloads' work, and its pushes are in order up to the mixer. */
  predicate Inv(s: State, u: Setup)
    requires Valid(u)
  {
    && Transport.Inv(s.pipe) && Aligned(s.pipe, FrameSize(u.client))
    && s.reader == TakenAll(u.client, Fresh, Contents(s.pipe.got))
    && s.mixed + s.serverRing == s.reader.pushed
    && |s.serverRing| % 4 == 0
  }

  // ---------------------------------------------------------------- the reader's payloads

  lemma {:induction false} TakenOneMore(c: Client, rd: Reader, payloads: seq<seq<byte>>, p: seq<byte>)
    requires ValidClient(c)
    ensures TakenAll(c, rd, payloads + [p]) == Taken(c, TakenAll(c, rd, payloads), p)
    decreases |payloads|
  {
    if payloads == [] {
      assert [] + [p] == [p] && [p][1..] == [];
      assert TakenAll(c, Taken(c, rd, p), []) == Taken(c, rd, p);
    } else {
      assert (payloads + [p])[1..] == payloads[1..] + [p];
      TakenOneMore(c, Taken(c, rd, payloads[0]), payloads[1..], p);
    }
  }

  lemma {:induction false} ConvertingTakesAll(c: Client, rd: Reader, payloads: seq<seq<byte>>)
    requires ValidClient(c) && c.Converting?
    ensures TakenAll(c, rd, payloads) == ReadAll(c.fmt, c.ch, c.r, rd, payloads)
    decreases |payloads|
  {
    if payloads != [] {
      ConvertingTakesAll(c, Taken(c, rd, payloads[0]), payloads[1..]);
    }
  }

  /** A payload only adds to what was pushed, and adds whole frames. */
  lemma TakenAdds(c: Client, rd: Reader, p: seq<byte>)
    requires ValidClient(c)
    ensures rd.pushed <= Taken(c, rd, p).pushed
    ensures (|Taken(c, rd, p).pushed| - |rd.pushed|) % 4 == 0
  {
    match c
    case Direct =>
      assert |rd.pushed + Kept(p)| - |rd.pushed| == |Kept(p)|;
    case Converting(fmt, ch, r) =>
      PushesWholeFrames(fmt, ch, r, rd, p);
  }

  lemma {:induction false} DirectTakesSounds(rd: Reader, ps: seq<Payload>)
    requires AllAligned(ps, 4)
    ensures TakenAll(Direct, rd, Contents(ps)).pushed == rd.pushed + Sounds(ps)
    decreases |ps|
  {
    if ps == [] {
      assert rd.pushed + [] == rd.pushed;
    } else {
      var p := Content(ps[0]);
      assert Contents(ps)[1..] == Contents(ps[1..]);
      DirectTakesSounds(Taken(Direct, rd, p), ps[1..]);
      assert (rd.pushed + Kept(p)) + Sounds(ps[1..]) == rd.pushed + (Kept(p) + Sounds(ps[1..]));
    }
  }

  /** A control frame is shorter than any frame of sound, so converting it yields nothing. */
  lemma CommandsFoldToNothing(fmt: Format, ch: nat, op: byte)
    requires ValidChannels(ch)
    ensures Fold(fmt, ch, [op]) == []
  {
  }

  lemma {:induction false} FoldOfSounds(fmt: Format, ch: nat, ps: seq<Payload>)
    requires ValidChannels(ch) && AllAligned(ps, FrameBytes(fmt, ch))
    ensures FoldEach(fmt, ch, Contents(ps)) == Fold(fmt, ch, Sounds(ps))
    decreases |ps|
  {
    if ps == [] {
      assert Fold(fmt, ch, []) == [];
    } else {
      assert Contents(ps)[1..] == Contents(ps[1..]);
      FoldOfSounds(fmt, ch, ps[1..]);
      match ps[0]
      case Sound(b) => FoldsApart(fmt, ch, b, Sounds(ps[1..]));
      case Command(op) =>
        CommandsFoldToNothing(fmt, ch, op);
        assert [] + FoldEach(fmt, ch, Contents(ps[1..])) == FoldEach(fmt, ch, Contents(ps[1..]));
        assert [] + Sounds(ps[1..]) == Sounds(ps[1..]);
    }
  }

  lemma FoldsApart(fmt: Format, ch: nat, a: seq<byte>, b: seq<byte>)
    requires ValidChannels(ch) && |a| % FrameBytes(fmt, ch) == 0
    ensures Fold(fmt, ch, a + b) == Fold(fmt, ch, a) + Fold(fmt, ch, b)
  {
    var f := FrameBytes(fmt, ch);
    assert |a| == |a| / f * f;
    FoldDistributes(fmt, ch, a, b, |a| / f);
  }

  /** Cut between frames, the payloads make the mixer hear what their sound as a whole would. */
  lemma PayloadsAreRendered(c: Client, ps: seq<Payload>)
    requires ValidClient(c) && AllAligned(ps, FrameSize(c))
    ensures TakenAll(c, Fresh, Contents(ps)).pushed == Rendered(c, Sounds(ps))
  {
    match c
    case Direct =>
      DirectTakesSounds(Fresh, ps);
      assert [] + Sounds(ps) == Sounds(ps);
    case Converting(fmt, ch, r) =>
      ConvertingTakesAll(c, Fresh, Contents(ps));
      PipelineChunkInvariance(fmt, ch, r, Contents(ps));
      FoldOfSounds(fmt, ch, ps);
  }

  /** More sound only adds to what is heard. */
  lemma RenderedGrows(c: Client, x: seq<byte>, y: seq<byte>)
    requires ValidClient(c) && |x| % FrameSize(c) == 0
    ensures Rendered(c, x) <= Rendered(c, x + y)
  {
    if c.Converting? {
      var a, b := Fold(c.fmt, c.ch, x), Fold(c.fmt, c.ch, y);
      FoldsApart(c.fmt, c.ch, x, y);
      ConvertTwice(c.r, Origin, a, b);
      var s := Convert(c.r, Origin, a);
      var t := Convert(c.r, s, b);
      assert t.out == s.out + t.out[|s.out|..];
      PackDistributes(s.out, t.out[|s.out|..]);
    }
  }

  /** The sound in what a reader would parse: the payloads of whole frames. */
  function Heard(f: nat, payloads: seq<seq<byte>>): seq<byte>
    requires f > 0
  {
    if payloads == [] then []
    else (if |payloads[0]| % f == 0 then payloads[0] else []) + Heard(f, payloads[1..])
  }

  lemma {:induction false} SoundsAreHeard(f: nat, ps: seq<Payload>)
    requires f > 1 && AllAligned(ps, f)
    ensures Heard(f, Contents(ps)) == Sounds(ps)
  {
    if ps != [] {
      assert Contents(ps)[1..] == Contents(ps[1..]);
      SoundsAreHeard(f, ps[1..]);
      DivModUnique(1, f, 0, 1);
    }
  }

  // ---------------------------------------------------------------- each step

  lemma PopKeepsInv(s: State, w: nat, u: Setup)
    requires Valid(u) && Inv(s, u) && Enabled(s, MixerPops(w), u)
    ensures Inv(Next(s, MixerPops(w), u), u)
  {
    var n := Want(s.serverRing, w);
    assert (s.mixed + s.serverRing[..n]) + s.serverRing[n..] == s.mixed + s.serverRing;
  }

  /** The reader's work after one more payload. */
  lemma ReaderKeepsUp(c: Client, rd: Reader, got: seq<Payload>, p: Payload)
    requires ValidClient(c) && rd == TakenAll(c, Fresh, Contents(got))
    ensures Taken(c, rd, Content(p)) == TakenAll(c, Fresh, Contents(got + [p]))
  {
    assert Contents(got + [p]) == Contents(got) + [Content(p)];
    TakenOneMore(c, Fresh, Contents(got), Content(p));
  }

  lemma RingKeepsUp(before: seq<byte>, after: seq<byte>, mixed: seq<byte>, ring: seq<byte>)
    requires mixed + ring == before <= after && |ring| % 4 == 0 && (|after| - |before|) % 4 == 0
    ensures mixed + (ring + after[|before|..]) == after && |ring + after[|before|..]| % 4 == 0
  {
    assert mixed + (ring + after[|before|..]) == (mixed + ring) + after[|before|..];
  }

  lemma FinishKeepsInv(s: State, u: Setup)
    requires Valid(u) && Inv(s, u) && Enabled(s, Pipe(ReaderFinishes), u)
    ensures Inv(Next(s, Pipe(ReaderFinishes), u), u)
  {
    FinishedPayload(s.pipe);
    FinishKeepsPipe(s, u);
    ReaderKeepsUp(u.client, s.reader, s.pipe.got, s.pipe.frames[0]);
    TakenAdds(u.client, s.reader, Received(s.pipe));
    RingKeepsUp(s.reader.pushed, Taken(u.client, s.reader, Received(s.pipe)).pushed, s.mixed, s.serverRing);
  }

  lemma FinishKeepsPipe(s: State, u: Setup)
    requires Valid(u) && Inv(s, u) && Enabled(s, Pipe(ReaderFinishes), u)
    ensures var t := Transport.Next(s.pipe, ReaderFinishes, u.shim);
            && Transport.Inv(t) && Aligned(t, FrameSize(u.client))
            && s.pipe.frames != [] && t.got == s.pipe.got + [s.pipe.frames[0]]
  {
    Transport.FinishKeepsInv(s.pipe, u.shim);
    StepKeepsAligned(s.pipe, ReaderFinishes, u.shim, FrameSize(u.client));
  }

  lemma PipeKeepsInv(s: State, d: Transport.Step, u: Setup)
    requires Valid(u) && Inv(s, u) && Enabled(s, Pipe(d), u) && !d.ReaderFinishes?
    ensures Inv(Next(s, Pipe(d), u), u)
  {
    Transport.StepKeepsInv(s.pipe, d, u.shim);
    StepKeepsAligned(s.pipe, d, u.shim, FrameSize(u.client));
  }

  lemma StepKeepsInv(s: State, e: Step, u: Setup)
    requires Valid(u) && Inv(s, u) && Enabled(s, e, u)
    ensures Inv(Next(s, e, u), u)
  {
    match e
    case MixerPops(w) => PopKeepsInv(s, w, u);
    case Pipe(d) =>
      if d.ReaderFinishes? {
        FinishKeepsInv(s, u);
      } else {
        PipeKeepsInv(s, d, u);
      }
  }

  lemma StartInv(u: Setup)
    requires Valid(u)
    ensures Inv(Start, u)
  {
    Transport.StartInv();
    DivModUnique(0, FrameSize(u.client), 0, 0);
    assert Contents([]) == [];
  }

  lemma {:induction false} RunKeepsInv(s: State, steps: seq<Step>, u: Setup)
    requires Valid(u) && Inv(s, u) && Run(s, steps, u)
    ensures Inv(After(s, steps, u), u)
    decreases |steps|
  {
    if steps != [] {
      StepKeepsInv(s, steps[0], u);
      RunKeepsInv(Next(s, steps[0], u), steps[1..], u);
    }
  }

  // ---------------------------------------------------------------- end to end

  /**
   * What the mixer has taken and what waits for it are the rendering of the sound that has reached
   * the reader; that, the sound in transit and the shim's ring are what was written.
   */
  predicate NothingLost(s: State, u: Setup)
    requires Valid(u)
  {
    && s.mixed + s.serverRing == Rendered(u.client, Sounds(s.pipe.got))
    && Sounds(s.pipe.got) + Heard(FrameSize(u.client), Parsed(InTransit(s.pipe))) + s.pipe.shimRing == s.pipe.written
  }

  lemma InvLosesNothing(s: State, u: Setup)
    requires Valid(u) && Inv(s, u)
    ensures NothingLost(s, u) && s.mixed <= Rendered(u.client, s.pipe.written)
  {
    var a, b, ring := Sounds(s.pipe.got), Sounds(s.pipe.frames), s.pipe.shimRing;
    PayloadsAreRendered(u.client, s.pipe.got);
    TransitIsFrames(s.pipe);
    SoundsAreHeard(FrameSize(u.client), s.pipe.frames);
    assert (a + b) + ring == a + (b + ring) == s.pipe.written;
    SoundsAreWhole(s.pipe.got, FrameSize(u.client));
    RenderedGrows(u.client, a, b + ring);
    assert s.mixed <= s.mixed + s.serverRing;
  }

  lemma {:induction false} SoundsAreWhole(ps: seq<Payload>, f: nat)
    requires f > 0 && AllAligned(ps, f)
    ensures |Sounds(ps)| % f == 0
  {
    DivModUnique(0, f, 0, 0);
    if ps != [] {
      SoundsAreWhole(ps[1..], f);
      if ps[0].Sound? {
        RemainderOfDifference(|ps[0].b|, |Sounds(ps[1..])|, f);
      }
    }
  }

  /**
   * In every interleaving and under any fragmentation, for a direct client and for a converting one
   * at any rate: nothing written is lost, repeated or reordered; what was mixed is the beginning of
   * the rendering of all that was written; and no frame the shim sends is ever taken as an opcode.
   */
  lemma EndToEnd(steps: seq<Step>, u: Setup)
    requires Valid(u) && Run(Start, steps, u)
    ensures var t := After(Start, steps, u);
            && NothingLost(t, u)
            && t.mixed <= Rendered(u.client, t.pipe.written)
            && t.pipe.commands == 0
  {
    StartInv(u);
    RunKeepsInv(Start, steps, u);
    InvLosesNothing(After(Start, steps, u), u);
  }

  // ---------------------------------------------------------------- everything arrives

  /** Steps that move data, as opposed to adding it. */
  predicate Moves(e: Step) {
    e.Pipe? ==> Transport.Moves(e.e)
  }

  /** How far the data in the pipeline is from the mixer. */
  function Remaining(s: State, u: Setup): nat
    requires Valid(u)
  {
    Weighted(MostPushed(u.client) + 1, Transport.Remaining(s.pipe)) + |s.serverRing|
  }

  function Weighted(weight: nat, a: nat): nat {
    weight * a
  }

  lemma PushIsBounded(s: State, u: Setup)
    requires Valid(u) && Inv(s, u) && Complete(s.pipe)
    ensures |Pushed(s, u)| <= MostPushed(u.client)
  {
    FinishedPayload(s.pipe);
    assert Sendable(s.pipe.frames[0]);
    var p := Received(s.pipe);
    TakenAdds(u.client, s.reader, p);
    match u.client
    case Direct =>
      assert Taken(Direct, s.reader, p).pushed == s.reader.pushed + Kept(p);
    case Converting(fmt, ch, r) =>
      ConvertingTakesAll(u.client, Fresh, Contents(s.pipe.got));
      Payloads.PushWithinMost(fmt, ch, r, Contents(s.pipe.got), p, DRAIN_CHUNK);
  }

  lemma WeighedDown(weight: nat, a: nat, b: nat, more: nat)
    requires b < a && more < weight
    ensures Weighted(weight, b) + more < Weighted(weight, a)
  {
    MulMonotone(b + 1, a, weight);
  }

  /** Every data step shortens the way left. */
  lemma MovesMakeProgress(s: State, e: Step, u: Setup)
    requires Valid(u) && Inv(s, u) && Enabled(s, e, u) && Moves(e)
    ensures Remaining(Next(s, e, u), u) < Remaining(s, u)
    ensures Next(s, e, u).pipe.written == s.pipe.written
  {
    if e.Pipe? {
      var weight, more := MostPushed(u.client) + 1, 0;
      Transport.MovesMakeProgress(s.pipe, e.e, u.shim);
      if e.e.ReaderFinishes? {
        PushIsBounded(s, u);
        more := |Pushed(s, u)|;
      }
      WeighedDown(weight, Transport.Remaining(s.pipe), Transport.Remaining(Next(s, e, u).pipe), more);
      WeighedDown(weight, Transport.Remaining(s.pipe), Transport.Remaining(Next(s, e, u).pipe), 0);
    }
  }

  /** While anything written is not yet mixed, some data step can be taken: nothing gets stuck. */
  lemma NeverStuck(s: State, u: Setup) returns (e: Step)
    requires Valid(u) && Inv(s, u) && Roomy(u) && s.mixed != Rendered(u.client, s.pipe.written)
    ensures Moves(e) && Enabled(s, e, u)
  {
    if s.serverRing != [] {
      e := MixerPops(1);
    } else {
      if s.pipe.frames == [] && s.pipe.shimRing == [] {
        NothingLeft(s, u);
      }
      var d := Transport.NeverStuck(s.pipe, u.shim);
      if d.ReaderFinishes? {
        PushIsBounded(s, u);
      }
      e := Pipe(d);
    }
  }

  lemma NothingLeft(s: State, u: Setup)
    requires Valid(u) && Inv(s, u) && s.serverRing == [] && s.pipe.frames == [] && s.pipe.shimRing == []
    ensures s.mixed == Rendered(u.client, s.pipe.written)
  {
    PayloadsAreRendered(u.client, s.pipe.got);
    var a := Sounds(s.pipe.got);
    assert a + ([] + []) == a && s.mixed + [] == s.mixed;
  }

  ghost predicate Exhausted(s: State, u: Setup)
    requires Valid(u)
  {
    forall e :: Moves(e) ==> !Enabled(s, e, u)
  }

  lemma ExhaustedIsMixed(s: State, u: Setup)
    requires Valid(u) && Inv(s, u) && Roomy(u) && Exhausted(s, u)
    ensures s.mixed == Rendered(u.client, s.pipe.written)
  {
    if s.mixed != Rendered(u.client, s.pipe.written) {
      var e := NeverStuck(s, u);
    }
  }

  ghost predicate MovingRun(s: State, steps: seq<Step>, u: Setup)
    requires Valid(u)
    decreases |steps|
  {
    steps == [] || (Moves(steps[0]) && Enabled(s, steps[0], u) && MovingRun(Next(s, steps[0], u), steps[1..], u))
  }

  lemma {:induction false} MovingRunsEnd(s: State, steps: seq<Step>, u: Setup)
    requires Valid(u) && Inv(s, u) && MovingRun(s, steps, u)
    ensures Run(s, steps, u) && |steps| <= Remaining(s, u)
    ensures Inv(After(s, steps, u), u) && After(s, steps, u).pipe.written == s.pipe.written
    decreases |steps|
  {
    if steps != [] {
      StepKeepsInv(s, steps[0], u);
      MovesMakeProgress(s, steps[0], u);
      MovingRunsEnd(Next(s, steps[0], u), steps[1..], u);
    }
  }

  /**
   * So data steps alone deliver everything, if the server's ring takes any one push: such a run is
   * no longer than the way left, and one that can go no further has mixed the rendering of exactly
   * what was written.
   */
  lemma EverythingArrives(s: State, steps: seq<Step>, u: Setup)
    requires Valid(u) && Inv(s, u) && Roomy(u) && MovingRun(s, steps, u)
    ensures Run(s, steps, u) && |steps| <= Remaining(s, u)
    ensures Exhausted(After(s, steps, u), u) ==> After(s, steps, u).mixed == Rendered(u.client, s.pipe.written)
  {
    MovingRunsEnd(s, steps, u);
    if Exhausted(After(s, steps, u), u) {
      ExhaustedIsMixed(After(s, steps, u), u);
    }
  }
}
