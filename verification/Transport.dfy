/**
 * The way from `snd_pcm_writei` (shim/src/lib.rs) through the shim's ring, the drain thread and the
 * socket to the reader's frame parser (server/src/main.rs). Every transfer may be cut anywhere and
 * the threads run in any order.
 */
module Transport {
  import opened Bytes
  import opened Numbers

  const DRAIN_CHUNK: nat := 1024

  /** What the drain thread frames: a chunk of sound, or a control opcode. */
  datatype Payload = Sound(b: seq<byte>) | Command(op: byte)

  function Content(p: Payload): seq<byte> {
    match p
    case Sound(b) => b
    case Command(op) => [op]
  }

  function Contents(ps: seq<Payload>): (cs: seq<seq<byte>>)
    ensures |cs| == |ps|
  {
    seq(|ps|, i requires 0 <= i < |ps| => Content(ps[i]))
  }

  /** The sound in some payloads, in order. */
  function Sounds(ps: seq<Payload>): seq<byte> {
    if ps == [] then [] else (if ps[0].Sound? then ps[0].b else []) + Sounds(ps[1..])
  }

  /** A length-prefixed frame on the wire. */
  function Frame(payload: seq<byte>): seq<byte> {
    Le32(|payload|) + payload
  }

  function Wire(payloads: seq<seq<byte>>): seq<byte> {
    if payloads == [] then [] else Frame(payloads[0]) + Wire(payloads[1..])
  }

  /** What the reader makes of a byte stream: the payload of every complete frame in it. */
  function Parsed(stream: seq<byte>): seq<seq<byte>>
    decreases |stream|
  {
    if |stream| < 4 then []
    else
      var n := FromLe(stream[..4]);
      if |stream| < 4 + n then [] else [stream[4..4 + n]] + Parsed(stream[4 + n..])
  }

  /** A payload the drain thread can send: never empty, and its length fits the prefix. */
  predicate Sendable(p: Payload) {
    0 < |Content(p)| <= DRAIN_CHUNK
  }

  lemma PrefixOf(payload: seq<byte>, rest: seq<byte>)
    requires |payload| < U32
    ensures var s := Frame(payload) + rest;
            && |s| >= 4 + |payload| && FromLe(s[..4]) == |payload|
            && s[4..4 + |payload|] == payload && s[4 + |payload|..] == rest
  {
    Le32RoundTrip(|payload|);
    var s := Frame(payload) + rest;
    assert s[..4] == Le32(|payload|);
  }

  /** The parser inverts the framing, for any payloads. */
  lemma {:induction false} ParserInvertsFraming(payloads: seq<seq<byte>>)
    requires forall i :: 0 <= i < |payloads| ==> |payloads[i]| < U32
    ensures Parsed(Wire(payloads)) == payloads
  {
    if payloads != [] {
      PrefixOf(payloads[0], Wire(payloads[1..]));
      ParserInvertsFraming(payloads[1..]);
      assert [payloads[0]] + payloads[1..] == payloads;
    }
  }

  datatype State = State(
    shimRing: seq<byte>,
    outgoing: seq<byte>,     // of the drain thread's frame, what the kernel has not taken
    socket: seq<byte>,
    received: seq<byte>,     // of the reader's frame, what has been read
    // what has happened
    written: seq<byte>,      // everything given to writei
    frames: seq<Payload>,    // payloads whose frame the reader has not finished
    got: seq<Payload>,       // payloads the reader has finished
    commands: nat)           // opcodes the server decoded

  const Start: State := State([], [], [], [], [], [], [], 0)

  datatype Step =
    | Writei(b: seq<byte>)
    | DrainPop
    | DrainCommand(op: byte)   // a mute, unmute or flush frame, as the shim sends it
    | KernelTakes(k: nat)
    | ReaderGets(k: nat)
    | ReaderFinishes

  /** Bytes the reader's current `read` may ask for: the prefix first, then the payload. */
  function Missing(s: State): nat {
    if |s.received| < 4 then 4 - |s.received|
    else
      var n := FromLe(s.received[..4]);
      if |s.received| < 4 + n then 4 + n - |s.received| else 0
  }

  function Received(s: State): seq<byte>
    requires |s.received| >= 4
  {
    s.received[4..]
  }

  predicate Complete(s: State) {
    |s.received| >= 4 && Missing(s) == 0
  }

  predicate Enabled(s: State, e: Step, cap: nat) {
    match e
    case Writei(b) => |s.shimRing| + |b| <= cap
    case DrainPop => s.outgoing == [] && s.shimRing != []
    case DrainCommand(_) => s.outgoing == []
    case KernelTakes(k) => 0 < k <= |s.outgoing|
    case ReaderGets(k) => 0 < k <= |s.socket| && k <= Missing(s)
    case ReaderFinishes => Complete(s)
  }

  function Next(s: State, e: Step, cap: nat): State
    requires Enabled(s, e, cap)
  {
    match e
    case Writei(b) => s.(shimRing := s.shimRing + b, written := s.written + b)
    case DrainPop =>
      var n := Min(DRAIN_CHUNK, |s.shimRing|);
      Framed(s.(shimRing := s.shimRing[n..]), Sound(s.shimRing[..n]))
    case DrainCommand(op) => Framed(s, Command(op))
    case KernelTakes(k) => s.(outgoing := s.outgoing[k..], socket := s.socket + s.outgoing[..k])
    case ReaderGets(k) => s.(socket := s.socket[k..], received := s.received + s.socket[..k])
    case ReaderFinishes =>
      // A zero length would announce an opcode.
      if |Received(s)| == 0 then s.(received := [], commands := s.commands + 1)
      else if s.frames == [] then s.(received := [])
      else s.(received := [], frames := s.frames[1..], got := s.got + [s.frames[0]])
  }

  function Framed(s: State, p: Payload): State {
    s.(outgoing := Frame(Content(p)), frames := s.frames + [p])
  }

  /** Bytes past the shim ring and not yet a finished frame, in wire order. */
  function InTransit(s: State): seq<byte> {
    s.received + (s.socket + s.outgoing)
  }

  predicate Inv(s: State) {
    && Sounds(s.got) + (Sounds(s.frames) + s.shimRing) == s.written
    && InTransit(s) == Wire(Contents(s.frames))
    && (forall i :: 0 <= i < |s.frames| ==> Sendable(s.frames[i]))
    && s.commands == 0
    && (s.frames == [] ==> s.received == [])
    && (s.frames != [] ==> |s.received| <= 4 + |Content(s.frames[0])|)
  }

  // ---------------------------------------------------------------- lists

  lemma {:induction false} SoundsSplit(a: seq<Payload>, b: seq<Payload>)
    ensures Sounds(a + b) == Sounds(a) + Sounds(b)
  {
    if a == [] {
      assert a + b == b;
    } else {
      assert (a + b)[1..] == a[1..] + b;
      SoundsSplit(a[1..], b);
    }
  }

  lemma OneSound(p: Payload)
    ensures Sounds([p]) == if p.Sound? then p.b else []
  {
    assert [p][1..] == [];
    assert Sounds([]) == [];
  }

  lemma {:induction false} WireAppend(payloads: seq<seq<byte>>, p: seq<byte>)
    ensures Wire(payloads + [p]) == Wire(payloads) + Frame(p)
  {
    if payloads == [] {
      assert [] + [p] == [p] && [p][1..] == [];
      assert Frame(p) + [] == Frame(p);
    } else {
      assert (payloads + [p])[1..] == payloads[1..] + [p];
      WireAppend(payloads[1..], p);
      assert Frame(payloads[0]) + (Wire(payloads[1..]) + Frame(p)) == Wire(payloads) + Frame(p);
    }
  }

  // ---------------------------------------------------------------- each step

  /** What the reader has of a frame is a prefix of it, and when complete is the frame. */
  lemma ReaderSees(s: State)
    requires Inv(s) && s.frames != []
    ensures var p := Content(s.frames[0]);
            && s.received == Frame(p)[..|s.received|]
            && Missing(s) == (if |s.received| < 4 then 4 - |s.received| else 4 + |p| - |s.received|)
            && (Complete(s) ==> s.received == Frame(p) && Received(s) == p
                                && s.socket + s.outgoing == Wire(Contents(s.frames[1..])))
  {
    var p, rest := Content(s.frames[0]), Wire(Contents(s.frames[1..]));
    assert Sendable(s.frames[0]);
    PrefixOf(p, rest);
    assert Contents(s.frames)[1..] == Contents(s.frames[1..]);
    assert InTransit(s) == Frame(p) + rest;
    assert s.received == (Frame(p) + rest)[..|s.received|];
    if |s.received| >= 4 {
      assert s.received[..4] == (Frame(p) + rest)[..4];
    }
  }

  lemma FramedOnWire(s: State, p: Payload)
    requires s.outgoing == [] && InTransit(s) == Wire(Contents(s.frames))
    ensures InTransit(Framed(s, p)) == Wire(Contents(s.frames + [p]))
  {
    var w := Frame(Content(p));
    WireAppend(Contents(s.frames), Content(p));
    assert Contents(s.frames + [p]) == Contents(s.frames) + [Content(p)];
    assert s.received + (s.socket + w) == (s.received + (s.socket + [])) + w;
  }

  lemma FramedSounds(frames: seq<Payload>, p: Payload, left: seq<byte>, ring: seq<byte>)
    requires (if p.Sound? then p.b else []) + left == ring
    ensures Sounds(frames + [p]) + left == Sounds(frames) + ring
  {
    SoundsSplit(frames, [p]);
    OneSound(p);
    assert (Sounds(frames) + Sounds([p])) + left == Sounds(frames) + (Sounds([p]) + left);
  }

  lemma FramedKeepsInv(s: State, p: Payload, left: seq<byte>)
    requires Inv(s) && s.outgoing == [] && Sendable(p)
    requires (if p.Sound? then p.b else []) + left == s.shimRing
    ensures Inv(Framed(s.(shimRing := left), p))
  {
    FramedOnWire(s, p);
    FramedSounds(s.frames, p, left, s.shimRing);
  }

  /** The reader finishes the first frame under way, which is never empty. */
  lemma FinishedPayload(s: State)
    requires Inv(s) && Complete(s)
    ensures s.frames != [] && Received(s) == Content(s.frames[0]) != []
    ensures s.socket + s.outgoing == Wire(Contents(s.frames[1..]))
  {
    ReaderSees(s);
    assert Sendable(s.frames[0]);
  }

  lemma HandOn(got: seq<Payload>, p: Payload, rest: seq<Payload>, ring: seq<byte>)
    ensures Sounds(got + [p]) + (Sounds(rest) + ring) == Sounds(got) + (Sounds([p] + rest) + ring)
  {
    SoundsSplit(got, [p]);
    SoundsSplit([p], rest);
    var a, b, d := Sounds(got), Sounds([p]), Sounds(rest);
    assert (a + b) + (d + ring) == a + ((b + d) + ring);
  }

  lemma FinishKeepsInv(s: State, cap: nat)
    requires Inv(s) && Enabled(s, ReaderFinishes, cap)
    ensures Inv(Next(s, ReaderFinishes, cap)) && s.frames != []
    ensures Next(s, ReaderFinishes, cap).got == s.got + [s.frames[0]]
  {
    FinishedPayload(s);
    var p, rest := s.frames[0], s.frames[1..];
    HandOn(s.got, p, rest, s.shimRing);
    assert s.frames == [p] + rest;
    assert [] + (s.socket + s.outgoing) == s.socket + s.outgoing;
  }

  lemma MoveKeepsInv(s: State, e: Step, cap: nat)
    requires Inv(s) && Enabled(s, e, cap) && (e.KernelTakes? || e.ReaderGets?)
    ensures Inv(Next(s, e, cap))
  {
    if e.KernelTakes? {
      assert (s.socket + s.outgoing[..e.k]) + s.outgoing[e.k..] == s.socket + s.outgoing;
    } else {
      assert |InTransit(s)| >= |s.socket| > 0;
      ReaderSees(s);
      assert (s.received + s.socket[..e.k]) + (s.socket[e.k..] + s.outgoing) == InTransit(s);
    }
  }

  lemma WriteKeepsInv(s: State, b: seq<byte>, cap: nat)
    requires Inv(s) && Enabled(s, Writei(b), cap)
    ensures Inv(Next(s, Writei(b), cap))
  {
    var r, d := Sounds(s.got), Sounds(s.frames);
    assert r + (d + (s.shimRing + b)) == r + (d + s.shimRing) + b;
  }

  lemma StepKeepsInv(s: State, e: Step, cap: nat)
    requires Inv(s) && Enabled(s, e, cap)
    ensures Inv(Next(s, e, cap))
  {
    match e
    case DrainPop =>
      var n := Min(DRAIN_CHUNK, |s.shimRing|);
      assert s.shimRing[..n] + s.shimRing[n..] == s.shimRing;
      FramedKeepsInv(s, Sound(s.shimRing[..n]), s.shimRing[n..]);
    case DrainCommand(op) => FramedKeepsInv(s, Command(op), s.shimRing);
    case ReaderFinishes => FinishKeepsInv(s, cap);
    case KernelTakes(_) => MoveKeepsInv(s, e, cap);
    case ReaderGets(_) => MoveKeepsInv(s, e, cap);
    case Writei(b) => WriteKeepsInv(s, b, cap);
  }

  lemma StartInv()
    ensures Inv(Start)
  {
  }

  /** A reader that took over the bytes in transit would find exactly the payloads under way. */
  lemma TransitIsFrames(s: State)
    requires Inv(s)
    ensures Parsed(InTransit(s)) == Contents(s.frames)
  {
    forall i | 0 <= i < |s.frames| ensures |Contents(s.frames)[i]| < U32 {
      assert Sendable(s.frames[i]);
    }
    ParserInvertsFraming(Contents(s.frames));
  }

  // ---------------------------------------------------------------- whole frames

  /** Everything cut so far was cut between the client's frames of `f` bytes. */
  predicate Aligned(s: State, f: nat)
    requires f > 0
  {
    && |s.shimRing| % f == 0
    && AllAligned(s.frames, f) && AllAligned(s.got, f)
  }

  predicate AllAligned(ps: seq<Payload>, f: nat)
    requires f > 0
  {
    forall i :: 0 <= i < |ps| && ps[i].Sound? ==> |ps[i].b| % f == 0
  }

  lemma RemainderOfDifference(a: nat, b: nat, f: nat)
    requires f > 0 && a % f == 0 && b % f == 0
    ensures (a + b) % f == 0 && (a >= b ==> (a - b) % f == 0)
  {
    var p, q := a / f, b / f;
    assert a == p * f && b == q * f;
    DivModUnique(a + b, f, p + q, 0);
    if a >= b {
      DivModUnique(a - b, f, p - q, 0);
    }
  }

  /** Whole-frame writes stay whole if a drain chunk is a whole number of frames. */
  lemma StepKeepsAligned(s: State, e: Step, cap: nat, f: nat)
    requires f > 0 && DRAIN_CHUNK % f == 0 && Aligned(s, f) && Enabled(s, e, cap)
    requires e.Writei? ==> |e.b| % f == 0
    ensures Aligned(Next(s, e, cap), f)
  {
    if e.Writei? {
      RemainderOfDifference(|s.shimRing|, |e.b|, f);
    } else if e.DrainPop? {
      RemainderOfDifference(|s.shimRing|, Min(DRAIN_CHUNK, |s.shimRing|), f);
    }
  }

  // ---------------------------------------------------------------- progress

  predicate Moves(e: Step) {
    !e.Writei? && !e.DrainCommand?
  }

  /** How far the bytes before the reader are from it. */
  function Remaining(s: State): nat {
    16 * |s.shimRing| + 3 * |s.outgoing| + 2 * |s.socket| + |s.received|
  }

  lemma MovesMakeProgress(s: State, e: Step, cap: nat)
    requires Enabled(s, e, cap) && Moves(e)
    ensures Remaining(Next(s, e, cap)) < Remaining(s) && Next(s, e, cap).written == s.written
  {
  }

  /** While anything written has not reached the reader, some step is possible. */
  lemma NeverStuck(s: State, cap: nat) returns (e: Step)
    requires Inv(s) && (s.frames != [] || s.shimRing != [])
    ensures Moves(e) && Enabled(s, e, cap)
  {
    if s.outgoing != [] {
      e := KernelTakes(1);
    } else if s.frames != [] {
      ReaderSees(s);
      assert Sendable(s.frames[0]);
      if Complete(s) {
        e := ReaderFinishes;
      } else {
        PrefixOf(Content(s.frames[0]), Wire(Contents(s.frames)[1..]));
        assert |InTransit(s)| >= 4 + |Content(s.frames[0])|;
        e := ReaderGets(1);
      }
    } else {
      e := DrainPop;
    }
  }
}
