/**
 * The life of one client slot: its reader pushes and finally sets `done`; the mixer flushes, pops,
 * and retires the slot by two separate reads of `done` and of the ring's fill
 * (server/src/mixer.rs, server/src/main.rs). Either thread may run between any two steps.
 */
module Slots {
  import opened Bytes
  import opened Mixer

  /** What the mixer took out of the ring, oldest first. */
  datatype Taken = Mixed(b: seq<byte>) | Flushed(b: seq<byte>)

  /** How far the mixer is in its retirement test, with what the first read returned. */
  datatype Test = NotTesting | SawFirst(v: bool)

  /** Which of the two reads comes first; the code reads `done` first. */
  datatype Order = DoneFirst | FillFirst

  datatype Slot = Slot(
    ring: seq<byte>, done: bool, flush: bool, test: Test, retired: bool,
    pushed: seq<byte>, taken: seq<Taken>, flushRequests: nat)

  const Fresh: Slot := Slot([], false, false, NotTesting, false, [], [], 0)

  datatype Step =
    | ReaderPush(b: seq<byte>)
    | ReaderFlush
    | ReaderFinish
    | MixerFlush
    | MixerPop(writable: nat)
    | TestFirst
    | TestSecond

  predicate Enabled(s: Slot, e: Step) {
    match e
    case ReaderPush(b) => !s.done && |b| % 4 == 0
    case ReaderFlush => !s.done
    case ReaderFinish => !s.done
    case MixerFlush => !s.retired && s.test.NotTesting?
    case MixerPop(_) => !s.retired && s.test.NotTesting?
    case TestFirst => !s.retired && s.test.NotTesting?
    case TestSecond => !s.retired && s.test.SawFirst?
  }

  function Next(s: Slot, e: Step, o: Order): Slot
    requires Enabled(s, e)
  {
    match e
    case ReaderPush(b) => s.(ring := s.ring + b, pushed := s.pushed + b)
    case ReaderFlush => s.(flush := true, flushRequests := s.flushRequests + 1)
    case ReaderFinish => s.(done := true)
    case MixerFlush =>
      if s.flush then s.(flush := false, ring := [], taken := s.taken + [Flushed(s.ring)]) else s
    case MixerPop(writable) =>
      var n := Want(s.ring, writable);
      s.(ring := s.ring[n..], taken := s.taken + [Mixed(s.ring[..n])])
    case TestFirst => s.(test := SawFirst(if o.DoneFirst? then s.done else s.ring == []))
    case TestSecond =>
      var second := if o.DoneFirst? then s.ring == [] else s.done;
      s.(test := NotTesting, retired := s.test.v && second)
  }

  ghost predicate Run(s: Slot, steps: seq<Step>, o: Order)
    decreases |steps|
  {
    steps == [] || (Enabled(s, steps[0]) && Run(Next(s, steps[0], o), steps[1..], o))
  }

  ghost function After(s: Slot, steps: seq<Step>, o: Order): Slot
    requires Run(s, steps, o)
    decreases |steps|
  {
    if steps == [] then s else After(Next(s, steps[0], o), steps[1..], o)
  }

  function Contents(taken: seq<Taken>): seq<byte> {
    if taken == [] then [] else Contents(taken[..|taken| - 1]) + taken[|taken| - 1].b
  }

  function Flushes(taken: seq<Taken>): nat {
    if taken == [] then 0
    else Flushes(taken[..|taken| - 1]) + if taken[|taken| - 1].Flushed? then 1 else 0
  }

  /** Nothing is lost or reordered, and flushing only happens on request. */
  predicate Accounted(s: Slot) {
    && Contents(s.taken) + s.ring == s.pushed
    && Flushes(s.taken) + (if s.flush then 1 else 0) <= s.flushRequests
    && |s.ring| % 4 == 0
  }

  /** The mixer's memory of `done` is still right, and retirement came last. */
  predicate Inv(s: Slot) {
    && Accounted(s)
    && (s.test == SawFirst(true) ==> s.done)
    && (s.retired ==> s.done && s.ring == [])
  }

  lemma StepKeepsAccount(s: Slot, e: Step, o: Order)
    requires Accounted(s) && Enabled(s, e)
    ensures Accounted(Next(s, e, o))
  {
    match e
    case ReaderPush(b) =>
      assert Contents(s.taken) + (s.ring + b) == s.pushed + b;
    case MixerFlush =>
      if s.flush {
        assert (s.taken + [Flushed(s.ring)])[..|s.taken|] == s.taken;
      }
    case MixerPop(writable) =>
      var n := Want(s.ring, writable);
      assert (s.taken + [Mixed(s.ring[..n])])[..|s.taken|] == s.taken;
      assert (Contents(s.taken) + s.ring[..n]) + s.ring[n..] == Contents(s.taken) + s.ring;
    case _ =>
  }

  /**
   * No lost tail: in every interleaving, once the slot is retired every byte its client pushed has
   * been mixed or flushed at the client's request, in order, and no more can come.
   */
  lemma {:induction false} NoLostTail(s: Slot, steps: seq<Step>)
    requires Inv(s) && Run(s, steps, DoneFirst)
    ensures var t := After(s, steps, DoneFirst);
            Inv(t) && (t.retired ==> Contents(t.taken) == t.pushed && forall b :: !Enabled(t, ReaderPush(b)))
    decreases |steps|
  {
    if steps == [] {
      assert Contents(s.taken) + [] == Contents(s.taken);
    } else {
      StepKeepsAccount(s, steps[0], DoneFirst);
      NoLostTail(Next(s, steps[0], DoneFirst), steps[1..]);
    }
  }

  /** With the two reads swapped a tail is lost: four steps from a fresh slot. */
  lemma SwappedReadsLoseTheTail(b: seq<byte>)
    requires b != [] && |b| % 4 == 0
    ensures var steps := [TestFirst, ReaderPush(b), ReaderFinish, TestSecond];
            && Run(Fresh, steps, FillFirst)
            && After(Fresh, steps, FillFirst).retired
            && After(Fresh, steps, FillFirst).ring == b
  {
    var s0 := Fresh;
    var s1 := Next(s0, TestFirst, FillFirst);
    var s2 := Next(s1, ReaderPush(b), FillFirst);
    var s3 := Next(s2, ReaderFinish, FillFirst);
    RunCons(s3, TestSecond, [], FillFirst);
    RunCons(s2, ReaderFinish, [TestSecond], FillFirst);
    RunCons(s1, ReaderPush(b), [ReaderFinish, TestSecond], FillFirst);
    RunCons(s0, TestFirst, [ReaderPush(b), ReaderFinish, TestSecond], FillFirst);
    assert [] + b == b;
  }

  /** A slot whose client has finished and whose ring is empty goes at its next test. */
  lemma DrainedSlotRetires(s: Slot)
    requires !s.retired && s.test.NotTesting? && s.done && s.ring == []
    ensures Run(s, [TestFirst, TestSecond], DoneFirst)
    ensures After(s, [TestFirst, TestSecond], DoneFirst).retired
  {
    RunCons(Next(s, TestFirst, DoneFirst), TestSecond, [], DoneFirst);
    RunCons(s, TestFirst, [TestSecond], DoneFirst);
  }

  /** One with whole frames left goes after enough pops of at least one frame. */
  lemma {:induction false} FinishedSlotRetires(s: Slot, ws: seq<nat>) returns (steps: seq<Step>)
    requires !s.retired && s.test.NotTesting? && s.done && |s.ring| % 4 == 0
    requires |ws| >= |s.ring| / 4 && forall i :: 0 <= i < |ws| ==> ws[i] >= 1
    ensures Run(s, steps, DoneFirst) && After(s, steps, DoneFirst).retired
    ensures |steps| == |ws| + 2 && forall i :: 0 <= i < |ws| ==> steps[i] == MixerPop(ws[i])
    decreases |ws|
  {
    if ws == [] {
      DrainedSlotRetires(s);
      steps := [TestFirst, TestSecond];
    } else {
      var t := Next(s, MixerPop(ws[0]), DoneFirst);
      assert |t.ring| == |s.ring| - Want(s.ring, ws[0]);
      var rest := FinishedSlotRetires(t, ws[1..]);
      RunCons(s, MixerPop(ws[0]), rest, DoneFirst);
      steps := [MixerPop(ws[0])] + rest;
    }
  }

  lemma RunCons(s: Slot, e: Step, rest: seq<Step>, o: Order)
    requires Enabled(s, e) && Run(Next(s, e, o), rest, o)
    ensures Run(s, [e] + rest, o)
    ensures After(s, [e] + rest, o) == After(Next(s, e, o), rest, o)
  {
    assert ([e] + rest)[1..] == rest;
  }

  // ---------------------------------------------------------------- draining

  function Drained(ring: seq<byte>, ws: seq<nat>): seq<byte>
    decreases |ws|
  {
    if ws == [] then ring else Drained(ring[Want(ring, ws[0])..], ws[1..])
  }

  /** A ring can be emptied by pops exactly when it holds whole frames. */
  lemma {:induction false} DrainsIffWholeFrames(ring: seq<byte>, ws: seq<nat>)
    requires forall i :: 0 <= i < |ws| ==> ws[i] >= 1
    requires |ws| >= |ring| / 4
    ensures Drained(ring, ws) == [] <==> |ring| % 4 == 0
    decreases |ws|
  {
    if ws != [] {
      var n := Want(ring, ws[0]);
      assert n % 4 == 0 && (n >= 4 || |ring| < 4);
      assert (|ring| - n) % 4 == |ring| % 4;
      DrainsIffWholeFrames(ring[n..], ws[1..]);
    }
  }
}
