/** The shim's virtual device: delay and avail from a time-based playhead (shim/src/lib.rs). */
module Playhead {
  import opened Numbers

  const BUFFER_SIZE: int := 8192
  const SERVER_FRAMES: int := 4096
  const NS_PER_SEC: nat := 1_000_000_000

  datatype Anchor = Unset | At(t0: nat)

  /** `frameBytes` and `rate` are fixed once the handle is configured; `now` is the clock in ns. */
  datatype Pcm = Pcm(frameBytes: nat, rate: nat, totalPushed: nat, playStart: Anchor, now: nat)

  predicate Configured(h: Pcm) {
    && h.frameBytes > 0
    && h.totalPushed % h.frameBytes == 0
    && (h.playStart.At? ==> h.playStart.t0 <= h.now)
  }

  function PushedFrames(h: Pcm): nat
    requires h.frameBytes > 0
  {
    h.totalPushed / h.frameBytes
  }

  function ConsumedFrames(h: Pcm): int {
    match h.playStart
    case At(t0) => h.rate * (if h.now >= t0 then h.now - t0 else 0) / NS_PER_SEC
    case Unset => 0
  }

  function Delay(h: Pcm): int {
    if h.frameBytes == 0 then SERVER_FRAMES
    else Min(Max(PushedFrames(h) - ConsumedFrames(h), 0) + SERVER_FRAMES, BUFFER_SIZE)
  }

  function Avail(h: Pcm): int {
    BUFFER_SIZE - Delay(h)
  }

  /** `snd_pcm_writei` first anchors the playhead, if nothing has. */
  function Anchored(h: Pcm): Pcm {
    if h.playStart.Unset? then h.(playStart := At(h.now)) else h
  }

  /** Then it pushes, possibly waiting for the ring, and only then counts the `k` frames. */
  function Counted(h: Pcm, k: nat): Pcm {
    h.(totalPushed := h.totalPushed + k * h.frameBytes)
  }

  function Write(h: Pcm, k: nat): Pcm {
    Counted(Anchored(h), k)
  }

  function Wait(h: Pcm, ns: nat): Pcm {
    h.(now := h.now + ns)
  }

  /** `snd_pcm_drop`, and what a reconnect does to the counters. */
  function Reset(h: Pcm): Pcm {
    h.(totalPushed := 0, playStart := Unset)
  }

  /** `snd_pcm_prepare` forgets the anchor and keeps the count. */
  function Prepare(h: Pcm): Pcm {
    h.(playStart := Unset)
  }

  class Handle {
    var frameBytes: nat
    var rate: nat
    var totalPushed: nat
    var playStart: Anchor

    ghost function At(now: nat): Pcm
      reads this
    {
      Pcm(frameBytes, rate, totalPushed, playStart, now)
    }

    constructor (fb: nat, r: nat)
      ensures forall now :: At(now) == Pcm(fb, r, 0, Unset, now)
    {
      frameBytes, rate, totalPushed, playStart := fb, r, 0, Unset;
    }

    method DelayAvail(now: nat) returns (delay: int, avail: int)
      ensures delay == Delay(At(now)) && avail == Avail(At(now))
      ensures delay + avail == 8192
      ensures frameBytes == 0 ==> delay == 4096
    {
      if frameBytes == 0 {
        return SERVER_FRAMES, BUFFER_SIZE - SERVER_FRAMES;
      }
      var pushed := totalPushed / frameBytes;
      var consumed := match playStart
        case At(t0) => rate * (if now >= t0 then now - t0 else 0) / NS_PER_SEC
        case Unset => 0;
      var unplayed := Max(pushed - consumed, 0) + SERVER_FRAMES;
      delay := Min(unplayed, BUFFER_SIZE);
      avail := BUFFER_SIZE - delay;
    }

    method Writei(now: nat, size: nat)
      modifies this`totalPushed, this`playStart
      ensures At(now) == Write(old(At(now)), size)
    {
      if playStart.Unset? {
        playStart := Anchor.At(now);
      }
      totalPushed := totalPushed + size * frameBytes;
    }

    method Drop()
      modifies this`totalPushed, this`playStart
      ensures forall now :: At(now) == Reset(old(At(now)))
    {
      totalPushed, playStart := 0, Unset;
    }

    method PrepareAgain()
      modifies this`playStart
      ensures forall now :: At(now) == Prepare(old(At(now)))
    {
      playStart := Unset;
    }
  }

  // ---------------------------------------------------------------- single calls

  lemma ConsumedGrows(h: Pcm, ns: nat)
    requires Configured(h)
    ensures 0 <= ConsumedFrames(h) <= ConsumedFrames(Wait(h, ns))
  {
    if h.playStart.At? {
      var a, b := h.now - h.playStart.t0, h.now + ns - h.playStart.t0;
      MulMonotone(a, b, h.rate);
      QuotientMonotone(h.rate * a, h.rate * b, NS_PER_SEC);
    }
  }

  lemma PushedAfterCount(h: Pcm, k: nat)
    requires Configured(h)
    ensures Configured(Counted(h, k)) && PushedFrames(Counted(h, k)) == PushedFrames(h) + k
    ensures ConsumedFrames(Counted(h, k)) == ConsumedFrames(h)
  {
    DivShift(h.totalPushed, h.frameBytes, k);
  }

  /** `c` frames are those wholly played `t` nanoseconds after the anchor. */
  predicate PlayedAfter(c: int, rate: nat, t: nat) {
    c * 1000000000 <= rate * t < (c + 1) * 1000000000
  }

  /** Time is the only clock: rate frames a second, whole frames only; nothing without an anchor. */
  lemma ConsumedIsElapsed(h: Pcm)
    requires Configured(h)
    ensures h.playStart.At? ==> PlayedAfter(ConsumedFrames(h), h.rate, h.now - h.playStart.t0)
    ensures h.playStart.Unset? ==> ConsumedFrames(h) == 0
  {
  }

  /**
   * The reported pair, for `p` whole frames pushed and `c` played: 4096 frames beyond the server's
   * share of the backlog, never less and never more than the 8192 of the device.
   */
  lemma DelayIsBacklog(h: Pcm, p: nat, c: int)
    requires Configured(h) && h.totalPushed == p * h.frameBytes
    requires match h.playStart case At(t0) => PlayedAfter(c, h.rate, h.now - t0) case Unset => c == 0
    ensures p <= c ==> Delay(h) == 4096 && Avail(h) == 4096
    ensures c <= p <= c + 4096 ==> Delay(h) == p - c + 4096 && Avail(h) == 4096 - (p - c)
    ensures p >= c + 4096 ==> Delay(h) == 8192 && Avail(h) == 0
  {
    ConsumedIsElapsed(h);
    if h.playStart.At? {
      OneCount(c, ConsumedFrames(h), h.rate, h.now - h.playStart.t0);
    }
    DivModUnique(h.totalPushed, h.frameBytes, p, 0);
  }

  lemma OneCount(c: int, d: int, rate: nat, t: nat)
    requires PlayedAfter(c, rate, t) && PlayedAfter(d, rate, t)
    ensures c == d
  {
  }

  lemma PlayedReaches(c: int, rate: nat, t: nat, k: nat)
    requires PlayedAfter(c, rate, t)
    ensures k <= c <==> k * 1000000000 <= rate * t
  {
  }

  /**
   * How long a write takes to play out: `k` frames written to a fresh device at a positive rate
   * leave the delay at its floor exactly from ceil(k * 1000000000 / rate) nanoseconds on.
   */
  lemma WriteDrainsIn(h: Pcm, k: nat, ns: nat)
    requires Configured(h) && h.totalPushed == 0 && h.playStart.Unset? && h.rate > 0
    ensures Delay(Wait(Write(h, k), ns)) == 4096 <==> ns >= CeilDiv(k * 1000000000, h.rate)
  {
    var w := Wait(Write(h, k), ns);
    DivModUnique(0, h.frameBytes, 0, 0);
    DrainedWhenPlayed(w, k, ns);
    CeilDivIff(ns, k * 1000000000, h.rate);
    assert ns * h.rate == h.rate * ns;
  }

  lemma DrainedWhenPlayed(w: Pcm, k: nat, ns: nat)
    requires w.frameBytes > 0 && w.totalPushed == k * w.frameBytes && w.playStart.At? && w.now == w.playStart.t0 + ns
    ensures Delay(w) == 4096 <==> k * 1000000000 <= w.rate * ns
  {
    DivModUnique(w.totalPushed, w.frameBytes, k, 0);
    ConsumedIsElapsed(w);
    DelayIsBacklog(w, k, ConsumedFrames(w));
    PlayedReaches(ConsumedFrames(w), w.rate, ns, k);
  }

  /** A drop, or a reconnect, reports an empty device again. */
  lemma ResetReportsEmpty(h: Pcm)
    requires Configured(h)
    ensures Configured(Reset(h)) && Delay(Reset(h)) == 4096 && Avail(Reset(h)) == 4096
  {
    DivModUnique(0, h.frameBytes, 0, 0);
  }

  /** A fresh anchor has consumed nothing, as no anchor has. */
  lemma ConsumedAfterAnchor(h: Pcm)
    requires Configured(h)
    ensures Configured(Anchored(h)) && ConsumedFrames(Anchored(h)) == ConsumedFrames(h)
  {
    if h.playStart.Unset? {
      assert h.rate * 0 / NS_PER_SEC == 0;
    }
  }

  /** Time alone never raises the delay; a write of k frames raises it by at most k. */
  lemma DelayMovesSmoothly(h: Pcm, ns: nat, k: nat)
    requires Configured(h)
    ensures Delay(Wait(h, ns)) <= Delay(h)
    ensures Delay(h) <= Delay(Write(h, k)) <= Delay(h) + k
  {
    ConsumedGrows(h, ns);
    ConsumedAfterAnchor(h);
    PushedAfterCount(Anchored(h), k);
  }

  // ---------------------------------------------------------------- runs

  /** The handle, and the frames of a write that has started and is not yet counted. */
  datatype Device = Device(h: Pcm, writing: nat)

  /** The drain thread can reconnect, and the clock moves, in the middle of a write. */
  datatype Step = BeginWrite(k: nat) | FinishWrite | Elapse(ns: nat) | DropStream | Reconnect

  /** An application that never writes more than was reported free. */
  predicate Polite(d: Device, e: Step) {
    match e
    case BeginWrite(k) => d.writing == 0 && k <= Avail(d.h)
    case DropStream => d.writing == 0
    case _ => true
  }

  function Next(d: Device, e: Step): Device {
    match e
    case BeginWrite(k) => Device(Anchored(d.h), k)
    case FinishWrite => Device(Counted(d.h, d.writing), 0)
    case Elapse(ns) => d.(h := Wait(d.h, ns))
    case DropStream => d.(h := Reset(d.h))
    case Reconnect => d.(h := Reset(d.h))
  }

  ghost predicate PoliteRun(d: Device, steps: seq<Step>)
    decreases |steps|
  {
    steps == [] || (Polite(d, steps[0]) && PoliteRun(Next(d, steps[0]), steps[1..]))
  }

  function After(d: Device, steps: seq<Step>): Device
    decreases |steps|
  {
    if steps == [] then d else After(Next(d, steps[0]), steps[1..])
  }

  /** The backlog never exceeds what the device advertises beyond the server's share. */
  predicate Bounded(h: Pcm, writing: nat) {
    && Configured(h)
    && writing <= BUFFER_SIZE - SERVER_FRAMES
    && PushedFrames(h) + writing <= ConsumedFrames(h) + (BUFFER_SIZE - SERVER_FRAMES)
  }

  /** Between writes the bound says exactly that the clamp to the buffer size changes nothing. */
  lemma BoundedIffUnclamped(h: Pcm)
    requires Configured(h)
    ensures Bounded(h, 0) <==> Delay(h) == Max(PushedFrames(h) - ConsumedFrames(h), 0) + SERVER_FRAMES
  {
  }

  lemma StepKeepsBound(d: Device, e: Step)
    requires Bounded(d.h, d.writing) && Polite(d, e)
    ensures var t := Next(d, e); Bounded(t.h, t.writing)
  {
    match e
    case BeginWrite(k) => ConsumedAfterAnchor(d.h);
    case FinishWrite => PushedAfterCount(d.h, d.writing);
    case Elapse(ns) => ConsumedGrows(d.h, ns);
    case _ => DivModUnique(0, d.h.frameBytes, 0, 0);
  }

  /** In every polite run the backlog bound holds and the reported delay is the unclamped model. */
  lemma {:induction false} BacklogBound(d: Device, steps: seq<Step>)
    requires Bounded(d.h, d.writing) && PoliteRun(d, steps)
    ensures var t := After(d, steps);
            && Bounded(t.h, t.writing)
            && Delay(t.h) == Max(PushedFrames(t.h) - ConsumedFrames(t.h), 0) + SERVER_FRAMES
            && SERVER_FRAMES <= Delay(t.h) <= BUFFER_SIZE && 0 <= Avail(t.h) <= BUFFER_SIZE - SERVER_FRAMES
    decreases |steps|
  {
    if steps == [] {
      BoundedIffUnclamped(d.h);
    } else {
      StepKeepsBound(d, steps[0]);
      BacklogBound(Next(d, steps[0]), steps[1..]);
    }
  }

  // ---------------------------------------------------------------- prepare without drop

  /** A bare prepare keeps the bound exactly when no more than the shim's share had been pushed. */
  lemma PrepareKeepsBoundIff(h: Pcm)
    requires Configured(h)
    ensures Bounded(Prepare(h), 0) <==> PushedFrames(h) <= BUFFER_SIZE - SERVER_FRAMES
  {
  }

  function WaitAll(h: Pcm, ns: seq<nat>): Pcm
    decreases |ns|
  {
    if ns == [] then h else WaitAll(Wait(h, ns[0]), ns[1..])
  }

  lemma {:induction false} NothingConsumed(h: Pcm, ns: seq<nat>)
    requires h.playStart.Unset?
    ensures WaitAll(h, ns) == h.(now := WaitAll(h, ns).now)
    decreases |ns|
  {
    if ns != [] {
      NothingConsumed(Wait(h, ns[0]), ns[1..]);
    }
  }

  /**
   * Prepared after that much or more, the device is wedged: however long the application waits
   * for room, none is reported, since only a write would anchor the clock again.
   */
  lemma PrepareWedgesIff(h: Pcm, ns: seq<nat>)
    requires Configured(h)
    ensures Avail(WaitAll(Prepare(h), ns)) == 0 <==> PushedFrames(h) >= BUFFER_SIZE - SERVER_FRAMES
  {
    NothingConsumed(Prepare(h), ns);
  }

  /** A polite application gets there: fill the device once, then prepare without a drop. */
  lemma PoliteRunWedges(d: Device, ns: seq<nat>) returns (steps: seq<Step>)
    requires Configured(d.h) && d.h.totalPushed == 0 && d.h.playStart.Unset? && d.writing == 0
    ensures PoliteRun(d, steps) && After(d, steps).writing == 0
    ensures Avail(WaitAll(Prepare(After(d, steps).h), ns)) == 0
  {
    var k := BUFFER_SIZE - SERVER_FRAMES;
    DivModUnique(0, d.h.frameBytes, 0, 0);
    var a := Next(d, BeginWrite(k));
    var b := Next(a, FinishWrite);
    ConsumedAfterAnchor(d.h);
    PushedAfterCount(a.h, k);
    steps := [BeginWrite(k), FinishWrite];
    assert steps[1..] == [FinishWrite] && steps[1..][1..] == [];
    assert PoliteRun(a, [FinishWrite]) && After(a, [FinishWrite]) == b;
    PrepareWedgesIff(b.h, ns);
  }
}
