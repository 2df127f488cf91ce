/** The playback session of hda/src/lib.rs and the pacing of server/src/backend.rs. */
module Playback {
  import opened Bytes
  import opened Numbers
  import opened Dma
  import opened Laps

  /** SHIM_SERVER_FRAMES: the occupancy target both sides of the socket agree on. */
  const TARGET_FRAMES: nat := 4096

  /** The most bytes pacing leaves unplayed: the target, plus a DMA position inside a frame. */
  const CAP_BYTES: nat := 16387

  function DelayFramesOf(v: View): nat
    requires Mapped(v)
  {
    Reported(v) / FRAME_BYTES
  }

  /** Up to the pacing cap, far from a full ring, the report is true and at most the target. */
  lemma CappedReportsTruth(v: View)
    requires Mapped(v) && 0 <= Unplayed(v) <= CAP_BYTES
    ensures Reported(v) == Unplayed(v) && DelayFramesOf(v) <= TARGET_FRAMES
  {
    ReportedIsUnplayed(v);
  }

  /**
   * Writing no more frames than the target lacked when the delay was read keeps the cap, wherever
   * the DMA had been before that and has got to since.
   */
  lemma PacedWriteKeepsCap(v: View, read: nat, data: seq<byte>, pushed: seq<byte>)
    requires Mapped(v) && Remembers(v) && Unplayed(v) <= CAP_BYTES && LapsAdded(v.sent, pushed)
    requires DelayFramesOf(v) <= read && |data| <= (TARGET_FRAMES - read) * FRAME_BYTES
    ensures Mapped(CaughtUp(v)) && Accepted(CaughtUp(v), data) == |data|
    ensures var t := Written(CaughtUp(v), data);
            && Mapped(t) && Remembers(t) && Unplayed(t) == Reported(v) + |data| <= CAP_BYTES
            && t.sent == CaughtUp(v).sent + data && LapsAdded(t.sent, pushed + data)
            && (Unplayed(v) >= 0 ==> t.sent == v.sent + data)
  {
    DelayAndFree(v);
    CaughtUpIsExact(v);
    WriteAfterLaps(v, data, pushed);
  }

  /**
   * A DMA that has run `d` bytes past the writer reads as a nearly full ring: the mixer is held
   * off exactly until less than the target is left of the lap.
   */
  lemma OvertakenReadsFull(v: View, d: nat)
    requires Mapped(v) && Unplayed(v) + d == 0 && 0 < d < RING_SIZE
    ensures Reported(v) == RING_SIZE - d
    ensures DelayFramesOf(v) >= TARGET_FRAMES <==> d <= RING_SIZE - TARGET_FRAMES * FRAME_BYTES
  {
    ReportedIsUnplayed(v);
  }

  function Started(v: View, running: bool): View
    requires v.writePos <= |v.ring|
  {
    if running then v else Restarted(v)
  }

  /** What `k` bytes' worth of time does to a session. */
  function Elapsed(v: View, running: bool, k: nat): (t: View)
    requires Mapped(v)
    ensures Mapped(t)
  {
    FetchedIsMapped(v, k);
    if running then Fetched(v, k) else v
  }

  /** `push`: write again until everything is taken, with no regard to occupancy. */
  function PushAll(v: View, data: seq<byte>): (t: View)
    requires Mapped(v)
    ensures Mapped(t)
    decreases |data|
  {
    if data == [] then v
    else
      WrittenIsMapped(v, data);
      PushAll(Written(v, data), data[Accepted(v, data)..])
  }

  /** Data that fits in the free space goes out in one write. */
  lemma PushThatFits(v: View, data: seq<byte>)
    requires Mapped(v) && Accepted(v, data) == |data|
    ensures data != [] ==> PushAll(v, data) == Written(v, data)
  {
    if data != [] {
      WrittenIsMapped(v, data);
      assert data[|data|..] == [];
    }
  }

  lemma RestartOfSilence()
    ensures Restarted(Silent) == Silent
  {
    assert Silent.ring[..0] == [];
  }

  /**
   * At most the cap unplayed while it runs, perhaps less than nothing, and silent while it is
   * halted, as after an open or a drop.
   */
  predicate Sound(v: View, running: bool) {
    && Mapped(v) && Remembers(v) && Unplayed(v) <= CAP_BYTES
    && (!running ==> v == Silent)
  }

  /** Starting a sound session changes nothing the hardware plays. */
  lemma StartIsSilent(v: View, running: bool)
    requires Sound(v, running)
    ensures Started(v, running) == v && (DelayFramesOf(v) > 0 ==> running)
  {
    RestartOfSilence();
  }

  lemma StartedIsMapped(v: View, running: bool)
    requires Mapped(v)
    ensures Mapped(Started(v, running))
  {
  }

  /** `HdaPlayback` and the `Backend` facade over it, as one object. */
  class Backend {
    const stream: Stream
    var running: bool

    ghost function State(): View
      reads this, stream, stream.ring
    {
      stream.State()
    }

    constructor ()
      ensures fresh(stream) && fresh(stream.ring) && !running
      ensures Mapped(State()) && State() == Silent && Sound(State(), running)
    {
      stream := new Stream();
      running := false;
      new;
      SilentRemembers();
    }

    /** Begin DMA, resetting the descriptor first when it was halted. */
    method Start()
      requires Mapped(State())
      modifies this`running, stream`lpib, stream`sent, stream`played
      ensures running && Mapped(State()) && State() == Started(old(State()), old(running))
    {
      if !running {
        stream.Srst();
        running := true;
      }
    }

    method Play(data: seq<byte>) returns (n: nat)
      requires Mapped(State())
      modifies this`running, stream, stream.ring
      ensures running && Mapped(State())
      ensures var v := Started(old(State()), old(running));
              Mapped(v) && n == Accepted(v, data) && State() == Written(v, data)
    {
      Start();
      n := stream.Write(data);
    }

    method DelayFrames() returns (d: nat)
      requires Mapped(State())
      ensures d == DelayFramesOf(State())
    {
      var b := stream.DelayBytes();
      d := b / FRAME_BYTES;
    }

    method DropAll()
      requires Mapped(State())
      modifies this`running, stream, stream.ring
      ensures !running && Mapped(State()) && State() == Silent
    {
      stream.Drop();
      running := false;
    }

    /** Time passes: if it runs, the hardware plays `k` bytes, whether or not it has them. */
    method Elapse(k: nat)
      requires Sound(State(), running)
      modifies stream`lpib, stream`played
      ensures Sound(State(), running)
      ensures State() == if running then Fetched(old(State()), k) else old(State())
    {
      if running {
        stream.DmaAdvance(k);
      }
    }

    /** Halts the DMA and nothing else: the next start replays what lies below the write position. */
    method Stop()
      requires Mapped(State())
      modifies this`running
      ensures !running && State() == old(State())
    {
      running := false;
    }

    /**
     * No occupancy check: write until all is taken. The loop needs no back-off because a write
     * always takes something; data that leaves a free byte goes out in one write.
     */
    method Push(data: seq<byte>)
      requires Mapped(State())
      modifies this`running, stream, stream.ring
      ensures Mapped(State())
      ensures data == [] ==> State() == old(State()) && running == old(running)
      ensures data != [] ==> running && Mapped(Started(old(State()), old(running)))
      ensures data != [] ==> State() == PushAll(Started(old(State()), old(running)), data)
    {
      if data == [] {
        return;
      }
      var n := Play(data);
      var rest := data[n..];
      ghost var all := PushAll(State(), rest);
      while rest != []
        invariant running && Mapped(State()) && PushAll(State(), rest) == all
        decreases |rest|
      {
        n := Play(rest);
        rest := rest[n..];
      }
    }

    /** `stop_immediate`: it cannot fail. */
    method StopImmediate()
      requires Mapped(State())
      modifies this`running, stream, stream.ring
      ensures !running && Mapped(State()) && State() == Silent
    {
      DropAll();
    }

    /**
     * The file players' loop: top the ring up to the target, sleep while it is there. In turn `j`
     * the DMA plays `moves[j].0` bytes before the delay is read, past the writer if it comes to
     * that, and up to `moves[j].1` of what was read before the write; `used` counts the turns and
     * the call ends early only when they run out. `before` is what earlier calls have written;
     * `overrun` says whether a write found the DMA past the writer.
     */
    method PlayPaced(data: seq<byte>, moves: seq<(nat, nat)>, ghost before: seq<byte>)
      returns (off: nat, used: nat, ghost overrun: bool)
      requires Sound(State(), running) && LapsAdded(stream.sent, before)
      modifies this`running, stream, stream.ring
      ensures Sound(State(), running) && (off > 0 ==> running)
      ensures off <= |data| && LapsAdded(stream.sent, before + data[..off])
      ensures !overrun ==> stream.sent == old(stream.sent) + data[..off]
      ensures off < |data| ==> used == |moves|
    {
      off, used, overrun := 0, 0, false;
      ghost var sent := stream.sent;
      assert sent + data[..0] == sent;
      assert before + data[..0] == before;
      while off < |data| && used < |moves|
        invariant off <= |data| && used <= |moves| && Sound(State(), running) && (off > 0 ==> running)
        invariant LapsAdded(stream.sent, before + data[..off])
        invariant !overrun ==> stream.sent == sent + data[..off]
        decreases |moves| - used
      {
        var n, o := PaceOnce(data, off, moves[used].0, moves[used].1, before);
        Onward(sent, data, off, n);
        overrun := overrun || o;
        off := off + n;
        used := used + 1;
      }
    }

    /** One turn of that loop. */
    method PaceOnce(data: seq<byte>, off: nat, early: nat, late: nat, ghost before: seq<byte>)
      returns (n: nat, ghost overrun: bool)
      requires Sound(State(), running) && off < |data|
      requires LapsAdded(stream.sent, before + data[..off])
      modifies stream, stream.ring, this`running
      ensures Sound(State(), running) && running && n <= |data| - off
      ensures LapsAdded(stream.sent, before + data[..off + n])
      ensures !overrun ==> stream.sent == old(stream.sent) + data[off..off + n]
      ensures var delay := DelayFramesOf(Elapsed(old(State()), old(running), early));
              n == if delay >= 4096 then 0 else Min(|data| - off, 4 * (4096 - delay))
    {
      var delay := ReadDelay(early, late);
      if delay >= TARGET_FRAMES {
        n, overrun := 0, false;
      } else {
        n, overrun := TopUp(data, off, delay, before + data[..off]);
        Onward(before, data, off, n);
      }
    }

    /** Reads the delay while the DMA goes on: anywhere before, as far as was read after. */
    method ReadDelay(early: nat, late: nat) returns (delay: nat)
      requires Sound(State(), running)
      modifies stream`lpib, stream`played
      ensures Sound(State(), running) && stream.sent == old(stream.sent)
      ensures DelayFramesOf(State()) <= delay && (delay > 0 ==> running)
      ensures delay == DelayFramesOf(Elapsed(old(State()), old(running), early))
    {
      Elapse(early);
      delay := DelayFrames();
      StartIsSilent(State(), running);
      var reported := stream.DelayBytes();
      ReportedFalls(State(), Min(late, reported));
      Elapse(Min(late, reported));
    }

    /** Writes up to the target, which lacked `TARGET_FRAMES - delay` frames when it was read. */
    method TopUp(data: seq<byte>, off: nat, delay: nat, ghost pushed: seq<byte>)
      returns (n: nat, ghost overrun: bool)
      requires Sound(State(), running) && off < |data| && LapsAdded(stream.sent, pushed)
      requires DelayFramesOf(State()) <= delay < TARGET_FRAMES
      modifies this`running, stream, stream.ring
      ensures Sound(State(), running) && running
      ensures n == Min(|data| - off, (TARGET_FRAMES - delay) * FRAME_BYTES) > 0
      ensures LapsAdded(stream.sent, pushed + data[off..off + n])
      ensures overrun <==> old(Unplayed(State())) < 0
      ensures !overrun ==> stream.sent == old(stream.sent) + data[off..off + n]
    {
      overrun := Unplayed(State()) < 0;
      var want := Min(|data| - off, (TARGET_FRAMES - delay) * FRAME_BYTES);
      n := PlayAll(data[off..off + want], delay, pushed);
    }

    /** A paced write: all of it is taken, at the end of what the hardware will play. */
    method PlayAll(part: seq<byte>, ghost read: nat, ghost pushed: seq<byte>) returns (n: nat)
      requires Sound(State(), running) && LapsAdded(stream.sent, pushed)
      requires DelayFramesOf(State()) <= read && |part| <= (TARGET_FRAMES - read) * FRAME_BYTES
      modifies this`running, stream, stream.ring
      ensures Sound(State(), running) && running && n == |part|
      ensures LapsAdded(stream.sent, pushed + part)
      ensures old(Unplayed(State())) >= 0 ==> stream.sent == old(stream.sent) + part
    {
      StartIsSilent(State(), running);
      PacedWriteKeepsCap(State(), read, part, pushed);
      if running {
        stream.CountLaps();
      }
      n := Play(part);
    }
  }

  lemma Onward(before: seq<byte>, data: seq<byte>, off: nat, n: nat)
    requires off + n <= |data|
    ensures (before + data[..off]) + data[off..off + n] == before + data[..off + n]
  {
  }
}
