/**
 * The mixer loop of server/src/mixer.rs over whole runs: pacing, flush and idle stop, against a
 * DMA engine that moves whenever it likes and as far as it likes, also past the writer and also
 * between the loop's reading of the delay and its push.
 */
module MixLoop {
  import opened Bytes
  import opened Numbers
  import opened Dma
  import opened Playback
  import opened Mixer

  const IDLE_MS: nat := 250

  datatype Timer = Unarmed | Armed(since: nat)

  /** Between the delay read and the push, the chunk that is on its way. */
  datatype Due = Nothing | Chunk(data: seq<byte>)

  /**
   * From one stop to the next: what was pushed, what the ring made of it (`stream`, which repeats
   * a lap where a push came after the DMA had run out), what the hardware fetched, and whether a
   * flush ended it.
   */
  datatype Epoch = Epoch(pushed: seq<byte>, stream: seq<byte>, heard: seq<byte>, flushed: bool)

  datatype State = State(
    view: View,            // the backend's ring; `view.sent` is this epoch's stream
    running: bool,
    stopped: bool,
    dry: Timer,
    due: Due,
    // what has happened
    pushed: seq<byte>,     // since the last stop
    heard: seq<byte>,      // fetched since the last stop
    ran: nat,              // bytes fetched since the dry timer was armed
    past: seq<Epoch>)

  const Boot: State := State(Silent, false, false, Unarmed, Nothing, [], [], 0, [])

  /**
   * What one pass of the loop observes: the clock, whether some stream asked for a flush, the
   * rings after the flush and again at the watchdog, and whether the pops returned anything.
   * `mixed` is a full chunk of mixed output, of which the paced part is pushed.
   */
  datatype Tick = Tick(
    now: nat, flushed: bool, emptyAfterFlush: bool, noStreams: bool, anyData: bool, hadData: bool,
    mixed: seq<byte>)

  predicate ValidTick(t: Tick) {
    |t.mixed| == CHUNK_FRAMES * 4
  }

  datatype Event = Stop | Push

  function Stopped(s: State, flushed: bool): State {
    s.(view := Silent, running := false, stopped := true, pushed := [], heard := [],
       past := s.past + [Epoch(s.pushed, s.view.sent, s.heard, flushed)])
  }

  function AfterFlush(s: State, t: Tick): State {
    if !t.flushed then s
    else (if t.emptyAfterFlush && !s.stopped then Stopped(s, true) else s).(dry := Unarmed)
  }

  function IdleStop(s: State, now: nat): State {
    if s.stopped then s
    else
      var since := if s.dry.Armed? then s.dry.since else now;
      if now - since < IDLE_MS then
        s.(dry := Armed(since), ran := if s.dry.Armed? then s.ran else 0)
      else Stopped(s, false).(dry := Unarmed)
  }

  function Writable(s: State): (w: nat)
    requires Mapped(s.view)
    ensures w <= CHUNK_FRAMES
  {
    Clamp(TARGET_FRAMES - DelayFramesOf(s.view), 0, CHUNK_FRAMES)
  }

  function Payload(s: State, t: Tick): (data: seq<byte>)
    requires Mapped(s.view) && ValidTick(t)
    ensures |data| == Writable(s) * 4
  {
    t.mixed[..Writable(s) * 4]
  }

  predicate Dry(t: Tick) {
    t.noStreams || !t.anyData
  }

  /** The delay is read and the streams are popped and mixed. */
  function Mix(s: State, t: Tick): State
    requires Mapped(s.view) && ValidTick(t)
  {
    if Writable(s) == 0 || !t.hadData then s else s.(due := Chunk(Payload(s, t)))
  }

  /** A pass up to the push. */
  function Begin(s: State, t: Tick): State
    requires Mapped(s.view) && ValidTick(t)
  {
    var f := AfterFlush(s, t);
    if Dry(t) then IdleStop(f, t.now) else Mix(f.(dry := Unarmed), t)
  }

  /** The push. */
  function Finish(s: State): State
    requires Mapped(s.view) && s.due.Chunk?
  {
    StartedIsMapped(s.view, s.running);
    CaughtUpIsMapped(Started(s.view, s.running));
    s.(view := PushAll(CaughtUp(Started(s.view, s.running)), s.due.data),
       running := true, stopped := false, due := Nothing, pushed := s.pushed + s.due.data)
  }

  /** The hardware fetches `k` bytes. */
  function Played(s: State, k: nat): State
    requires Mapped(s.view)
  {
    s.(view := Fetched(s.view, k), heard := s.heard + NextBytes(s.view, k), ran := s.ran + k)
  }

  // ---------------------------------------------------------------- the loop's code

  /** `mix_loop`'s own variables; `due` is its output buffer while a push is due. */
  class Loop {
    const backend: Backend
    var dry: Timer
    var stopped: bool
    var due: Due
    ghost var pushed: seq<byte>
    ghost var heard: seq<byte>
    ghost var ran: nat
    ghost var past: seq<Epoch>

    ghost function Here(): State
      reads this, backend, backend.stream, backend.stream.ring
    {
      State(backend.State(), backend.running, stopped, dry, due, pushed, heard, ran, past)
    }

    constructor ()
      ensures fresh(backend) && fresh(backend.stream) && fresh(backend.stream.ring)
      ensures Mapped(Here().view) && Here() == Boot
    {
      backend := new Backend();
      dry, stopped, due := Unarmed, false, Nothing;
      pushed, heard, ran, past := [], [], 0, [];
    }

    method Halt(ghost flushed: bool)
      requires Mapped(backend.State())
      modifies this`stopped, this`pushed, this`heard, this`past
      modifies backend`running, backend.stream, backend.stream.ring
      ensures Mapped(backend.State()) && Here() == Stopped(old(Here()), flushed)
    {
      past := past + [Epoch(pushed, backend.stream.sent, heard, flushed)];
      backend.StopImmediate();
      stopped, pushed, heard := true, [], [];
    }

    method TryIdleStop(now: nat)
      requires Mapped(backend.State())
      modifies this, backend`running, backend.stream, backend.stream.ring
      ensures Mapped(backend.State()) && Here() == IdleStop(old(Here()), now)
    {
      if stopped {
        return;
      }
      if dry.Unarmed? {
        dry, ran := Armed(now), 0;
      }
      if now - dry.since < IDLE_MS {
        return;
      }
      Halt(false);
      dry := Unarmed;
    }

    method Flush(t: Tick)
      requires Mapped(backend.State())
      modifies this, backend`running, backend.stream, backend.stream.ring
      ensures Mapped(backend.State()) && Here() == AfterFlush(old(Here()), t)
    {
      if t.flushed {
        if t.emptyAfterFlush && !stopped {
          Halt(true);
        }
        dry := Unarmed;
      }
    }

    method MixOnce(t: Tick)
      requires Mapped(backend.State()) && ValidTick(t)
      modifies this`due
      ensures Here() == Mix(old(Here()), t)
    {
      var delay := backend.DelayFrames();
      var writable := Clamp(TARGET_FRAMES - delay, 0, CHUNK_FRAMES);
      if writable == 0 || !t.hadData {
        return;
      }
      due := Chunk(t.mixed[..writable * 4]);
    }

    /** A pass up to the push; the hardware may move before `HandOver`. */
    method BeginPass(t: Tick)
      requires Mapped(backend.State()) && ValidTick(t)
      modifies this, backend`running, backend.stream, backend.stream.ring
      ensures Mapped(backend.State()) && Here() == Begin(old(Here()), t)
    {
      Flush(t);
      if t.noStreams {
        TryIdleStop(t.now);
        return;
      }
      if !t.anyData {
        TryIdleStop(t.now);
        return;
      }
      dry := Unarmed;
      MixOnce(t);
    }

    /** The push that ends a pass. */
    method HandOver()
      requires Mapped(backend.State()) && due.Chunk? && due.data != []
      modifies this`stopped, this`due, this`pushed, backend`running, backend.stream, backend.stream.ring
      ensures Mapped(backend.State()) && Here() == Finish(old(Here()))
    {
      stopped := false;
      pushed := pushed + due.data;
      CaughtUpIsMapped(Started(backend.State(), backend.running));
      if backend.running {
        backend.stream.CountLaps();
      }
      backend.Push(due.data);
      due := Nothing;
    }

    /** The hardware's step. */
    method DmaPlays(k: nat)
      requires Mapped(backend.State())
      modifies this`heard, this`ran, backend.stream`lpib, backend.stream`played
      ensures Mapped(backend.State()) && Here() == Played(old(Here()), k)
    {
      heard, ran := heard + NextBytes(backend.State(), k), ran + k;
      backend.stream.DmaAdvance(k);
    }
  }

  // ---------------------------------------------------------------- what one pass does

  /**
   * With data waiting and something popped, a pass makes due exactly what the target of 4096 frames
   * lacks, at most 1024 frames; at the target it makes nothing due.
   */
  lemma PassTakesWhatLacks(s: State, t: Tick)
    requires Mapped(s.view) && ValidTick(t) && !Dry(t) && t.hadData && s.due.Nothing?
    ensures var d, due := DelayFramesOf(AfterFlush(s, t).view), Begin(s, t).due;
            && (d >= 4096 ==> due.Nothing?)
            && (3072 < d < 4096 ==> due.Chunk? && |due.data| == 4 * (4096 - d))
            && (d <= 3072 ==> due.Chunk? && |due.data| == 4 * 1024)
            && (due.Chunk? ==> due.data <= t.mixed)
  {
  }

  /** A flush that leaves every ring empty halts the stream; any flush starts the idle time anew. */
  lemma FlushHalts(s: State, t: Tick)
    requires Mapped(s.view) && ValidTick(t) && t.flushed
    ensures t.emptyAfterFlush ==> AfterFlush(s, t).stopped
    ensures !t.emptyAfterFlush ==> AfterFlush(s, t).stopped == s.stopped && AfterFlush(s, t).view == s.view
    ensures Begin(s, t).dry.Armed? ==> Dry(t) && Begin(s, t).dry.since == t.now
  {
  }

  /** Without a flush a pass stops the stream only when it is dry and was found dry 250 ms before. */
  lemma OnlyIdleStops(s: State, t: Tick)
    requires Mapped(s.view) && ValidTick(t) && !t.flushed && !s.stopped && Begin(s, t).stopped
    ensures Dry(t) && s.dry.Armed? && t.now >= s.dry.since + 250
  {
  }

  // ---------------------------------------------------------------- runs

  datatype Act = LoopPass(t: Tick) | LoopPush | DmaPlays(k: nat)

  /** Nothing limits the DMA: a running stream plays on whether or not there is anything to play. */
  predicate Enabled(s: State, a: Act) {
    && Mapped(s.view)
    && match a
       case LoopPass(t) => s.due.Nothing? && ValidTick(t)
       case LoopPush => s.due.Chunk?
       case DmaPlays(k) => s.running
  }

  function After(s: State, a: Act): State
    requires Enabled(s, a)
  {
    match a
    case LoopPass(t) => Begin(s, t)
    case LoopPush => Finish(s)
    case DmaPlays(k) => Played(s, k)
  }

  ghost predicate Run(s: State, acts: seq<Act>)
    decreases |acts|
  {
    acts == [] || (Enabled(s, acts[0]) && Run(After(s, acts[0]), acts[1..]))
  }

  ghost function End(s: State, acts: seq<Act>): State
    requires Run(s, acts)
    decreases |acts|
  {
    if acts == [] then s else End(After(s, acts[0]), acts[1..])
  }

  // ---------------------------------------------------------------- stopped means silent

  /** A stream that is not running is silent at the start of its ring; a stopped one is not running. */
  predicate Settled(s: State) {
    && Mapped(s.view)
    && (!s.running ==> s.view == Silent && s.pushed == [] && s.heard == [])
    && (s.stopped ==> !s.running)
    && (s.due.Chunk? ==> s.due.data != [] && s.dry.Unarmed?)
  }

  lemma ActKeepsSettled(s: State, a: Act)
    requires Settled(s) && Enabled(s, a)
    ensures Settled(After(s, a))
  {
    if a.DmaPlays? {
      FetchedIsMapped(s.view, a.k);
    }
  }

  /**
   * In every run, whatever the DMA does: stopped implies halted, with the write position 0 and the
   * ring zeroed.
   */
  lemma {:induction false} StoppedIsSilent(s: State, acts: seq<Act>)
    requires Settled(s) && Run(s, acts)
    ensures var e := End(s, acts);
            && Settled(e)
            && (e.stopped ==> !e.running && e.view.writePos == 0 && e.view.ring == Zeros(RING_SIZE))
    decreases |acts|
  {
    if acts != [] {
      ActKeepsSettled(s, acts[0]);
      StoppedIsSilent(After(s, acts[0]), acts[1..]);
    }
  }

  // ---------------------------------------------------------------- stops

  function ActEvents(s: State, a: Act): seq<Event>
    requires Enabled(s, a)
  {
    match a
    case LoopPass(t) =>
      var f := AfterFlush(s, t);
      (if f.stopped && !s.stopped then [Stop] else [])
      + (if Dry(t) && IdleStop(f, t.now).stopped && !f.stopped then [Stop] else [])
    case LoopPush => [Push]
    case DmaPlays(_) => []
  }

  ghost function Events(s: State, acts: seq<Act>): seq<Event>
    requires Run(s, acts)
    decreases |acts|
  {
    if acts == [] then [] else ActEvents(s, acts[0]) + Events(After(s, acts[0]), acts[1..])
  }

  /** Reading left to right, a stop is allowed only when the stream is not already stopped. */
  predicate Alternating(ev: seq<Event>, stopped: bool)
    decreases |ev|
  {
    ev == [] || (if ev[0] == Stop then !stopped && Alternating(ev[1..], true) else Alternating(ev[1..], false))
  }

  lemma {:induction false} AlternatingConcat(a: seq<Event>, b: seq<Event>, stopped: bool, mid: bool)
    requires Alternating(a, stopped) && Alternating(b, mid)
    requires mid == if a == [] then stopped else a[|a| - 1] == Stop
    ensures Alternating(a + b, stopped)
    decreases |a|
  {
    if a == [] {
      assert a + b == b;
    } else {
      assert (a + b)[1..] == a[1..] + b;
      AlternatingConcat(a[1..], b, a[0] == Stop, mid);
    }
  }

  lemma ActAlternates(s: State, a: Act)
    requires Enabled(s, a)
    ensures var ev := ActEvents(s, a);
            Alternating(ev, s.stopped) && After(s, a).stopped == if ev == [] then s.stopped else ev[|ev| - 1] == Stop
  {
  }

  lemma {:induction false} RunAlternates(s: State, acts: seq<Act>)
    requires Run(s, acts)
    ensures Alternating(Events(s, acts), s.stopped)
    decreases |acts|
  {
    if acts != [] {
      var s' := After(s, acts[0]);
      RunAlternates(s', acts[1..]);
      ActAlternates(s, acts[0]);
      AlternatingConcat(ActEvents(s, acts[0]), Events(s', acts[1..]), s.stopped, s'.stopped);
    }
  }

  lemma {:induction false} PushBetween(ev: seq<Event>, stopped: bool, i: int, j: nat) returns (k: nat)
    requires Alternating(ev, stopped) && -1 <= i < j < |ev| && ev[j] == Stop
    requires if i == -1 then stopped else ev[i] == Stop
    ensures i < k < j && ev[k] == Push
    decreases |ev|
  {
    if i >= 0 {
      k := PushBetween(ev[1..], ev[0] == Stop, i - 1, j - 1);
      k := k + 1;
    } else if ev[0] == Push {
      k := 0;
    } else {
      assert false;
    }
  }

  /** Sticky stop: in every run two stops have a push of data between them. */
  lemma StopsAreSeparated(s: State, acts: seq<Act>, i: nat, j: nat)
    requires Run(s, acts) && i < j < |Events(s, acts)|
    requires Events(s, acts)[i] == Stop && Events(s, acts)[j] == Stop
    ensures exists k :: i < k < j && Events(s, acts)[k] == Push
  {
    RunAlternates(s, acts);
    var k := PushBetween(Events(s, acts), s.stopped, i, j);
  }

  // ---------------------------------------------------------------- the idle watchdog

  /** Every pass is dry, and none flushes. */
  predicate Quiet(acts: seq<Act>) {
    forall i :: 0 <= i < |acts| && acts[i].LoopPass? ==> Dry(acts[i].t) && !acts[i].t.flushed
  }

  /**
   * What an armed timer stands for: every pass since it was armed was dry and unflushed, and it was
   * armed by a dry pass of the run at that time, unless it was armed all along.
   */
  lemma {:induction false} ArmedSince(s: State, acts: seq<Act>) returns (i: int)
    requires Run(s, acts) && End(s, acts).dry.Armed?
    ensures -1 <= i < |acts|
    ensures Quiet(acts[i + 1..])
    ensures i == -1 ==> End(s, acts).dry == s.dry
    ensures i >= 0 ==> acts[i].LoopPass? && Dry(acts[i].t) && End(s, acts).dry.since == acts[i].t.now
    decreases |acts|
  {
    i := -1;
    if acts != [] {
      var s', rest := After(s, acts[0]), acts[1..];
      var k := ArmedSince(s', rest);
      if k >= 0 {
        i := k + 1;
        assert acts[i + 1..] == rest[k + 1..];
      } else if acts[0].LoopPass? && (s'.dry != s.dry || acts[0].t.flushed) {
        i := 0;
        assert acts[1..] == rest[0..];
      } else {
        assert rest[0..] == rest && acts[0..] == acts;
        forall j | 0 <= j < |acts| && acts[j].LoopPass? ensures Dry(acts[j].t) && !acts[j].t.flushed {
          assert j > 0 ==> acts[j] == rest[j - 1];
        }
      }
    }
  }

  /**
   * The watchdog never fires early: an unflushed pass that stops the stream was preceded, at least
   * 250 ms before, by a dry pass, with every pass in between dry and unflushed.
   */
  lemma WatchdogIsPatient(s: State, acts: seq<Act>, t: Tick) returns (i: nat)
    requires Run(s, acts) && s.dry.Unarmed?
    requires Enabled(End(s, acts), LoopPass(t)) && !t.flushed && !End(s, acts).stopped && Begin(End(s, acts), t).stopped
    ensures i < |acts| && acts[i].LoopPass? && Dry(acts[i].t) && t.now >= acts[i].t.now + 250
    ensures Quiet(acts[i + 1..]) && Dry(t)
  {
    OnlyIdleStops(End(s, acts), t);
    var k := ArmedSince(s, acts);
    i := k;
  }

  /** Every pass sees dry rings, and a flush among them finds every ring empty. */
  predicate AllDry(acts: seq<Act>) {
    forall i :: 0 <= i < |acts| && acts[i].LoopPass? ==>
      Dry(acts[i].t) && (acts[i].t.flushed ==> acts[i].t.emptyAfterFlush)
  }

  predicate StoppedOrArmed(s: State, since: nat) {
    s.stopped || (s.dry.Armed? && s.dry.since <= since)
  }

  lemma DryPass(s: State, t: Tick, since: nat)
    requires Mapped(s.view) && ValidTick(t) && Dry(t) && (t.flushed ==> t.emptyAfterFlush) && since <= t.now
    requires StoppedOrArmed(s, since) || since == t.now
    requires !s.stopped && s.dry.Armed? ==> s.dry.since <= t.now
    ensures StoppedOrArmed(Begin(s, t), since) && Begin(s, t).due == s.due
    ensures t.now >= since + IDLE_MS ==> Begin(s, t).stopped
  {
  }

  lemma {:induction false} DryStretchStops(s: State, acts: seq<Act>, since: nat, last: nat)
    requires Run(s, acts) && AllDry(acts) && s.due.Nothing? && StoppedOrArmed(s, since)
    requires forall i :: 0 <= i < |acts| && acts[i].LoopPass? ==> acts[i].t.now >= since
    requires last < |acts| && acts[last].LoopPass? && acts[last].t.now >= since + IDLE_MS
    ensures End(s, acts).stopped
    decreases |acts|
  {
    var s', rest := After(s, acts[0]), acts[1..];
    if acts[0].LoopPass? {
      DryPass(s, acts[0].t, since);
    }
    if last == 0 {
      StaysStopped(s', rest);
    } else {
      DryStretchStops(s', rest, since, last - 1);
    }
  }

  lemma {:induction false} StaysStopped(s: State, acts: seq<Act>)
    requires Run(s, acts) && AllDry(acts) && s.due.Nothing? && s.stopped
    ensures End(s, acts).stopped
    decreases |acts|
  {
    if acts != [] {
      StaysStopped(After(s, acts[0]), acts[1..]);
    }
  }

  /**
   * A dry stretch that begins with a pass at some time and reaches a pass at least IDLE_MS later
   * ends stopped, with or without flushes on the way, and however far the DMA runs past the writer
   * meanwhile.
   */
  lemma IdleWatchdogFires(s: State, first: Tick, acts: seq<Act>, last: nat)
    requires Run(s, [LoopPass(first)] + acts) && AllDry([LoopPass(first)] + acts)
    requires s.dry.Armed? ==> s.dry.since <= first.now
    requires forall i :: 0 <= i < |acts| && acts[i].LoopPass? ==> acts[i].t.now >= first.now
    requires last < |acts| && acts[last].LoopPass? && acts[last].t.now >= first.now + 250
    ensures End(s, [LoopPass(first)] + acts).stopped
  {
    var all := [LoopPass(first)] + acts;
    assert all[0] == LoopPass(first) && all[1..] == acts;
    assert AllDry(acts) by {
      forall i | 0 <= i < |acts| && acts[i].LoopPass?
        ensures Dry(acts[i].t) && (acts[i].t.flushed ==> acts[i].t.emptyAfterFlush)
      {
        assert all[i + 1] == acts[i];
      }
    }
    DryPass(s, first, first.now);
    DryStretchStops(Begin(s, first), acts, first.now, last);
  }
}
