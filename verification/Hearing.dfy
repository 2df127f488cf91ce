/**
 * What the hardware plays over whole runs of the mixer loop (server/src/mixer.rs,
 * hda/src/stream.rs): every byte fetched, also while the DMA is past the writer.
 */
module Hearing {
  import opened Bytes
  import opened Numbers
  import opened Dma
  import opened Laps
  import opened Playback
  import opened MixLoop

  // ---------------------------------------------------------------- every fetched byte

  /** What the hardware fetched follows the stream, and the stream is what was pushed plus laps. */
  predicate FollowsEpoch(e: Epoch) {
    LapsAdded(e.stream, e.pushed) && e.heard <= CatchUp(e.stream, |e.heard|)
  }

  predicate Follows(s: State) {
    && Settled(s)
    && Remembers(s.view) && Unplayed(s.view) < RING_SIZE
    && |s.heard| == s.view.played
    && FollowsEpoch(Epoch(s.pushed, s.view.sent, s.heard, false))
    && forall i :: 0 <= i < |s.past| ==> FollowsEpoch(s.past[i])
  }

  /** The push finds more free space than it needs, by the loop's own measure. */
  predicate HasRoom(s: State, a: Act)
    requires Enabled(s, a)
  {
    a.LoopPush? ==> |s.due.data| < FreeOf(s.view.writePos, s.view.rd)
  }

  lemma StopFollows(s: State, flushed: bool)
    requires Follows(s)
    ensures Follows(Stopped(s, flushed).(dry := Unarmed, due := Nothing))
  {
    SilentRemembers();
    assert CatchUp([], 0) == [];
    assert LapsAdded([], []);
    assert FollowsEpoch(Epoch(s.pushed, s.view.sent, s.heard, flushed));
  }

  /** A push with room appends to the caught-up stream and leaves what was heard behind it. */
  lemma PushFollows(v: View, heard: seq<byte>, pushed: seq<byte>, data: seq<byte>)
    requires Mapped(v) && Remembers(v) && Unplayed(v) < RING_SIZE
    requires heard <= CatchUp(v.sent, v.played) && LapsAdded(v.sent, pushed)
    requires |data| < FreeOf(v.writePos, v.rd)
    ensures Mapped(CaughtUp(v))
    ensures var t := PushAll(CaughtUp(v), data);
            && Remembers(t) && t.sent == CaughtUp(v).sent + data && t.played == v.played
            && Unplayed(t) == Reported(v) + |data| < RING_SIZE
            && heard <= CatchUp(t.sent, t.played) && LapsAdded(t.sent, pushed + data)
  {
    var c := CaughtUp(v);
    WriteAfterLaps(v, data, pushed);
    if data == [] {
      assert c.sent + data == c.sent && pushed + data == pushed;
    } else {
      PushThatFits(c, data);
    }
  }

  lemma ActFollows(s: State, a: Act)
    requires Follows(s) && Enabled(s, a) && HasRoom(s, a)
    ensures Follows(After(s, a))
  {
    ActKeepsSettled(s, a);
    match a
    case LoopPass(t) => PassFollows(s, t);
    case LoopPush =>
      RestartOfSilence();
      PushFollows(s.view, s.heard, s.pushed, s.due.data);
    case DmaPlays(k) =>
      FetchFollows(s.view, k, s.heard);
  }

  lemma PassFollows(s: State, t: Tick)
    requires Follows(s) && Enabled(s, LoopPass(t))
    ensures Follows(Begin(s, t))
  {
    StopFollows(s, true);
    StopFollows(AfterFlush(s, t), false);
  }

  // ---------------------------------------------------------------- the cap

  /** Never more unplayed than the cap, now and after the push that is due. */
  predicate Paced(s: State)
    requires Mapped(s.view)
  {
    && Unplayed(s.view) <= CAP_BYTES
    && (s.due.Chunk? ==> Reported(s.view) + |s.due.data| <= CAP_BYTES)
    && (s.dry.Armed? ==> Unplayed(s.view) + s.ran <= CAP_BYTES)
  }

  /** The DMA plays no more than the reported delay between its reading and the push. */
  predicate Prompt(s: State, a: Act)
    requires Enabled(s, a)
  {
    a.DmaPlays? && s.due.Chunk? ==> a.k <= Reported(s.view)
  }

  lemma PassPaced(s: State, t: Tick)
    requires Settled(s) && Paced(s) && Enabled(s, LoopPass(t))
    ensures Mapped(Begin(s, t).view) && Paced(Begin(s, t))
  {
  }

  lemma PushPaced(s: State)
    requires Follows(s) && Paced(s) && Enabled(s, LoopPush)
    ensures HasRoom(s, LoopPush) && Mapped(Finish(s).view) && Paced(Finish(s))
  {
    DelayAndFree(s.view);
    RestartOfSilence();
    PushFollows(s.view, s.heard, s.pushed, s.due.data);
  }

  lemma PlayPaced(s: State, k: nat)
    requires Settled(s) && Paced(s) && Enabled(s, DmaPlays(k)) && Prompt(s, DmaPlays(k))
    ensures Mapped(Played(s, k).view) && Paced(Played(s, k))
  {
    FetchedIsMapped(s.view, k);
    if s.due.Chunk? {
      ReportedFalls(s.view, k);
    }
  }

  lemma ActPaced(s: State, a: Act)
    requires Follows(s) && Paced(s) && Enabled(s, a) && Prompt(s, a)
    ensures HasRoom(s, a) && Follows(After(s, a)) && Paced(After(s, a))
  {
    match a {
      case LoopPass(t) => PassPaced(s, t);
      case LoopPush => PushPaced(s);
      case DmaPlays(k) => PlayPaced(s, k);
    }
    ActFollows(s, a);
  }

  // ---------------------------------------------------------------- runs

  ghost predicate RoomyRun(s: State, acts: seq<Act>)
    decreases |acts|
  {
    acts == [] || (Enabled(s, acts[0]) && HasRoom(s, acts[0]) && RoomyRun(After(s, acts[0]), acts[1..]))
  }

  ghost predicate PromptRun(s: State, acts: seq<Act>)
    decreases |acts|
  {
    acts == [] || (Enabled(s, acts[0]) && Prompt(s, acts[0]) && PromptRun(After(s, acts[0]), acts[1..]))
  }

  lemma {:induction false} RoomyIsRun(s: State, acts: seq<Act>)
    requires RoomyRun(s, acts)
    ensures Run(s, acts)
    decreases |acts|
  {
    if acts != [] {
      RoomyIsRun(After(s, acts[0]), acts[1..]);
    }
  }

  lemma {:induction false} PromptIsRun(s: State, acts: seq<Act>)
    requires PromptRun(s, acts)
    ensures Run(s, acts)
    decreases |acts|
  {
    if acts != [] {
      PromptIsRun(After(s, acts[0]), acts[1..]);
    }
  }

  /**
   * Every byte the hardware fetches, in every run whose pushes find room: in each epoch, what was
   * heard follows what was pushed, with nothing put in but repeats of the last lap, and goes on
   * into such repeats where the stream has run out. No matter how far the DMA runs past the writer.
   */
  lemma {:induction false} EveryByteHeard(s: State, acts: seq<Act>)
    requires Follows(s) && RoomyRun(s, acts)
    ensures Run(s, acts) && Follows(End(s, acts))
    decreases |acts|
  {
    RoomyIsRun(s, acts);
    if acts != [] {
      ActFollows(s, acts[0]);
      EveryByteHeard(After(s, acts[0]), acts[1..]);
    }
  }

  /**
   * The occupancy cap, in every run where the DMA plays no more than the delay that was read before
   * the push comes: never more than the cap is unplayed, the reported delay is true and at most the
   * target whenever the DMA is not past the writer, the ring then holds the unplayed bytes intact,
   * and every push has room.
   */
  lemma {:induction false} EveryRun(s: State, acts: seq<Act>)
    requires Follows(s) && Paced(s) && PromptRun(s, acts)
    ensures Run(s, acts) && RoomyRun(s, acts)
    ensures var e := End(s, acts);
            && Follows(e) && Paced(e)
            && Reported(e.view) == Unplayed(CaughtUp(e.view))
            && (Unplayed(e.view) >= 0 ==>
                  Reported(e.view) == Unplayed(e.view) <= CAP_BYTES
                  && DelayFramesOf(e.view) <= TARGET_FRAMES && Window(e.view))
    decreases |acts|
  {
    if acts == [] {
      CaughtUpIsExact(s.view);
      if Unplayed(s.view) >= 0 {
        RememberedIsWindow(s.view);
      }
    } else {
      ActPaced(s, acts[0]);
      EveryRun(After(s, acts[0]), acts[1..]);
    }
  }

  lemma BootFollows()
    ensures Follows(Boot) && Paced(Boot)
  {
    SilentRemembers();
    assert CatchUp([], 0) == [];
    assert LapsAdded([], []);
  }

  /** From boot on, the byte the hardware will fetch at any place not yet played is the stream's. */
  lemma HardwarePlaysWhatWasPushed(acts: seq<Act>, mem: map<nat, byte>, list: seq<byte>, phys: seq<nat>, iocLast: bool, i: nat)
    requires PromptRun(Boot, acts) && Run(Boot, acts)
    requires var e := End(Boot, acts);
             e.view.played <= i < |e.view.sent| && Backs(mem, phys, e.view.ring)
    requires Describes(list, phys, RING_PAGES, iocLast)
    ensures FetchAddress(list, RING_PAGES, i) in mem
    ensures mem[FetchAddress(list, RING_PAGES, i)] == End(Boot, acts).view.sent[i]
    ensures LapsAdded(End(Boot, acts).view.sent, End(Boot, acts).pushed)
  {
    BootFollows();
    EveryRun(Boot, acts);
    HardwarePlaysTheStream(End(Boot, acts).view, mem, list, phys, iocLast, i);
  }

  // ---------------------------------------------------------------- the DMA never past the writer

  ghost predicate TrackedRun(s: State, acts: seq<Act>)
    decreases |acts|
  {
    acts == [] || (Enabled(s, acts[0]) && Tracked(s, acts[0]) && TrackedRun(After(s, acts[0]), acts[1..]))
  }

  predicate Tracked(s: State, a: Act) {
    a.DmaPlays? ==> a.k <= Unplayed(s.view)
  }

  /** Then there are no laps, and what was heard is what was pushed, as far as it was played. */
  predicate Exact(s: State) {
    && Unplayed(s.view) >= 0
    && s.view.sent == s.pushed
    && s.heard == s.pushed[..s.view.played]
    && forall i :: 0 <= i < |s.past| ==> s.past[i].stream == s.past[i].pushed && s.past[i].heard <= s.past[i].pushed
  }

  lemma PassExact(s: State, t: Tick)
    requires Settled(s) && Enabled(s, LoopPass(t)) && Exact(s)
    ensures Exact(Begin(s, t))
  {
    StopExact(s, true);
    StopExact(AfterFlush(s, t), false);
  }

  lemma StopExact(s: State, flushed: bool)
    requires Exact(s)
    ensures Exact(Stopped(s, flushed))
  {
  }

  lemma PushExact(s: State)
    requires Follows(s) && Enabled(s, LoopPush) && HasRoom(s, LoopPush) && Exact(s)
    ensures Exact(Finish(s))
  {
    CaughtUpIsExact(s.view);
    RestartOfSilence();
    PushFollows(s.view, s.heard, s.pushed, s.due.data);
    assert (s.pushed + s.due.data)[..s.view.played] == s.pushed[..s.view.played];
  }

  lemma PlayExact(s: State, k: nat)
    requires Follows(s) && Enabled(s, DmaPlays(k)) && Tracked(s, DmaPlays(k)) && Exact(s)
    ensures Exact(Played(s, k))
  {
    FetchFollows(s.view, k, s.heard);
    assert CatchUp(s.view.sent, s.view.played + k) == s.view.sent;
  }

  lemma ActExact(s: State, a: Act)
    requires Follows(s) && Paced(s) && Enabled(s, a) && Tracked(s, a) && Exact(s)
    ensures Prompt(s, a) && Follows(After(s, a)) && Paced(After(s, a)) && Exact(After(s, a))
  {
    CaughtUpIsExact(s.view);
    ActPaced(s, a);
    match a
    case LoopPass(t) => PassExact(s, t);
    case LoopPush => PushExact(s);
    case DmaPlays(k) => PlayExact(s, k);
  }

  lemma {:induction false} TrackedRunIsExact(s: State, acts: seq<Act>)
    requires Follows(s) && Paced(s) && Exact(s) && TrackedRun(s, acts)
    ensures PromptRun(s, acts) && Run(s, acts) && Exact(End(s, acts))
    decreases |acts|
  {
    if acts != [] {
      ActExact(s, acts[0]);
      TrackedRunIsExact(After(s, acts[0]), acts[1..]);
    }
  }

  // ---------------------------------------------------------------- nothing is discarded

  /** By the time the watchdog stops a running stream, the DMA has played at least the cap. */
  predicate Live(s: State, a: Act) {
    a.LoopPass? && !a.t.flushed && s.running && s.dry.Armed? && a.t.now - s.dry.since >= IDLE_MS ==>
      s.ran >= CAP_BYTES
  }

  ghost predicate LiveRun(s: State, acts: seq<Act>)
    decreases |acts|
  {
    acts == [] || (Enabled(s, acts[0]) && Prompt(s, acts[0]) && Live(s, acts[0]) && LiveRun(After(s, acts[0]), acts[1..]))
  }

  /** Everything pushed in an epoch was heard, unless a flush ended it. */
  predicate Complete(s: State) {
    forall i :: 0 <= i < |s.past| && !s.past[i].flushed ==> s.past[i].stream <= s.past[i].heard
  }

  lemma PassDiscardsNothing(s: State, t: Tick)
    requires Follows(s) && Paced(s) && Enabled(s, LoopPass(t)) && Live(s, LoopPass(t)) && Complete(s)
    ensures Complete(Begin(s, t))
  {
  }

  /**
   * With a DMA that plays at least CAP_BYTES in the idle period, no idle stop of any run discards a
   * byte: everything pushed in the epoch had been fetched, in order.
   */
  lemma {:induction false} NothingIsDiscarded(s: State, acts: seq<Act>)
    requires Follows(s) && Paced(s) && Complete(s) && LiveRun(s, acts)
    ensures PromptRun(s, acts) && Run(s, acts) && Follows(End(s, acts)) && Complete(End(s, acts))
    decreases |acts|
  {
    if acts != [] {
      ActPaced(s, acts[0]);
      if acts[0].LoopPass? {
        PassDiscardsNothing(s, acts[0].t);
      }
      NothingIsDiscarded(After(s, acts[0]), acts[1..]);
    }
  }

  // ---------------------------------------------------------------- after an underrun

  /** Data waits at every pass, and no flush empties the rings. */
  predicate AllWaiting(acts: seq<Act>) {
    forall i :: 0 <= i < |acts| && acts[i].LoopPass? ==>
      !Dry(acts[i].t) && (acts[i].t.flushed ==> !acts[i].t.emptyAfterFlush)
  }

  function PlayedBy(a: Act): nat {
    if a.DmaPlays? then a.k else 0
  }

  function PlayedIn(acts: seq<Act>): nat {
    if acts == [] then 0 else PlayedBy(acts[0]) + PlayedIn(acts[1..])
  }

  /** How far past the writer the DMA may be for the loop to be held off: a lap less the target. */
  const HOLD_OFF: nat := RING_SIZE - TARGET_FRAMES * FRAME_BYTES

  lemma PassHeldOff(s: State, t: Tick)
    requires Enabled(s, LoopPass(t)) && !Dry(t) && (t.flushed ==> !t.emptyAfterFlush)
    requires Unplayed(s.view) < 0 <= Unplayed(s.view) + HOLD_OFF
    ensures Begin(s, t) == s.(dry := Unarmed) && ActEvents(s, LoopPass(t)) == []
  {
    OvertakenReadsFull(s.view, -Unplayed(s.view));
  }

  /**
   * Once the DMA is past the writer, data that arrives again is not pushed, and the watchdog does
   * not fire, until the DMA is within the target of a full lap.
   */
  lemma {:induction false} HeldOff(s: State, acts: seq<Act>)
    requires Run(s, acts) && AllWaiting(acts) && s.due.Nothing?
    requires Mapped(s.view) && Unplayed(s.view) < 0 && PlayedIn(acts) <= HOLD_OFF + Unplayed(s.view)
    ensures Events(s, acts) == [] && StillHeld(s, End(s, acts), PlayedIn(acts))
    decreases |acts|
  {
    if acts == [] {
      FetchNothing(s.view);
    } else {
      var s', k := After(s, acts[0]), PlayedBy(acts[0]);
      ActHeldOff(s, acts[0], k);
      HeldOff(s', acts[1..]);
      FetchTwice(s.view, k, PlayedIn(acts[1..]));
    }
  }

  /** Nothing but `n` bytes of playing has happened. */
  predicate StillHeld(s: State, e: State, n: nat) {
    && e.view == Fetched(s.view, n)
    && e.due == s.due && e.stopped == s.stopped && e.running == s.running
    && e.pushed == s.pushed && e.past == s.past
  }

  lemma ActHeldOff(s: State, a: Act, k: nat)
    requires Enabled(s, a) && s.due.Nothing?
    requires a.LoopPass? ==> !Dry(a.t) && (a.t.flushed ==> !a.t.emptyAfterFlush)
    requires k == PlayedBy(a) && Unplayed(s.view) < 0 <= Unplayed(s.view) + HOLD_OFF
    ensures ActEvents(s, a) == [] && StillHeld(s, After(s, a), k) && Mapped(After(s, a).view)
  {
    if a.LoopPass? {
      PassHeldOff(s, a.t);
      FetchNothing(s.view);
    } else {
      FetchedIsMapped(s.view, k);
    }
  }

  lemma FetchNothing(v: View)
    requires Mapped(v)
    ensures Fetched(v, 0) == v
  {
  }

  lemma FetchTwice(v: View, j: nat, k: nat)
    requires Mapped(v)
    ensures Fetched(Fetched(v, j), k) == Fetched(v, j + k)
  {
    FetchedIsMapped(v, j);
    FetchedIsMapped(v, j + k);
    FetchedIsMapped(Fetched(v, j), k);
  }

  /** Then the next pass with data resumes, and by then exactly that many stale bytes were heard. */
  lemma ResumesAfterStaleLap(s: State, t: Tick, d: nat)
    requires Follows(s) && Enabled(s, LoopPass(t)) && !Dry(t) && (t.flushed ==> !t.emptyAfterFlush) && t.hadData
    requires Unplayed(s.view) + d == 0 && 0 < d < RING_SIZE
    ensures Begin(s, t).due.Chunk? <==> d > HOLD_OFF
    ensures s.heard == s.view.sent + Echo(s.view.sent)[..d]
  {
    OvertakenReadsFull(s.view, d);
    var c := s.view.sent + Echo(s.view.sent);
    assert CatchUp(s.view.sent, s.view.played) == c;
    assert s.heard == c[..|s.view.sent| + d];
  }

  /** How far past the writer the DMA is, laps apart: 0 when they meet. */
  function Past(v: View): (d: nat)
    ensures d < RING_SIZE
  {
    (-Unplayed(v)) % RING_SIZE
  }

  /**
   * Wherever the DMA is, laps behind or laps ahead: a push shorter than the ring finds room exactly
   * when the DMA meets the writer or is past it by more than the push.
   */
  lemma HasRoomIff(s: State)
    requires Enabled(s, LoopPush) && |s.due.data| < RING_SIZE
    ensures HasRoom(s, LoopPush) <==> Past(s.view) == 0 || Past(s.view) > |s.due.data|
  {
    FreeIsPast(s.view);
  }

  lemma FreeIsPast(v: View)
    requires Mapped(v)
    ensures FreeOf(v.writePos, v.rd) == if Past(v) == 0 then RING_SIZE else Past(v)
  {
    var u, q, d := Unplayed(v), (-Unplayed(v)) / RING_SIZE, Past(v);
    assert -u == q * RING_SIZE + d;
    DelayAndFree(v);
    ReportedIsUnplayed(v);
    if d == 0 {
      DivModUnique(u, RING_SIZE, -q, 0);
    } else {
      DivModUnique(u, RING_SIZE, -q - 1, RING_SIZE - d);
    }
  }

  /**
   * What goes wrong without room: the DMA has just passed the writer, by less than the push. The
   * first part lands behind it and is heard a lap late; the rest is heard first.
   */
  lemma LateWriteIsSplit(v: View, data: seq<byte>)
    requires Mapped(v) && 0 < Past(v) < |data| <= RING_SIZE
    ensures PushAll(v, data).ring[v.rd] == data[Past(v)]
  {
    FreeIsPast(v);
    WrittenIsMapped(v, data);
    FirstPartFills(v, data, Past(v));
    RestLandsNext(Written(v, data), data[Past(v)..]);
  }

  /**
   * By exactly the push: it fits, but the ring then reads empty, so that the next push lands on the
   * byte due next and is heard a lap before this one.
   */
  lemma ExactWriteIsOvertaken(v: View, data: seq<byte>, more: seq<byte>)
    requires Mapped(v) && 0 < Past(v) == |data| && 0 < |more| <= RING_SIZE
    ensures var t := PushAll(v, data);
            && Reported(t) == 0 && t.sent == v.sent + data
            && PushAll(t, more).ring[v.rd] == more[0]
  {
    FreeIsPast(v);
    WrittenIsMapped(v, data);
    FirstPartFills(v, data, Past(v));
    assert data[..|data|] == data;
    PushThatFits(v, data);
    RestLandsNext(Written(v, data), more);
  }

  lemma FirstPartFills(v: View, data: seq<byte>, d: nat)
    requires Mapped(v) && FreeOf(v.writePos, v.rd) == d <= |data| && d < RING_SIZE
    ensures var u := Written(v, data);
            && Mapped(u) && u.writePos == u.rd == v.rd && Accepted(v, data) == d
            && u.sent == v.sent + data[..d]
  {
    WrittenIsMapped(v, data);
    if v.writePos >= v.rd {
      DivModUnique(v.writePos + d, RING_SIZE, 1, v.rd);
    } else {
      DivModUnique(v.writePos + d, RING_SIZE, 0, v.rd);
    }
  }

  lemma RestLandsNext(u: View, rest: seq<byte>)
    requires Mapped(u) && u.writePos == u.rd && 0 < |rest| <= RING_SIZE
    ensures PushAll(u, rest).ring[u.rd] == rest[0]
  {
    assert Accepted(u, rest) == |rest|;
    PushThatFits(u, rest);
    assert rest[..|rest|] == rest;
    StoredAt(u.ring, u.writePos, rest);
  }

  /** The fetches of this model are the controller's own, through the descriptor list and the page map. */
  lemma HeardIsFetched(s: State, k: nat, j: nat, mem: map<nat, byte>, list: seq<byte>, phys: seq<nat>, iocLast: bool)
    requires Mapped(s.view) && j < k
    requires Backs(mem, phys, s.view.ring) && Describes(list, phys, RING_PAGES, iocLast)
    ensures FetchAddress(list, RING_PAGES, s.view.played + j) in mem
    ensures Played(s, k).heard[|s.heard| + j] == mem[FetchAddress(list, RING_PAGES, s.view.played + j)]
  {
    FetchReadsTheRing(mem, s.view.ring, list, phys, iocLast, s.view.played + j);
  }
}
