/** The playback DMA ring: hda/src/stream.rs and the descriptor list of hda/src/bdl.rs. */
module Dma {
  import opened Bytes
  import opened Numbers
  import opened Ring

  const FRAME_BYTES: nat := 4
  const PAGE_SIZE: nat := 4096
  const RING_PAGES: nat := 64
  const RING_SIZE: nat := 262144

  function DelayOf(writePos: nat, rd: nat): nat
    requires writePos < RING_SIZE && rd < RING_SIZE
  {
    if writePos >= rd then writePos - rd else RING_SIZE - rd + writePos
  }

  function FreeOf(writePos: nat, rd: nat): nat
    requires writePos < RING_SIZE && rd < RING_SIZE
  {
    if writePos >= rd then RING_SIZE - (writePos - rd) else rd - writePos
  }

  /**
   * For any counts w written and r played, even with the DMA ahead of the writer or a lap behind:
   * delay is their distance modulo the ring, and delay and free space make up the ring.
   */
  lemma DelayIsDistance(w: int, r: int)
    ensures DelayOf(w % RING_SIZE, r % RING_SIZE) == (w - r) % 262144
    ensures DelayOf(w % RING_SIZE, r % RING_SIZE) + FreeOf(w % RING_SIZE, r % RING_SIZE) == RING_SIZE
    ensures DelayOf(w % RING_SIZE, r % RING_SIZE) == w - r <==> 0 <= w - r < RING_SIZE
  {
  }

  /** The free space reported is never zero, so a nonempty write always takes something. */
  lemma NeverReportsFull(writePos: nat, rd: nat)
    requires writePos < RING_SIZE && rd < RING_SIZE
    ensures FreeOf(writePos, rd) >= 1
    ensures FreeOf(writePos, rd) == RING_SIZE <==> writePos == rd
  {
  }

  lemma {:induction false} CircularAt(b: seq<byte>, start: nat, n: nat, j: nat)
    requires 0 < |b| && start < |b| && n <= |b| && j < n
    ensures Circular(b, start, n)[j] == b[(start + j) % |b|]
  {
    AdvanceIsMod(start, j, |b|);
  }

  /**
   * The ring and its positions, with what they stand for: every byte `sent` since the last
   * reset, and how many of them the DMA has `played`.
   */
  datatype View = View(ring: seq<byte>, writePos: nat, rd: nat, sent: seq<byte>, played: nat)

  predicate Mapped(v: View) {
    && |v.ring| == RING_SIZE
    && v.writePos == |v.sent| % RING_SIZE
    && v.rd == v.played % RING_SIZE
  }

  /** The unplayed bytes are in the ring, where the DMA will fetch them. */
  predicate Window(v: View)
    requires Mapped(v)
  {
    && v.played <= |v.sent| <= v.played + RING_SIZE
    && Circular(v.ring, v.rd, |v.sent| - v.played) == v.sent[v.played..]
  }

  function Unplayed(v: View): int {
    |v.sent| - v.played
  }

  /** What `delay_bytes` reports. */
  function Reported(v: View): nat
    requires Mapped(v)
  {
    DelayOf(v.writePos, v.rd)
  }

  function Accepted(v: View, data: seq<byte>): (n: nat)
    requires Mapped(v)
    ensures n <= |data| && n <= RING_SIZE && (data != [] ==> n > 0)
  {
    Min(|data|, FreeOf(v.writePos, v.rd))
  }

  function Written(v: View, data: seq<byte>): View
    requires Mapped(v)
  {
    var taken := data[..Accepted(v, data)];
    View(Stored(v.ring, v.writePos, taken), (v.writePos + |taken|) % RING_SIZE, v.rd, v.sent + taken, v.played)
  }

  /** The hardware fetches `k` bytes. */
  function Fetched(v: View, k: nat): View {
    v.(rd := (v.rd + k) % RING_SIZE, played := v.played + k)
  }

  /** After a drop: accounting cleared and the ring zeroed. */
  const Silent: View := View(Zeros(RING_SIZE), 0, 0, [], 0)

  /**
   * After a stream reset alone the DMA restarts at offset 0 while the write position stays, so
   * what it will play is whatever lies below the write position.
   */
  function Restarted(v: View): View
    requires v.writePos <= |v.ring|
  {
    v.(rd := 0, sent := v.ring[..v.writePos], played := 0)
  }

  lemma PositionAfter(count: nat, k: nat)
    ensures (count + k) % RING_SIZE == (count % RING_SIZE + k) % RING_SIZE
  {
  }

  lemma WrittenIsMapped(v: View, data: seq<byte>)
    requires Mapped(v)
    ensures Mapped(Written(v, data))
  {
    PositionAfter(|v.sent|, Accepted(v, data));
  }

  lemma FetchedIsMapped(v: View, k: nat)
    requires Mapped(v)
    ensures Mapped(Fetched(v, k))
  {
    PositionAfter(v.played, k);
  }

  /**
   * `delay_bytes` is the true occupancy exactly while that is below a full ring; a full ring
   * reads as empty.
   */
  lemma ReportedIsUnplayed(v: View)
    requires Mapped(v)
    ensures Reported(v) == Unplayed(v) % RING_SIZE
    ensures Reported(v) == Unplayed(v) <==> 0 <= Unplayed(v) < RING_SIZE
    ensures Unplayed(v) == RING_SIZE ==> Reported(v) == 0 && FreeOf(v.writePos, v.rd) == RING_SIZE
  {
    DelayIsDistance(|v.sent|, v.played);
  }

  lemma AcceptedIsRoom(v: View, data: seq<byte>)
    requires Mapped(v) && 0 <= Unplayed(v) < RING_SIZE
    ensures Accepted(v, data) == Min(|data|, RING_SIZE - Unplayed(v))
  {
    DelayIsDistance(|v.sent|, v.played);
  }

  /**
   * From an exact state a write appends what fits and overwrites nothing unplayed; the
   * accounting stays exact unless the write takes every free byte.
   */
  lemma WriteKeepsWindow(v: View, data: seq<byte>)
    requires Mapped(v) && Window(v) && Unplayed(v) < RING_SIZE
    ensures var t := Written(v, data);
            && Mapped(t) && Window(t)
            && t.sent == v.sent + data[..Min(|data|, RING_SIZE - Unplayed(v))]
            && (Unplayed(t) < RING_SIZE <==> |data| < RING_SIZE - Unplayed(v))
  {
    AcceptedIsRoom(v, data);
    WrittenIsMapped(v, data);
    WindowGrows(v, data[..Accepted(v, data)]);
  }

  /** Past that point nothing protects the next byte due: a write into a full ring lands on it. */
  lemma FullRingIsOverwritten(v: View, data: seq<byte>)
    requires Mapped(v) && Window(v) && Unplayed(v) == RING_SIZE && data != []
    ensures Written(v, data).ring[v.rd] == data[0]
  {
    ReportedIsUnplayed(v);
    PositionAfter(v.played, RING_SIZE);
    assert v.writePos == v.rd;
    var taken := data[..Accepted(v, data)];
    StoredAt(v.ring, v.writePos, taken);
  }

  lemma StoredAt(b: seq<byte>, at: nat, data: seq<byte>)
    requires at < |b| && 0 < |data| <= |b|
    ensures Stored(b, at, data)[at] == data[0]
  {
  }

  lemma WriterFollowsReader(v: View)
    requires Mapped(v) && 0 <= Unplayed(v) <= RING_SIZE
    ensures v.writePos == Advance(v.rd, Unplayed(v), RING_SIZE)
  {
    PositionAfter(v.played, Unplayed(v));
    AdvanceIsMod(v.rd, Unplayed(v), RING_SIZE);
  }

  lemma WindowGrows(v: View, taken: seq<byte>)
    requires Mapped(v) && Window(v) && Unplayed(v) + |taken| <= RING_SIZE
    ensures var all := v.sent + taken;
            Circular(Stored(v.ring, v.writePos, taken), v.rd, |all| - v.played) == all[v.played..]
  {
    WriterFollowsReader(v);
    StoreAppends(v.ring, v.rd, Unplayed(v), taken);
    assert (v.sent + taken)[v.played..] == v.sent[v.played..] + taken;
  }

  /** Playing bytes that were sent removes exactly those from the window. */
  lemma FetchKeepsWindow(v: View, k: nat)
    requires Mapped(v) && Window(v) && k <= Unplayed(v)
    ensures Mapped(Fetched(v, k)) && Window(Fetched(v, k))
  {
    FetchedIsMapped(v, k);
    AdvanceIsMod(v.rd, k, RING_SIZE);
    LoadTakes(v.ring, v.rd, Unplayed(v), k);
    assert v.sent[v.played..][k..] == v.sent[v.played + k..];
  }

  // ---------------------------------------------------------------- what the ring remembers

  /** The last RING_SIZE bytes of a stream, silence before its start: what another lap would play. */
  function Echo(t: seq<byte>): (e: seq<byte>)
    ensures |e| == RING_SIZE
  {
    (Zeros(RING_SIZE) + t)[|t|..]
  }

  /** The whole ring holds the last lap of what was sent. */
  predicate Remembers(v: View)
    requires Mapped(v)
  {
    Circular(v.ring, v.writePos, RING_SIZE) == Echo(v.sent)
  }

  lemma SilentRemembers()
    ensures Remembers(Silent)
  {
  }

  lemma EchoAppend(t: seq<byte>, x: seq<byte>)
    requires |x| <= RING_SIZE
    ensures Echo(t + x) == Echo(t)[|x|..] + x
  {
    assert Zeros(RING_SIZE) + (t + x) == (Zeros(RING_SIZE) + t) + x;
  }

  lemma EchoOfEcho(t: seq<byte>)
    ensures Echo(t + Echo(t)) == Echo(t)
  {
    EchoAppend(t, Echo(t));
    assert Echo(t)[RING_SIZE..] == [];
  }

  lemma EchoTail(t: seq<byte>, n: nat)
    requires n <= RING_SIZE && n <= |t|
    ensures Echo(t)[RING_SIZE - n..] == t[|t| - n..]
  {
  }

  /** A write, however placed, leaves the last lap of what was sent in the ring. */
  lemma WriteRemembers(v: View, data: seq<byte>)
    requires Mapped(v) && Remembers(v)
    ensures Mapped(Written(v, data)) && Remembers(Written(v, data))
  {
    var taken := data[..Accepted(v, data)];
    WrittenIsMapped(v, data);
    AdvanceIsMod(v.writePos, |taken|, RING_SIZE);
    StoreRotates(v.ring, v.writePos, taken);
    EchoAppend(v.sent, taken);
  }

  /** Seen from the write position, a store shifts the ring along. */
  lemma StoreRotates(b: seq<byte>, at: nat, x: seq<byte>)
    requires at < |b| && |x| <= |b|
    ensures Circular(Stored(b, at, x), Advance(at, |x|, |b|), |b|) == Circular(b, at, |b|)[|x|..] + x
  {
    var start, n := Advance(at, |x|, |b|), |b| - |x|;
    LoadTakes(b, at, |b|, |x|);
    TurnAround(at, |x|, |b|);
    AppendAt(b, start, n, at, x, |b|);
  }

  lemma TurnAround(at: nat, k: nat, cap: nat)
    requires at < cap && k <= cap
    ensures Advance(Advance(at, k, cap), cap - k, cap) == at
  {
  }

  lemma AppendAt(b: seq<byte>, start: nat, n: nat, at: nat, x: seq<byte>, m: nat)
    requires start < |b| && n + |x| == m <= |b| && at == Advance(start, n, |b|)
    ensures Circular(Stored(b, at, x), start, m) == Circular(b, start, n) + x
  {
    StoreAppends(b, start, n, x);
  }

  /** So as long as the DMA is neither past the writer nor a lap behind, its window is intact. */
  lemma RememberedIsWindow(v: View)
    requires Mapped(v) && Remembers(v) && 0 <= Unplayed(v) <= RING_SIZE
    ensures Window(v)
  {
    var u := Unplayed(v);
    WriterFollowsReader(v);
    assert Advance(v.writePos, RING_SIZE - u, RING_SIZE) == v.rd;
    LoadTakes(v.ring, v.writePos, RING_SIZE, RING_SIZE - u);
    EchoTail(v.sent, u);
  }

  /**
   * What a restart replays: the last `writePos` bytes sent, the part of the last lap that lies at
   * the front of the ring; nothing exactly when the writer stood at the start.
   */
  lemma RestartReplays(v: View)
    requires Mapped(v) && Remembers(v)
    ensures var t := Restarted(v);
            && v.writePos <= |v.sent|
            && Mapped(t) && Window(t)
            && t.sent == v.sent[|v.sent| - v.writePos..]
            && Reported(t) == v.writePos
            && (t.sent == [] <==> |v.sent| % RING_SIZE == 0)
  {
    EchoTail(v.sent, v.writePos);
    FrontIsTail(v.ring, v.writePos);
  }

  lemma FrontIsTail(b: seq<byte>, at: nat)
    requires at < |b|
    ensures Circular(b, at, |b|)[|b| - at..] == b[..at]
  {
  }

  // ---------------------------------------------------------------- laps

  /**
   * What the hardware plays once it has fetched `n` bytes of stream `t`: when `t` runs out, the
   * ring's last lap over again, as often as it takes.
   */
  function CatchUp(t: seq<byte>, n: nat): (r: seq<byte>)
    ensures |r| >= n && t <= r
    decreases n - |t|
  {
    if n <= |t| then t else CatchUp(t + Echo(t), n)
  }

  lemma {:induction false} CatchUpAgain(t: seq<byte>, n: nat, m: nat)
    requires n <= m
    ensures CatchUp(t, n) <= CatchUp(t, m) && CatchUp(CatchUp(t, n), m) == CatchUp(t, m)
    decreases n - |t|
  {
    if n > |t| {
      CatchUpAgain(t + Echo(t), n, m);
    }
  }

  lemma {:induction false} CatchUpPlace(t: seq<byte>, n: nat)
    ensures Echo(CatchUp(t, n)) == Echo(t) && |CatchUp(t, n)| % RING_SIZE == |t| % RING_SIZE
    ensures n > |t| ==> |CatchUp(t, n)| < n + RING_SIZE
    decreases n - |t|
  {
    if n > |t| {
      EchoOfEcho(t);
      CatchUpPlace(t + Echo(t), n);
      DivShift(|t|, RING_SIZE, 1);
    }
  }

  /** The same ring, described by what the hardware will really play. */
  function CaughtUp(v: View): View {
    v.(sent := CatchUp(v.sent, v.played))
  }

  lemma CaughtUpIsMapped(v: View)
    requires Mapped(v)
    ensures Mapped(CaughtUp(v))
  {
    CatchUpPlace(v.sent, v.played);
  }

  /** The reported delay is the distance to the end of that. */
  lemma CaughtUpIsExact(v: View)
    requires Mapped(v) && Unplayed(v) < RING_SIZE
    ensures var t := CaughtUp(v);
            && Mapped(t) && 0 <= Unplayed(t) < RING_SIZE && Reported(v) == Reported(t) == Unplayed(t)
            && (Unplayed(v) >= 0 ==> t == v)
            && (Remembers(v) ==> Remembers(t))
  {
    CatchUpPlace(v.sent, v.played);
    ReportedIsUnplayed(CaughtUp(v));
  }

  /** The `k` bytes the hardware fetches next. */
  function NextBytes(v: View, k: nat): (b: seq<byte>)
    requires Mapped(v)
    ensures |b| == k
  {
    seq(k, j requires 0 <= j < k => v.ring[(v.played + j) % RING_SIZE])
  }

  /** Slot i mod RING_SIZE holds byte i of that, whether the DMA is behind the writer or past it. */
  lemma {:induction false} SlotHolds(v: View, i: nat)
    requires Mapped(v) && Remembers(v) && i >= |v.sent| - RING_SIZE
    ensures v.ring[i % RING_SIZE] == CatchUp(v.sent, i + 1)[i]
    decreases i - |v.sent|
  {
    if i < |v.sent| {
      var j := i + RING_SIZE - |v.sent|;
      CircularAt(v.ring, v.writePos, RING_SIZE, j);
      PositionAfter(|v.sent|, j);
      DivShift(i, RING_SIZE, 1);
      assert Echo(v.sent)[j] == (Zeros(RING_SIZE) + v.sent)[i + RING_SIZE] == v.sent[i];
    } else {
      EchoOfEcho(v.sent);
      DivShift(|v.sent|, RING_SIZE, 1);
      SlotHolds(v.(sent := v.sent + Echo(v.sent)), i);
    }
  }

  /** What was heard, and what is fetched next, follow the stream and its laps. */
  lemma FetchFollows(v: View, k: nat, heard: seq<byte>)
    requires Mapped(v) && Remembers(v) && Unplayed(v) <= RING_SIZE
    requires |heard| == v.played && heard <= CatchUp(v.sent, v.played)
    ensures heard + NextBytes(v, k) <= CatchUp(v.sent, v.played + k)
  {
    var n := v.played + k;
    CatchUpAgain(v.sent, v.played, n);
    forall i | v.played <= i < n ensures SlotIs(v, CatchUp(v.sent, n), i) {
      SlotFollows(v, i, n);
    }
    FetchFrom(v, k, heard, CatchUp(v.sent, n));
  }

  predicate SlotIs(v: View, all: seq<byte>, i: nat) {
    |v.ring| == RING_SIZE && i < |all| && v.ring[i % RING_SIZE] == all[i]
  }

  lemma FetchFrom(v: View, k: nat, heard: seq<byte>, all: seq<byte>)
    requires Mapped(v) && |heard| == v.played && heard <= all && v.played + k <= |all|
    requires forall i :: v.played <= i < v.played + k ==> SlotIs(v, all, i)
    ensures heard + NextBytes(v, k) <= all
  {
    forall j | 0 <= j < k ensures NextBytes(v, k)[j] == all[|heard| + j] {
      assert SlotIs(v, all, v.played + j);
    }
  }

  lemma SlotFollows(v: View, i: nat, n: nat)
    requires Mapped(v) && Remembers(v) && |v.sent| - RING_SIZE <= i < n
    ensures SlotIs(v, CatchUp(v.sent, n), i)
  {
    SlotHolds(v, i);
    CatchUpAgain(v.sent, i + 1, n);
  }

  /** Stream descriptor 0. `lpib` is the position register the hardware moves. */
  class Stream {
    const ring: array<byte>
    var writePos: nat
    var lpib: nat
    ghost var sent: seq<byte>
    ghost var played: nat

    ghost function State(): View
      reads this, ring
    {
      View(ring[..], writePos, lpib % RING_SIZE, sent, played)
    }

    constructor ()
      ensures Mapped(State()) && State() == Silent && fresh(ring)
    {
      ring := new byte[RING_SIZE](_ => 0);
      writePos, lpib, sent, played := 0, 0, [], 0;
      new;
      assert ring[..] == Zeros(RING_SIZE);
    }

    method DelayBytes() returns (d: nat)
      requires Mapped(State())
      ensures d == Reported(State())
    {
      var rd := lpib % RING_SIZE;
      d := if writePos >= rd then writePos - rd else RING_SIZE - rd + writePos;
    }

    method Write(data: seq<byte>) returns (n: nat)
      requires Mapped(State())
      modifies this`writePos, this`sent, ring
      ensures n == Accepted(old(State()), data)
      ensures Mapped(State()) && State() == Written(old(State()), data)
    {
      WrittenIsMapped(State(), data);
      var rd := lpib % RING_SIZE;
      n := Min(|data|, FreeOf(writePos, rd));
      if n == 0 {
        assert data == [] && sent + data[..0] == sent;
        assert ring[..] == Stored(ring[..], writePos, data[..0]);
        return;
      }
      StoreCircular(ring, writePos, data[..n]);
      sent := sent + data[..n];
      writePos := (writePos + n) % RING_SIZE;
    }

    /** A step of the hardware, not of the driver. */
    method DmaAdvance(k: nat)
      requires Mapped(State())
      modifies this`lpib, this`played
      ensures Mapped(State()) && State() == Fetched(old(State()), k)
    {
      FetchedIsMapped(State(), k);
      PositionAfter(lpib, k);
      lpib := lpib + k;
      played := played + k;
    }

    /** Names, for the proofs only, what the hardware will really play. */
    ghost method CountLaps()
      requires Mapped(State())
      modifies this`sent
      ensures Mapped(State()) && State() == CaughtUp(old(State()))
    {
      CaughtUpIsMapped(State());
      sent := CatchUp(sent, played);
    }

    /** Stream reset, `clear` and `zero_ring`. */
    method Drop()
      requires ring.Length == RING_SIZE
      modifies this`writePos, this`lpib, this`sent, this`played, ring
      ensures Mapped(State()) && State() == Silent
    {
      writePos, lpib, sent, played := 0, 0, [], 0;
      forall i | 0 <= i < ring.Length {
        ring[i] := 0;
      }
      assert ring[..] == Zeros(RING_SIZE);
    }

    /** The stream reset strobe alone. */
    method Srst()
      requires Mapped(State())
      modifies this`lpib, this`sent, this`played
      ensures Mapped(State()) && State() == Restarted(old(State()))
    {
      lpib, sent, played := 0, ring[..writePos], 0;
    }
  }

  // ---------------------------------------------------------------- descriptor list

  const ENTRY_SIZE: nat := 16

  datatype Entry = Entry(addr: nat, size: nat, ioc: nat)

  function EntryBytes(e: Entry): (b: seq<byte>)
    ensures |b| == ENTRY_SIZE
  {
    Le32(e.addr) + Le32(e.addr / U32) + Le32(e.size) + Le32(e.ioc)
  }

  /** What the controller reads from sixteen descriptor bytes. */
  function DecodeEntry(b: seq<byte>): Entry
    requires |b| == ENTRY_SIZE
  {
    Entry(FromLe(b[0..4]) + U32 * FromLe(b[4..8]), FromLe(b[8..12]), FromLe(b[12..16]))
  }

  predicate Fits(e: Entry) {
    e.addr < U32 * U32 && e.size < U32 && e.ioc < U32
  }

  lemma EntryRoundTrip(e: Entry)
    requires Fits(e)
    ensures DecodeEntry(EntryBytes(e)) == e
  {
    var b, hi := EntryBytes(e), e.addr / U32;
    FourWords(Le32(e.addr), Le32(hi), Le32(e.size), Le32(e.ioc));
    Le32RoundTrip(e.addr);
    Le32RoundTrip(hi);
    Le32RoundTrip(e.size);
    Le32RoundTrip(e.ioc);
    FromWords(b, e);
  }

  lemma FromWords(b: seq<byte>, e: Entry)
    requires |b| == ENTRY_SIZE && Fits(e)
    requires FromLe(b[0..4]) == e.addr % U32 && FromLe(b[4..8]) == (e.addr / U32) % U32
    requires FromLe(b[8..12]) == e.size % U32 && FromLe(b[12..16]) == e.ioc % U32
    ensures DecodeEntry(b) == e
  {
    SplitWord(e.addr);
  }

  lemma SplitWord(x: nat)
    requires x < U32 * U32
    ensures x % U32 + U32 * ((x / U32) % U32) == x
  {
  }

  lemma FourWords(w0: seq<byte>, w1: seq<byte>, w2: seq<byte>, w3: seq<byte>)
    requires |w0| == |w1| == |w2| == |w3| == 4
    ensures var b := w0 + w1 + w2 + w3;
            b[0..4] == w0 && b[4..8] == w1 && b[8..12] == w2 && b[12..16] == w3
  {
  }

  method MakeEntry(addr: nat, size: nat, ioc: nat) returns (e: array<byte>)
    ensures fresh(e) && e[..] == EntryBytes(Entry(addr, size, ioc))
  {
    e := new byte[ENTRY_SIZE](_ => 0);
    CopyInto(e, 0, Le32(addr));
    CopyInto(e, 4, Le32(addr / U32));
    CopyInto(e, 8, Le32(size));
    CopyInto(e, 12, Le32(ioc));
  }

  /** Physical address of offset `off` in a buffer made of pages `phys`. */
  function ToAddr(phys: seq<nat>, off: nat): nat
    requires off < |phys| * PAGE_SIZE
  {
    phys[off / PAGE_SIZE] + off % PAGE_SIZE
  }

  lemma PageStart(phys: seq<nat>, i: nat)
    requires i < |phys|
    ensures i * PAGE_SIZE < |phys| * PAGE_SIZE && ToAddr(phys, i * PAGE_SIZE) == phys[i]
  {
  }

  predicate Pages(phys: seq<nat>) {
    forall i :: 0 <= i < |phys| ==> phys[i] < U32 * U32
  }

  ghost predicate Describes(list: seq<byte>, phys: seq<nat>, entries: nat, iocLast: bool) {
    && entries * ENTRY_SIZE <= |list| && entries <= |phys|
    && forall i :: 0 <= i < entries ==> EntryAt(list, i) == EntryFor(phys, i, entries, iocLast)
  }

  function EntryAt(list: seq<byte>, i: nat): Entry
    requires (i + 1) * ENTRY_SIZE <= |list|
  {
    DecodeEntry(list[i * ENTRY_SIZE..(i + 1) * ENTRY_SIZE])
  }

  function EntryFor(phys: seq<nat>, i: nat, entries: nat, iocLast: bool): Entry
    requires i < |phys|
  {
    Entry(phys[i], PAGE_SIZE, if iocLast && i + 1 == entries then 1 else 0)
  }

  /** The first `k` descriptors, one after another. */
  function Listing(phys: seq<nat>, k: nat, entries: nat, iocLast: bool): (b: seq<byte>)
    requires k <= |phys|
    ensures |b| == k * ENTRY_SIZE
  {
    if k == 0 then []
    else Listing(phys, k - 1, entries, iocLast) + EntryBytes(EntryFor(phys, k - 1, entries, iocLast))
  }

  lemma {:induction false} ListingAt(phys: seq<nat>, k: nat, entries: nat, iocLast: bool, i: nat)
    requires i < k <= |phys|
    ensures Listing(phys, k, entries, iocLast)[i * ENTRY_SIZE..(i + 1) * ENTRY_SIZE]
         == EntryBytes(EntryFor(phys, i, entries, iocLast))
  {
    if i < k - 1 {
      ListingAt(phys, k - 1, entries, iocLast, i);
    }
  }

  method Fill(bdl: array<byte>, phys: seq<nat>, count: nat, iocLast: bool) returns (entries: nat)
    requires Pages(phys)
    modifies bdl
    ensures entries == Min(Min(count, bdl.Length / ENTRY_SIZE), |phys|)
    ensures Describes(bdl[..], phys, entries, iocLast)
    ensures bdl[entries * ENTRY_SIZE..] == old(bdl[entries * ENTRY_SIZE..])
  {
    entries := Min(Min(count, bdl.Length / ENTRY_SIZE), |phys|);
    ghost var orig := bdl[..];
    for i := 0 to entries
      invariant bdl[..] == Listing(phys, i, entries, iocLast) + orig[i * ENTRY_SIZE..]
    {
      FillEntry(bdl, phys, i, entries, iocLast, orig);
    }
    ListingDescribes(phys, entries, iocLast, bdl[..]);
  }

  /** The body of that loop. */
  method FillEntry(bdl: array<byte>, phys: seq<nat>, i: nat, entries: nat, iocLast: bool, ghost orig: seq<byte>)
    requires Pages(phys) && i < entries <= |phys| && |orig| == bdl.Length && entries * ENTRY_SIZE <= bdl.Length
    requires bdl[..] == Listing(phys, i, entries, iocLast) + orig[i * ENTRY_SIZE..]
    modifies bdl
    ensures bdl[..] == Listing(phys, i + 1, entries, iocLast) + orig[(i + 1) * ENTRY_SIZE..]
  {
    PageStart(phys, i);
    var pa := ToAddr(phys, i * PAGE_SIZE);
    var ioc := if iocLast && i + 1 == entries then 1 else 0;
    var entry := MakeEntry(pa, PAGE_SIZE, ioc);
    ghost var done, e := Listing(phys, i, entries, iocLast), entry[..];
    assert Listing(phys, i + 1, entries, iocLast) == done + e;
    AppendEntry(done, orig, bdl[..], e);
    CopyInto(bdl, i * ENTRY_SIZE, entry[..]);
  }

  lemma AppendEntry(done: seq<byte>, orig: seq<byte>, was: seq<byte>, entry: seq<byte>)
    requires |done| + |entry| <= |orig| && was == done + orig[|done|..]
    ensures was[..|done|] + entry + was[|done| + |entry|..] == (done + entry) + orig[|done| + |entry|..]
  {
  }

  lemma ListingDescribes(phys: seq<nat>, entries: nat, iocLast: bool, list: seq<byte>)
    requires Pages(phys) && entries <= |phys| && Listing(phys, entries, entries, iocLast) <= list
    ensures Describes(list, phys, entries, iocLast)
  {
    forall i | 0 <= i < entries ensures EntryAt(list, i) == EntryFor(phys, i, entries, iocLast) {
      ListingAt(phys, entries, entries, iocLast, i);
      EntryRoundTrip(EntryFor(phys, i, entries, iocLast));
      assert list[i * ENTRY_SIZE..(i + 1) * ENTRY_SIZE]
          == Listing(phys, entries, entries, iocLast)[i * ENTRY_SIZE..(i + 1) * ENTRY_SIZE];
    }
  }

  /** A 32-bit word of a list, lowest byte first. */
  function WordAt(list: seq<byte>, at: nat): int
    requires at + 4 <= |list|
  {
    list[at] as int + 256 * (list[at + 1] as int) + 65536 * (list[at + 2] as int) + 16777216 * (list[at + 3] as int)
  }

  /** A list by weight: for each page its address in two words, 4096, and the flag on the last alone. */
  lemma ListByWeight(list: seq<byte>, phys: seq<nat>, entries: nat, iocLast: bool, i: nat)
    requires Describes(list, phys, entries, iocLast) && i < entries
    ensures WordAt(list, 16 * i) + 0x1_0000_0000 * WordAt(list, 16 * i + 4) == phys[i]
    ensures WordAt(list, 16 * i + 8) == 4096
    ensures WordAt(list, 16 * i + 12) == if iocLast && i == entries - 1 then 1 else 0
  {
    assert EntryAt(list, i) == EntryFor(phys, i, entries, iocLast);
    WordOfEntry(list, i, 0);
    WordOfEntry(list, i, 4);
    WordOfEntry(list, i, 8);
    WordOfEntry(list, i, 12);
  }

  lemma WordOfEntry(list: seq<byte>, i: nat, o: nat)
    requires (i + 1) * ENTRY_SIZE <= |list| && o + 4 <= ENTRY_SIZE
    ensures FromLe(list[i * ENTRY_SIZE..(i + 1) * ENTRY_SIZE][o..o + 4]) == WordAt(list, 16 * i + o)
  {
    SliceOfSlice(list, 16 * i, 16, o, 4);
    WordByWeight(list[16 * i + o..16 * i + o + 4]);
  }

  lemma SliceOfSlice(s: seq<byte>, at: nat, n: nat, o: nat, k: nat)
    requires at + n <= |s| && o + k <= n
    ensures s[at..at + n][o..o + k] == s[at + o..at + o + k]
  {
    var a := s[at..at + n];
    var x, y := a[o..o + k], s[at + o..at + o + k];
    forall j | 0 <= j < k ensures x[j] == y[j] {
      assert a[o + j] == s[at + (o + j)];
    }
  }

  // ---------------------------------------------------------------- the hardware walk

  datatype Cursor = Cursor(entry: nat, offset: nat)

  /** The controller's cursor after `k` bytes of a list of `entries` descriptors. */
  function Walk(list: seq<byte>, entries: nat, k: nat): (c: Cursor)
    requires entries > 0 && entries * ENTRY_SIZE <= |list|
    ensures c.entry < entries
  {
    if k == 0 then Cursor(0, 0)
    else
      var c := Walk(list, entries, k - 1);
      if c.offset + 1 < EntryAt(list, c.entry).size then Cursor(c.entry, c.offset + 1)
      else Cursor(if c.entry == entries - 1 then 0 else c.entry + 1, 0)
  }

  function FetchAddress(list: seq<byte>, entries: nat, k: nat): nat
    requires entries > 0 && entries * ENTRY_SIZE <= |list|
  {
    var c := Walk(list, entries, k);
    EntryAt(list, c.entry).addr + c.offset
  }

  function CursorAt(k: nat): (c: Cursor)
    ensures c.entry < RING_PAGES && c.offset < PAGE_SIZE
  {
    Cursor(k % RING_SIZE / PAGE_SIZE, k % PAGE_SIZE)
  }

  function StepOf(c: Cursor): Cursor {
    if c.offset + 1 < PAGE_SIZE then Cursor(c.entry, c.offset + 1)
    else Cursor(if c.entry == RING_PAGES - 1 then 0 else c.entry + 1, 0)
  }

  lemma NextCursor(k: nat)
    ensures CursorAt(k + 1) == StepOf(CursorAt(k))
  {
    var q, c := k / RING_SIZE, CursorAt(k);
    Decompose(k);
    NextOf(q, c.entry, c.offset);
  }

  lemma Decompose(k: nat)
    ensures k == k / RING_SIZE * RING_SIZE + CursorAt(k).entry * PAGE_SIZE + CursorAt(k).offset
  {
    OffsetInPage(k);
    assert k % RING_SIZE == k % RING_SIZE / PAGE_SIZE * PAGE_SIZE + k % RING_SIZE % PAGE_SIZE;
  }

  lemma NextOf(q: nat, p: nat, o: nat)
    requires p < RING_PAGES && o < PAGE_SIZE
    ensures CursorAt(q * RING_SIZE + p * PAGE_SIZE + o + 1) == StepOf(Cursor(p, o))
  {
    if o + 1 < PAGE_SIZE {
      CursorOf(q, p, o + 1);
    } else if p + 1 < RING_PAGES {
      CursorOf(q, p + 1, 0);
    } else {
      CursorOf(q + 1, 0, 0);
    }
  }

  lemma CursorOf(q: nat, p: nat, o: nat)
    requires p < RING_PAGES && o < PAGE_SIZE
    ensures CursorAt(q * RING_SIZE + p * PAGE_SIZE + o) == Cursor(p, o)
  {
    var k := q * RING_SIZE + p * PAGE_SIZE + o;
    DivModUnique(k, RING_SIZE, q, p * PAGE_SIZE + o);
    DivModUnique(p * PAGE_SIZE + o, PAGE_SIZE, p, o);
    DivModUnique(k, PAGE_SIZE, q * RING_PAGES + p, o);
  }

  /** The k-th byte the hardware fetches is at the address of ring offset k mod RING_SIZE. */
  lemma {:induction false} WalkIsCyclic(list: seq<byte>, phys: seq<nat>, iocLast: bool, k: nat)
    requires |phys| == RING_PAGES && Describes(list, phys, RING_PAGES, iocLast)
    ensures Walk(list, RING_PAGES, k) == CursorAt(k)
    ensures FetchAddress(list, RING_PAGES, k) == ToAddr(phys, k % RING_SIZE)
  {
    if k > 0 {
      WalkIsCyclic(list, phys, iocLast, k - 1);
      EntryUnderCursor(list, phys, iocLast, k - 1);
      NextCursor(k - 1);
    }
    EntryUnderCursor(list, phys, iocLast, k);
  }

  lemma EntryUnderCursor(list: seq<byte>, phys: seq<nat>, iocLast: bool, k: nat)
    requires |phys| == RING_PAGES && Describes(list, phys, RING_PAGES, iocLast)
    ensures EntryAt(list, CursorAt(k).entry).size == PAGE_SIZE
    ensures EntryAt(list, CursorAt(k).entry).addr + CursorAt(k).offset == ToAddr(phys, k % RING_SIZE)
  {
    assert EntryAt(list, CursorAt(k).entry) == EntryFor(phys, CursorAt(k).entry, RING_PAGES, iocLast);
    OffsetInPage(k);
  }

  lemma OffsetInPage(k: nat)
    ensures k % RING_SIZE % PAGE_SIZE == k % PAGE_SIZE
  {
    assert k % RING_SIZE == k - (k / RING_SIZE * RING_PAGES) * PAGE_SIZE;
    DivShift(k, PAGE_SIZE, -(k / RING_SIZE * RING_PAGES));
  }

  /** `mem` holds the ring at its physical pages. */
  ghost predicate Backs(mem: map<nat, byte>, phys: seq<nat>, ring: seq<byte>) {
    |phys| == RING_PAGES && |ring| == RING_SIZE
    && forall off :: 0 <= off < RING_SIZE ==> ToAddr(phys, off) in mem && mem[ToAddr(phys, off)] == ring[off]
  }

  /** Fetching through the descriptors and the page map reads the ring round and round. */
  lemma FetchReadsTheRing(mem: map<nat, byte>, ring: seq<byte>, list: seq<byte>, phys: seq<nat>, iocLast: bool, i: nat)
    requires Describes(list, phys, RING_PAGES, iocLast) && Backs(mem, phys, ring)
    ensures FetchAddress(list, RING_PAGES, i) in mem
    ensures mem[FetchAddress(list, RING_PAGES, i)] == ring[i % RING_SIZE]
  {
    WalkIsCyclic(list, phys, iocLast, i);
  }

  /** Whatever lies between played and sent, the hardware fetches as byte i of the stream. */
  lemma HardwarePlaysTheStream(v: View, mem: map<nat, byte>, list: seq<byte>, phys: seq<nat>, iocLast: bool, i: nat)
    requires Mapped(v) && Window(v) && v.played <= i < |v.sent|
    requires Describes(list, phys, RING_PAGES, iocLast) && Backs(mem, phys, v.ring)
    ensures FetchAddress(list, RING_PAGES, i) in mem
    ensures mem[FetchAddress(list, RING_PAGES, i)] == v.sent[i]
  {
    FetchReadsTheRing(mem, v.ring, list, phys, iocLast, i);
    var j := i - v.played;
    CircularAt(v.ring, v.rd, Unplayed(v), j);
    assert v.sent[v.played..][j] == v.sent[i];
    PositionAfter(v.played, j);
  }
}
