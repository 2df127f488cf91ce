/**
 * What the DMA ring does past an underrun (hda/src/stream.rs): the hardware repeats the last lap,
 * and a write that comes later joins the stream at its end.
 */
module Laps {
  import opened Bytes
  import opened Numbers
  import opened Dma

  /** `t` is `p` with nothing put in but repeats of the last lap. */
  predicate LapsAdded(t: seq<byte>, p: seq<byte>)
    decreases |t|
  {
    || (t == [] && p == [])
    || (t != [] && p != [] && t[|t| - 1] == p[|p| - 1] && LapsAdded(t[..|t| - 1], p[..|p| - 1]))
    || (|t| >= RING_SIZE && EndsInLap(t) && LapsAdded(t[..|t| - RING_SIZE], p))
  }

  predicate EndsInLap(t: seq<byte>)
    requires |t| >= RING_SIZE
  {
    t[|t| - RING_SIZE..] == Echo(t[..|t| - RING_SIZE])
  }

  lemma {:induction false} DataAppended(t: seq<byte>, p: seq<byte>, x: seq<byte>)
    requires LapsAdded(t, p)
    ensures LapsAdded(t + x, p + x)
    decreases |x|
  {
    if x == [] {
      assert t + x == t && p + x == p;
    } else {
      var init := x[..|x| - 1];
      DataAppended(t, p, init);
      assert (t + x)[..|t + x| - 1] == t + init && (p + x)[..|p + x| - 1] == p + init;
    }
  }

  lemma LapAppended(t: seq<byte>, p: seq<byte>)
    requires LapsAdded(t, p)
    ensures LapsAdded(t + Echo(t), p)
  {
    var u := t + Echo(t);
    assert u[..|u| - RING_SIZE] == t && u[|u| - RING_SIZE..] == Echo(t);
  }

  lemma {:induction false} LapsAppended(t: seq<byte>, p: seq<byte>, n: nat)
    requires LapsAdded(t, p)
    ensures LapsAdded(CatchUp(t, n), p)
    decreases n - |t|
  {
    if n > |t| {
      LapAppended(t, p);
      LapsAppended(t + Echo(t), p, n);
    }
  }

  /** What was put in is whole laps; with none, the stream is the data itself. */
  lemma {:induction false} LapsAreWhole(t: seq<byte>, p: seq<byte>) returns (laps: nat)
    requires LapsAdded(t, p)
    ensures |t| == |p| + laps * RING_SIZE && (laps == 0 ==> t == p)
    decreases |t|
  {
    laps := 0;
    if t != [] {
      var n := |t| - 1;
      if p != [] && t[n] == p[|p| - 1] && LapsAdded(t[..n], p[..|p| - 1]) {
        laps := LapsAreWhole(t[..n], p[..|p| - 1]);
        assert t == t[..n] + [t[n]] && p == p[..|p| - 1] + [p[|p| - 1]];
      } else {
        laps := LapsAreWhole(t[..|t| - RING_SIZE], p);
        laps := laps + 1;
      }
    }
  }

  // ---------------------------------------------------------------- reading and writing past the writer

  lemma DelayAndFree(v: View)
    requires Mapped(v)
    ensures Reported(v) + FreeOf(v.writePos, v.rd) == RING_SIZE
  {
  }

  /** Reported delay falls by what the DMA plays, while that much is reported. */
  lemma ReportedFalls(v: View, k: nat)
    requires Mapped(v) && k <= Reported(v)
    ensures Mapped(Fetched(v, k)) && Reported(Fetched(v, k)) == Reported(v) - k
  {
    ReportedIsUnplayed(v);
    FetchedIsMapped(v, k);
    ReportedIsUnplayed(Fetched(v, k));
    var x := Unplayed(v);
    DivModUnique(x - k, RING_SIZE, x / RING_SIZE, x % RING_SIZE - k);
  }

  /** A write with room to spare joins the caught-up stream, leaving what was heard behind it. */
  lemma WriteAfterLaps(v: View, data: seq<byte>, pushed: seq<byte>)
    requires Mapped(v) && Remembers(v) && Unplayed(v) < RING_SIZE && LapsAdded(v.sent, pushed)
    requires |data| < FreeOf(v.writePos, v.rd)
    ensures Mapped(CaughtUp(v)) && Accepted(CaughtUp(v), data) == |data|
    ensures var t := Written(CaughtUp(v), data);
            && Mapped(t) && Remembers(t) && t.sent == CaughtUp(v).sent + data && t.played == v.played
            && Unplayed(t) == Reported(v) + |data| < RING_SIZE
            && CaughtUp(v).sent <= CatchUp(t.sent, t.played) && LapsAdded(t.sent, pushed + data)
  {
    var c := CaughtUp(v);
    CaughtUpIsExact(v);
    DelayAndFree(v);
    AcceptedIsRoom(c, data);
    WriteRemembers(c, data);
    assert data[..|data|] == data;
    LapsAppended(v.sent, pushed, v.played);
    DataAppended(c.sent, pushed, data);
  }
}
