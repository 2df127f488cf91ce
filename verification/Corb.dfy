/**
 * The CORB/RIRB command rings of hda/src/corb.rs: verbs out through one circular buffer, responses
 * back through another. Entry 1 is the first used after a reset, in both rings.
 */
module Corb {
  import opened Ring

  datatype Entry = Entry(resp: bv32, ex: bv32)

  datatype Route = Solicited(r: bv32) | Unsolicited(resp: bv32, ex: bv32) | Foreign(seen: bv32, resp: bv32)

  const RIRB_EX_UNSOL: bv32 := 0x10
  const RIRB_EX_CAD_MASK: bv32 := 0xf

  function RouteEntry(e: Entry, cad: bv32): Route {
    var seen := e.ex & RIRB_EX_CAD_MASK;
    if e.ex & RIRB_EX_UNSOL != 0 then Unsolicited(e.resp, e.ex)
    else if seen != cad then Foreign(seen, e.resp)
    else Solicited(e.resp)
  }

  /** The low byte of a word, as a number. */
  function LowByte(x: bv32): (n: nat)
    ensures n < 256
  {
    ((x % 256) as bv8) as int
  }

  /** In the low byte, 16 marks an unsolicited response and what is left modulo 16 is the codec. */
  predicate Unasked(e: Entry) {
    LowByte(e.ex) / 16 % 2 == 1
  }

  /** An answer to a verb sent to codec `cad`. */
  predicate Ours(e: Entry, cad: bv32) {
    !Unasked(e) && cad < 256 && LowByte(e.ex) % 16 == LowByte(cad)
  }

  lemma FifthBit(b: bv8)
    ensures (b as int) / 16 % 2 == 1 <==> b & 0x10 != 0
  {
  }

  lemma LowNibble(b: bv8, c: bv8)
    ensures (b as int) % 16 == c as int <==> b & 0xf == c
  {
  }

  lemma WordBits(x: bv32, cad: bv32)
    ensures LowByte(x) / 16 % 2 == 1 <==> x & RIRB_EX_UNSOL != 0
    ensures cad < 256 && LowByte(x) % 16 == LowByte(cad) <==> x & RIRB_EX_CAD_MASK == cad
  {
    var b, c := (x % 256) as bv8, (cad % 256) as bv8;
    assert (b & 0x10 != 0) <==> x & RIRB_EX_UNSOL != 0;
    FifthBit(b);
    LowNibble(b, c);
    if cad < 256 {
      assert (b & 0xf == c) <==> x & RIRB_EX_CAD_MASK == cad;
    }
  }

  /** Where an entry goes, by the numbers: unasked with both words, to its asker, or foreign. */
  lemma RouteIs(e: Entry, cad: bv32)
    ensures Unasked(e) ==> RouteEntry(e, cad) == Unsolicited(e.resp, e.ex)
    ensures Ours(e, cad) ==> RouteEntry(e, cad) == Solicited(e.resp)
    ensures !Unasked(e) && !Ours(e, cad) ==> RouteEntry(e, cad) == Foreign(e.ex % 16, e.resp)
  {
    WordBits(e.ex, cad);
    assert e.ex & RIRB_EX_CAD_MASK == e.ex % 16;
  }

  /** The solicited responses among `es`, in order. */
  function Responses(es: seq<Entry>, cad: bv32): seq<bv32> {
    if es == [] then []
    else Responses(es[..|es| - 1], cad) + if Ours(es[|es| - 1], cad) then [es[|es| - 1].resp] else []
  }

  lemma {:induction false} ResponsesSplit(a: seq<Entry>, b: seq<Entry>, cad: bv32)
    ensures Responses(a + b, cad) == Responses(a, cad) + Responses(b, cad)
  {
    if b == [] {
      assert a + b == a;
    } else {
      assert (a + b)[..|a + b| - 1] == a + b[..|b| - 1];
      ResponsesSplit(a, b[..|b| - 1], cad);
    }
  }

  /** How many steps lead from `rp` round to `wp`. */
  function Ahead(rp: nat, wp: nat, count: nat): (n: nat)
    requires rp < count && wp < count
    ensures n < count && Advance(rp, n, count) == wp
  {
    if wp >= rp then wp - rp else count - rp + wp
  }

  /** The `n` entries after index `rp`, wrapping. */
  function Collected<T>(mem: seq<T>, rp: nat, n: nat): (es: seq<T>)
    requires rp < |mem| && n <= |mem|
    ensures |es| == n
  {
    seq(n, j requires 0 <= j < n => mem[Advance(rp, j + 1, |mem|)])
  }

  /** Entries after the read pointer up to and including the write pointer. */
  method CollectEntries(mem: seq<Entry>, swRp: nat, hwWp: nat) returns (out: seq<Entry>)
    requires swRp < |mem| && hwWp < |mem|
    ensures out == Collected(mem, swRp, Ahead(swRp, hwWp, |mem|))
  {
    out := [];
    var rp := swRp;
    ghost var n := Ahead(swRp, hwWp, |mem|);
    while rp != hwWp
      invariant |out| <= n && rp == Advance(swRp, |out|, |mem|)
      invariant out == Collected(mem, swRp, n)[..|out|]
      decreases n - |out|
    {
      AdvanceIsMod(rp, 1, |mem|);
      rp := (rp + 1) % |mem|;
      out := out + [mem[rp]];
    }
  }

  // ---------------------------------------------------------------- verbs out

  /** The CORB half. `rp` is the hardware's; `sent` and `fetched` say what the indices stand for. */
  class CommandRing {
    const mem: array<bv32>
    var wp: nat
    var rp: nat
    ghost var sent: seq<bv32>
    ghost var fetched: nat

    /** Each verb sent and not yet fetched is in its own slot. */
    ghost predicate Valid()
      reads this, mem
    {
      && 2 <= mem.Length
      && rp < mem.Length
      && 0 <= |sent| - fetched < mem.Length
      && wp == Advance(rp, |sent| - fetched, mem.Length)
      && Collected(mem[..], rp, |sent| - fetched) == sent[fetched..]
    }

    constructor (count: nat)
      requires count >= 2
      ensures Valid() && fresh(mem) && mem.Length == count && sent == [] && fetched == 0
    {
      mem := new bv32[count](_ => 0);
      wp, rp, sent, fetched := 0, 0, [], 0;
    }

    /** False when full: one slot always stays unused. */
    method Send(word: bv32) returns (ok: bool)
      requires Valid()
      modifies this`wp, this`sent, mem
      ensures Valid()
      ensures ok <==> old(|sent|) - fetched < mem.Length - 1
      ensures sent == if ok then old(sent) + [word] else old(sent)
    {
      AdvanceIsMod(wp, 1, mem.Length);
      var next := (wp + 1) % mem.Length;
      if next == rp {
        return false;
      }
      AppendSlot(mem[..], rp, |sent| - fetched, word);
      mem[next] := word;
      wp := next;
      assert (sent + [word])[fetched..] == sent[fetched..] + [word];
      sent := sent + [word];
      return true;
    }

    /** The controller takes the oldest verb. */
    method HardwareFetch() returns (word: bv32)
      requires Valid() && fetched < |sent|
      modifies this`rp, this`fetched
      ensures Valid() && word == sent[old(fetched)] && fetched == old(fetched) + 1
    {
      AdvanceIsMod(rp, 1, mem.Length);
      TakeSlot(mem[..], rp, |sent| - fetched);
      rp := (rp + 1) % mem.Length;
      word := mem[rp];
      assert word == sent[fetched..][0] && sent[fetched..][1..] == sent[fetched + 1..];
      fetched := fetched + 1;
    }
  }

  /** The next slot is none of those still waiting. */
  lemma AppendSlot<T>(mem: seq<T>, rp: nat, n: nat, x: T)
    requires rp < |mem| && n + 1 < |mem|
    ensures var next := Advance(Advance(rp, n, |mem|), 1, |mem|);
            && next == Advance(rp, n + 1, |mem|)
            && Collected(mem[next := x], rp, n + 1) == Collected(mem, rp, n) + [x]
  {
  }

  lemma TakeSlot<T>(mem: seq<T>, rp: nat, n: nat)
    requires rp < |mem| && 0 < n < |mem|
    ensures var next := Advance(rp, 1, |mem|);
            && Collected(mem, rp, n) == [mem[next]] + Collected(mem, next, n - 1)
            && Advance(next, n - 1, |mem|) == Advance(rp, n, |mem|)
  {
  }

  // ---------------------------------------------------------------- responses back

  datatype PollOutcome = BadPointer | Nothing | Response(r: bv32)

  /** The RIRB half as the driver sees it. */
  class ResponseRing {
    const count: nat
    var swRp: nat
    var pending: seq<bv32>

    ghost predicate Valid()
      reads this
    {
      0 < count && swRp < count
    }

    constructor (n: nat)
      requires n > 0
      ensures Valid() && count == n && swRp == 0 && pending == []
    {
      count, swRp, pending := n, 0, [];
    }

    /** What `wait_response` does before it looks at the hardware. */
    method TakePending() returns (o: PollOutcome)
      modifies this`pending
      ensures old(pending) == [] ==> o == Nothing && pending == []
      ensures old(pending) != [] ==> o == Response(old(pending)[0]) && pending == old(pending)[1..]
    {
      if pending == [] {
        return Nothing;
      }
      o := Response(pending[0]);
      pending := pending[1..];
    }

    /** One turn of its loop, short of the deadline. */
    method Poll(mem: seq<Entry>, hwWp: nat, cad: bv32) returns (o: PollOutcome)
      requires Valid() && |mem| == count
      modifies this`swRp, this`pending
      ensures Valid()
      ensures hwWp >= count ==> o == BadPointer && swRp == old(swRp) && pending == old(pending)
      ensures hwWp < count ==> swRp == hwWp
      ensures hwWp < count ==>
        var q := old(pending) + Responses(Collected(mem, old(swRp), Ahead(old(swRp), hwWp, count)), cad);
        if hwWp == old(swRp) then o == Nothing && pending == old(pending)
        else if q == [] then o == Nothing && pending == []
        else o == Response(q[0]) && pending == q[1..]
    {
      if hwWp >= count {
        return BadPointer;
      }
      if hwWp == swRp {
        return Nothing;
      }
      var entries := CollectEntries(mem, swRp, hwWp);
      swRp := hwWp;
      ghost var before := pending;
      for i := 0 to |entries|
        invariant pending == before + Responses(entries[..i], cad) && Valid() && swRp == hwWp
      {
        assert entries[..i + 1][..i] == entries[..i];
        RouteIs(entries[i], cad);
        match RouteEntry(entries[i], cad)
        case Solicited(r) => pending := pending + [r];
        case Unsolicited(_, _) =>
        case Foreign(_, _) =>
      }
      assert entries[..|entries|] == entries;
      o := TakePending();
    }
  }
}
