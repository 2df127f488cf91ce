/**
 * The bounded byte ring of common/src/ring.rs, as a sequential object.
 *
 * A blocking call is one attempt under the lock: it completes, or it reports that the thread
 * parks on its condition variable. RingProtocol.dfy models the waiting and notifying.
 */
module Ring {
  import opened Bytes
  import opened Numbers

  /** What one attempt of `pop` does. */
  datatype PopOutcome = Interrupted | Parked | Popped(n: nat)

  function NextPowerOfTwo(n: nat): (p: nat)
    ensures IsPowerOfTwo(p) && p >= n
    ensures p == 1 || p < 2 * n
  {
    if n <= 1 then 1 else 2 * NextPowerOfTwo((n + 1) / 2)
  }

  predicate IsPowerOfTwo(p: nat) {
    p == 1 || (p > 1 && p % 2 == 0 && IsPowerOfTwo(p / 2))
  }

  /** A power of two is its own capacity. */
  lemma {:induction false} PowersStay(p: nat)
    requires IsPowerOfTwo(p)
    ensures NextPowerOfTwo(p) == p
  {
    if p > 1 {
      PowersStay(p / 2);
    }
  }

  /** The `n` bytes that start at `start` in `b`, going round at the end. */
  function Circular(b: seq<byte>, start: nat, n: nat): (s: seq<byte>)
    requires start < |b| && n <= |b|
    ensures |s| == n
  {
    if start + n <= |b| then b[start..start + n] else b[start..] + b[..start + n - |b|]
  }

  /** `pos` moved on by at most one turn. */
  function Advance(pos: nat, k: nat, cap: nat): nat
    requires pos < cap && k <= cap
  {
    if pos + k < cap then pos + k else pos + k - cap
  }

  lemma AdvanceIsMod(pos: nat, k: nat, cap: nat)
    requires pos < cap && k <= cap
    ensures Advance(pos, k, cap) == (pos + k) % cap
  {
    if pos + k < cap {
      DivModUnique(pos + k, cap, 0, pos + k);
    } else {
      DivModUnique(pos + k, cap, 1, pos + k - cap);
    }
  }

  /** `b` with `data` laid down from `at`, going round at the end. */
  function Stored(b: seq<byte>, at: nat, data: seq<byte>): (r: seq<byte>)
    requires at < |b| && |data| <= |b|
    ensures |r| == |b|
  {
    if at + |data| <= |b| then b[..at] + data + b[at + |data|..]
    else
      var first := |b| - at;
      data[first..] + b[|data| - first..at] + data[..first]
  }

  method CopyInto(dst: array<byte>, at: nat, src: seq<byte>)
    requires at + |src| <= dst.Length
    modifies dst
    ensures dst[..] == old(dst[..at]) + src + old(dst[at + |src|..])
  {
    forall i | 0 <= i < |src| {
      dst[at + i] := src[i];
    }
  }

  /** The one or two slice copies that lay `data` down from `at`. */
  method StoreCircular(buf: array<byte>, at: nat, data: seq<byte>)
    requires at < buf.Length && |data| <= buf.Length
    modifies buf
    ensures buf[..] == Stored(old(buf[..]), at, data)
  {
    var first := Min(|data|, buf.Length - at);
    CopyInto(buf, at, data[..first]);
    if first < |data| {
      SecondCopy(old(buf[..]), buf[..], at, data);
      CopyInto(buf, 0, data[first..]);
    }
  }

  lemma SecondCopy(b: seq<byte>, b1: seq<byte>, at: nat, data: seq<byte>)
    requires at < |b| && |data| <= |b| < at + |data|
    requires var first := |b| - at; b1 == b[..at] + data[..first] + b[at + first..]
    ensures var first := |b| - at; b1[..0] + data[first..] + b1[|data| - first..] == Stored(b, at, data)
  {
  }

  /** The one or two slice copies that read `n` bytes from `at`. */
  method LoadCircular(buf: array<byte>, at: nat, n: nat, dst: array<byte>)
    requires at < buf.Length && n <= buf.Length && n <= dst.Length && dst != buf
    modifies dst
    ensures dst[..] == Circular(buf[..], at, n) + old(dst[n..])
  {
    var first := Min(n, buf.Length - at);
    CopyInto(dst, 0, buf[at..at + first]);
    if first < n {
      LoadRest(dst, buf[at..], buf[..n - first], old(dst[..]));
    }
  }

  /** The second copy, behind the `x` that the first one placed. */
  method LoadRest(dst: array<byte>, x: seq<byte>, y: seq<byte>, ghost d: seq<byte>)
    requires |x| + |y| <= dst.Length == |d|
    requires dst[..] == d[..0] + x + d[|x|..]
    modifies dst
    ensures dst[..] == x + y + d[|x| + |y|..]
  {
    SecondLoad(x, y, d);
    CopyInto(dst, |x|, y);
  }

  lemma SecondLoad(x: seq<byte>, y: seq<byte>, d: seq<byte>)
    requires |x| + |y| <= |d|
    ensures var d1 := d[..0] + x + d[|x|..];
            d1[..|x|] + y + d1[|x| + |y|..] == (x + y) + d[|x| + |y|..]
  {
  }

  class AudioRingBuffer {
    const cap: nat
    const buf: array<byte>
    var readPos: nat
    var writePos: nat
    var filled: nat
    var interrupted: bool

    ghost predicate Valid()
      reads this
    {
      && 0 < cap == buf.Length
      && readPos < cap
      && filled <= cap
      && writePos == Advance(readPos, filled, cap)
    }

    ghost function Contents(): (q: seq<byte>)
      reads this, buf
      requires Valid()
      ensures |q| == filled
    {
      Circular(buf[..], readPos, filled)
    }

    constructor (capacity: nat)
      ensures Valid() && fresh(buf) && Contents() == [] && !interrupted
      ensures cap == NextPowerOfTwo(capacity)
    {
      var c := NextPowerOfTwo(capacity);
      cap := c;
      buf := new byte[c](_ => 0);
      readPos, writePos, filled, interrupted := 0, 0, 0, false;
    }

    /** False means the producer parks on `space_avail` and nothing has changed. */
    method Push(data: seq<byte>) returns (done: bool)
      requires Valid()
      modifies this`writePos, this`filled, buf
      ensures Valid()
      ensures done <==> data == [] || old(|Contents()|) + |data| <= cap
      ensures Contents() == if done then old(Contents()) + data else old(Contents())
    {
      if data == [] {
        return true;
      }
      if filled + |data| > cap {
        return false;
      }
      StoreAppends(buf[..], readPos, filled, data);
      StoreWrapping(data);
      filled := filled + |data|;
      return true;
    }

    method StoreWrapping(data: seq<byte>)
      requires 0 < cap == buf.Length && writePos < cap && |data| <= cap
      modifies this`writePos, buf
      ensures buf[..] == Stored(old(buf[..]), old(writePos), data)
      ensures writePos == Advance(old(writePos), |data|, cap)
    {
      StoreCircular(buf, writePos, data);
      var first := Min(|data|, cap - writePos);
      if first < |data| {
        writePos := |data| - first;
      } else {
        writePos := writePos + first;
      }
      if writePos >= cap {
        writePos := writePos - cap;
      }
    }

    /** The copy shared by both pops. */
    method CopyOut(dst: array<byte>) returns (n: nat)
      requires Valid() && dst != buf
      modifies this`readPos, this`filled, dst
      ensures Valid()
      ensures n == Min(dst.Length, old(|Contents()|))
      ensures dst[..] == old(Contents())[..n] + old(dst[n..])
      ensures Contents() == old(Contents())[n..]
    {
      n := Min(dst.Length, filled);
      LoadTakes(buf[..], readPos, filled, n);
      LoadWrapping(dst, n);
      filled := filled - n;
    }

    method LoadWrapping(dst: array<byte>, n: nat)
      requires 0 < cap == buf.Length && readPos < cap && n <= cap && n <= dst.Length && dst != buf
      modifies this`readPos, dst
      ensures dst[..] == Circular(buf[..], old(readPos), n) + old(dst[n..])
      ensures readPos == Advance(old(readPos), n, cap)
    {
      LoadCircular(buf, readPos, n, dst);
      var first := Min(n, cap - readPos);
      if first < n {
        readPos := n - first;
      } else {
        readPos := readPos + first;
      }
      if readPos >= cap {
        readPos := readPos - cap;
      }
    }

    method Pop(dst: array<byte>) returns (o: PopOutcome)
      requires Valid() && dst != buf
      modifies this`readPos, this`filled, this`interrupted, dst
      ensures Valid() && !interrupted
      ensures o.Interrupted? <==> old(interrupted)
      ensures o.Parked? <==> !old(interrupted) && old(Contents()) == []
      ensures o.Popped? ==>
                && o.n == Min(dst.Length, old(|Contents()|))
                && dst[..] == old(Contents())[..o.n] + old(dst[o.n..])
                && Contents() == old(Contents())[o.n..]
      ensures !o.Popped? ==> Contents() == old(Contents()) && dst[..] == old(dst[..])
    {
      if interrupted {
        interrupted := false;
        return Interrupted;
      }
      if filled > 0 {
        var n := CopyOut(dst);
        return Popped(n);
      }
      return Parked;
    }

    /** Never waits: 0 when interrupted or empty. */
    method TryPop(dst: array<byte>) returns (n: nat)
      requires Valid() && dst != buf
      modifies this`readPos, this`filled, this`interrupted, dst
      ensures Valid() && !interrupted
      ensures n == if old(interrupted) then 0 else Min(dst.Length, old(|Contents()|))
      ensures dst[..] == old(Contents())[..n] + old(dst[n..])
      ensures Contents() == old(Contents())[n..]
    {
      if interrupted {
        interrupted := false;
        return 0;
      }
      if filled == 0 {
        return 0;
      }
      n := CopyOut(dst);
    }

    /** Makes the next pop return at once, and changes no data. */
    method Interrupt()
      requires Valid()
      modifies this`interrupted
      ensures Valid() && interrupted && Contents() == old(Contents())
    {
      interrupted := true;
    }

    method Clear()
      requires Valid()
      modifies this`readPos, this`writePos, this`filled
      ensures Valid() && Contents() == []
    {
      readPos, writePos, filled := 0, 0, 0;
    }
  }

  /** `q` is what lies in the `n` slots from `start`. */
  ghost predicate Reads(q: seq<byte>, b: seq<byte>, start: nat, n: nat)
    requires start < |b| && n <= |b|
  {
    |q| == n && forall i :: 0 <= i < n ==> q[i] == b[Advance(start, i, |b|)]
  }

  /** How far slot `j` lies behind slot `at`, going round. */
  function Behind(at: nat, j: nat, cap: nat): nat
    requires at < cap && j < cap
  {
    if at <= j then j - at else j + cap - at
  }

  /** `r` is `b` with `data` in the slots that follow `at`, and nothing else changed. */
  ghost predicate Laid(r: seq<byte>, b: seq<byte>, at: nat, data: seq<byte>)
    requires at < |b| && |data| <= |b|
  {
    && |r| == |b|
    && forall j :: 0 <= j < |b| ==>
         r[j] == if Behind(at, j, |b|) < |data| then data[Behind(at, j, |b|)] else b[j]
  }

  lemma CircularReads(b: seq<byte>, start: nat, n: nat)
    requires start < |b| && n <= |b|
    ensures Reads(Circular(b, start, n), b, start, n)
  {
  }

  lemma StoredIsLaid(b: seq<byte>, at: nat, data: seq<byte>)
    requires at < |b| && |data| <= |b|
    ensures Laid(Stored(b, at, data), b, at, data)
  {
  }

  /** Storing at the write position appends, through either branch of the wrap. */
  lemma StoreAppends(b: seq<byte>, start: nat, n: nat, data: seq<byte>)
    requires start < |b| && n + |data| <= |b|
    ensures Circular(Stored(b, Advance(start, n, |b|), data), start, n + |data|) == Circular(b, start, n) + data
    ensures Advance(Advance(start, n, |b|), |data|, |b|) == Advance(start, n + |data|, |b|)
  {
    var at := Advance(start, n, |b|);
    var r := Stored(b, at, data);
    StoredIsLaid(b, at, data);
    CircularReads(b, start, n);
    CircularReads(r, start, n + |data|);
    LaidBehindAppends(b, start, Circular(b, start, n), data, r, Circular(r, start, n + |data|));
  }

  lemma LaidBehindAppends(b: seq<byte>, start: nat, q: seq<byte>, data: seq<byte>, r: seq<byte>, q': seq<byte>)
    requires start < |b| && |q| + |data| <= |b| == |r|
    requires Reads(q, b, start, |q|)
    requires Laid(r, b, Advance(start, |q|, |b|), data)
    requires Reads(q', r, start, |q| + |data|)
    ensures q' == q + data
  {
    forall i | 0 <= i < |q| + |data|
      ensures q'[i] == (q + data)[i]
    {
      var j := Advance(start, i, |b|);
      assert q'[i] == r[j];
      assert i >= |q| ==> Behind(Advance(start, |q|, |b|), j, |b|) == i - |q|;
      assert i < |q| ==> Behind(Advance(start, |q|, |b|), j, |b|) >= |data|;
    }
  }

  /** Advancing the read position removes exactly the prefix that was copied out. */
  lemma LoadTakes(b: seq<byte>, start: nat, n: nat, k: nat)
    requires start < |b| && k <= n <= |b|
    ensures Circular(b, start, k) == Circular(b, start, n)[..k]
    ensures Circular(b, Advance(start, k, |b|), n - k) == Circular(b, start, n)[k..]
    ensures Advance(Advance(start, k, |b|), n - k, |b|) == Advance(start, n, |b|)
  {
    var q := Circular(b, start, n);
    if start + n <= |b| {
      assert q == b[start..start + n];
    } else if start + k < |b| {
      assert q[..k] == b[start..start + k];
      assert q[k..] == b[start + k..] + b[..start + n - |b|];
    } else {
      assert q[..k] == b[start..] + b[..start + k - |b|];
      assert q[k..] == b[start + k - |b|..start + n - |b|];
    }
  }
}
