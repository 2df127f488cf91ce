/**
 * The steps of RingProtocol are what one locked attempt on the ring object does to its fill
 * (common/src/ring.rs).
 */
module RingSteps {
  import opened Bytes
  import opened Ring
  import RingProtocol

  /** A producer that holds the lock pushes, or parks and changes nothing. */
  method ProducerChecks(r: AudioRingBuffer, data: seq<byte>, ghost s: RingProtocol.State) returns (done: bool)
    requires r.Valid() && data != [] && s.filled == |r.Contents()| && s.p == RingProtocol.PChecking(|data|)
    modifies r`writePos, r`filled, r.buf
    ensures r.Valid()
    ensures var t := RingProtocol.Next(s, RingProtocol.ProducerCheck, r.cap);
            && |r.Contents()| == t.filled
            && t.p == if done then RingProtocol.PNotifying else RingProtocol.PParked(|data|)
    ensures r.Contents() == if done then old(r.Contents()) + data else old(r.Contents())
  {
    done := r.Push(data);
  }

  /** A consumer that holds the lock pops, or parks and changes nothing. */
  method ConsumerChecks(r: AudioRingBuffer, dst: array<byte>, ghost s: RingProtocol.State) returns (o: PopOutcome)
    requires r.Valid() && dst != r.buf && !r.interrupted
    requires s.filled == |r.Contents()| && s.c == RingProtocol.CChecking(dst.Length, true)
    modifies r`readPos, r`filled, r`interrupted, dst
    ensures r.Valid()
    ensures var t := RingProtocol.Next(s, RingProtocol.ConsumerCheck, r.cap);
            && |r.Contents()| == t.filled
            && t.c == (if o.Popped? then RingProtocol.CNotifying else RingProtocol.CParked(dst.Length))
            && (o.Popped? ==> o.n == s.filled - t.filled && dst[..o.n] == old(r.Contents())[..o.n])
  {
    o := r.Pop(dst);
  }

  /** One that does not wait gives up on an empty ring. */
  method ConsumerTries(r: AudioRingBuffer, dst: array<byte>, ghost s: RingProtocol.State) returns (n: nat)
    requires r.Valid() && dst != r.buf && !r.interrupted
    requires s.filled == |r.Contents()| && s.c == RingProtocol.CChecking(dst.Length, false)
    modifies r`readPos, r`filled, r`interrupted, dst
    ensures r.Valid()
    ensures var t := RingProtocol.Next(s, RingProtocol.ConsumerCheck, r.cap);
            && |r.Contents()| == t.filled && n == s.filled - t.filled
            && t.c == (if s.filled > 0 then RingProtocol.CNotifying else RingProtocol.CIdle)
            && dst[..n] == old(r.Contents())[..n]
  {
    n := r.TryPop(dst);
  }
}
