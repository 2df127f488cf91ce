/**
 * The lock/wait/notify protocol of common/src/ring.rs: one producer in `push`, one consumer in
 * `pop` or `try_pop`, either of them calling `clear`. Only the byte count matters here.
 * A step is what one thread does between two points where the other can run.
 */
module RingProtocol {
  import opened Numbers

  /** Producer inside `push` of `n` bytes, or between calls. */
  datatype Producer =
    | PIdle
    | PLocking(n: nat)   // wants the mutex, first time or woken from the condvar
    | PChecking(n: nat)  // holds the mutex, about to test for room
    | PParked(n: nat)    // waits on space_avail, mutex released
    | PNotifying         // bytes stored, mutex released, data_avail not yet notified

  /** Consumer inside `pop`/`try_pop` with a `k`-byte buffer, or between calls. */
  datatype Consumer =
    | CIdle
    | CLocking(k: nat, blocking: bool)
    | CChecking(k: nat, blocking: bool)
    | CParked(k: nat)    // waits on data_avail
    | CNotifying         // bytes copied out, space_avail not yet notified

  datatype State = State(filled: nat, p: Producer, c: Consumer)

  predicate LockFree(s: State) {
    !s.p.PChecking? && !s.c.CChecking?
  }

  function WakeProducer(s: State): State {
    if s.p.PParked? then s.(p := PLocking(s.p.n)) else s
  }

  function WakeConsumer(s: State): State {
    if s.c.CParked? then s.(c := CLocking(s.c.k, true)) else s
  }

  datatype Step =
    | StartPush(n: nat)
    | ProducerLock
    | ProducerCheck          // store and unlock, or park
    | ProducerNotify
    | StartPop(k: nat, blocking: bool)
    | ConsumerLock
    | ConsumerCheck          // copy and unlock, park, or give up
    | ConsumerNotify
    | ClearFromProducer
    | ClearFromConsumer
    | SpuriousProducerWake
    | SpuriousConsumerWake

  predicate Enabled(s: State, e: Step) {
    match e
    case StartPush(n) => s.p.PIdle? && n > 0          // an empty push returns at once
    case ProducerLock => s.p.PLocking? && LockFree(s)
    case ProducerCheck => s.p.PChecking?
    case ProducerNotify => s.p.PNotifying?
    case StartPop(k, blocking) => s.c.CIdle?
    case ConsumerLock => s.c.CLocking? && LockFree(s)
    case ConsumerCheck => s.c.CChecking?
    case ConsumerNotify => s.c.CNotifying?
    case ClearFromProducer => s.p.PIdle? && LockFree(s)
    case ClearFromConsumer => s.c.CIdle? && LockFree(s)
    case SpuriousProducerWake => s.p.PParked?
    case SpuriousConsumerWake => s.c.CParked?
  }

  function Next(s: State, e: Step, cap: nat): State
    requires Enabled(s, e)
  {
    match e
    case StartPush(n) => s.(p := PLocking(n))
    case ProducerLock => s.(p := PChecking(s.p.n))
    case ProducerCheck =>
      if s.filled + s.p.n > cap then s.(p := PParked(s.p.n))
      else s.(filled := s.filled + s.p.n, p := PNotifying)
    case ProducerNotify => WakeConsumer(s.(p := PIdle))
    case StartPop(k, blocking) => s.(c := CLocking(k, blocking))
    case ConsumerLock => s.(c := CChecking(s.c.k, s.c.blocking))
    case ConsumerCheck =>
      if s.filled > 0 then s.(filled := s.filled - Min(s.c.k, s.filled), c := CNotifying)
      else if s.c.blocking then s.(c := CParked(s.c.k))
      else s.(c := CIdle)
    case ConsumerNotify => WakeProducer(s.(c := CIdle))
    case ClearFromProducer => WakeConsumer(WakeProducer(s.(filled := 0)))
    case ClearFromConsumer => WakeConsumer(WakeProducer(s.(filled := 0)))
    case SpuriousProducerWake => WakeProducer(s)
    case SpuriousConsumerWake => WakeConsumer(s)
  }

  const Start := State(0, PIdle, CIdle)

  /** A run from `s`: every step is enabled where it is taken. */
  ghost predicate Run(s: State, steps: seq<Step>, cap: nat)
    decreases |steps|
  {
    steps == [] || (Enabled(s, steps[0]) && Run(Next(s, steps[0], cap), steps[1..], cap))
  }

  ghost function After(s: State, steps: seq<Step>, cap: nat): State
    requires Run(s, steps, cap)
    decreases |steps|
  {
    if steps == [] then s else After(Next(s, steps[0], cap), steps[1..], cap)
  }

  /** The waits' own conditions. */
  predicate MustWaitForSpace(s: State, n: nat, cap: nat) { s.filled + n > cap }
  predicate MustWaitForData(s: State) { s.filled == 0 }

  /** Mutual exclusion, and no lost wakeup: a thread parked without cause is owed a notify. */
  predicate Inv(s: State, cap: nat) {
    && s.filled <= cap
    && !(s.p.PChecking? && s.c.CChecking?)
    && (s.p.PParked? && !MustWaitForSpace(s, s.p.n, cap) ==> s.c.CNotifying?)
    && (s.c.CParked? && !MustWaitForData(s) ==> s.p.PNotifying?)
    && (s.p.PLocking? || s.p.PChecking? || s.p.PParked? ==> s.p.n > 0)
  }

  lemma StepKeepsInv(s: State, e: Step, cap: nat)
    requires Inv(s, cap) && Enabled(s, e)
    ensures Inv(Next(s, e, cap), cap)
  {
  }

  /** No lost wakeup in any reachable state, whatever the push lengths. */
  lemma {:induction false} NoLostWakeup(s: State, steps: seq<Step>, cap: nat)
    requires Inv(s, cap) && Run(s, steps, cap)
    ensures var t := After(s, steps, cap);
            && Inv(t, cap)
            && (t.p.PParked? && !t.c.CNotifying? ==> MustWaitForSpace(t, t.p.n, cap))
            && (t.c.CParked? && !t.p.PNotifying? ==> MustWaitForData(t))
    decreases |steps|
  {
    if steps != [] {
      StepKeepsInv(s, steps[0], cap);
      NoLostWakeup(Next(s, steps[0], cap), steps[1..], cap);
    }
  }

  predicate SmallPushes(steps: seq<Step>, cap: nat) {
    forall i :: 0 <= i < |steps| && steps[i].StartPush? ==> steps[i].n <= cap
  }

  predicate SmallProducer(s: State, cap: nat) {
    s.p.PLocking? || s.p.PChecking? || s.p.PParked? ==> s.p.n <= cap
  }

  lemma {:induction false} LengthsStaySmall(s: State, steps: seq<Step>, cap: nat)
    requires Run(s, steps, cap) && SmallProducer(s, cap) && SmallPushes(steps, cap)
    ensures SmallProducer(After(s, steps, cap), cap)
    decreases |steps|
  {
    if steps != [] {
      LengthsStaySmall(Next(s, steps[0], cap), steps[1..], cap);
    }
  }

  /** A step a thread takes inside a call, as opposed to starting one or waking for no reason. */
  predicate Progress(e: Step) {
    e.ProducerLock? || e.ProducerCheck? || e.ProducerNotify?
    || e.ConsumerLock? || e.ConsumerCheck? || e.ConsumerNotify?
  }

  predicate BothParked(s: State) {
    s.p.PParked? && s.c.CParked?
  }

  predicate Active(s: State) {
    (!s.p.PIdle? && !s.p.PParked?) || (!s.c.CIdle? && !s.c.CParked?)
  }

  /**
   * With pushes no longer than the ring, no reachable state has both threads parked; and while
   * any thread is inside a call and not parked, some thread can move.
   */
  lemma NeverDeadlocks(steps: seq<Step>, cap: nat)
    requires Run(Start, steps, cap) && SmallPushes(steps, cap)
    ensures var s := After(Start, steps, cap);
            !BothParked(s) && (Active(s) ==> exists e :: Progress(e) && Enabled(s, e))
  {
    NoLostWakeup(Start, steps, cap);
    LengthsStaySmall(Start, steps, cap);
    var s := After(Start, steps, cap);
    assert Enabled(s, ProducerLock) || Enabled(s, ProducerCheck) || Enabled(s, ProducerNotify)
        || Enabled(s, ConsumerLock) || Enabled(s, ConsumerCheck) || Enabled(s, ConsumerNotify)
        || ((s.p.PIdle? || s.p.PParked?) && (s.c.CIdle? || s.c.CParked?));
  }

  /** A push longer than the ring blocks both threads for good: six steps from an empty ring. */
  lemma LongPushDeadlocks(cap: nat, n: nat, k: nat)
    requires n > cap
    ensures var steps := [StartPush(n), ProducerLock, ProducerCheck, StartPop(k, true), ConsumerLock, ConsumerCheck];
            Run(Start, steps, cap) && BothParked(After(Start, steps, cap))
  {
    var s0 := Start;
    var s1 := Next(s0, StartPush(n), cap);
    var s2 := Next(s1, ProducerLock, cap);
    var s3 := Next(s2, ProducerCheck, cap);
    var s4 := Next(s3, StartPop(k, true), cap);
    var s5 := Next(s4, ConsumerLock, cap);
    RunCons(s5, ConsumerCheck, [], cap);
    RunCons(s4, ConsumerLock, [ConsumerCheck], cap);
    RunCons(s3, StartPop(k, true), [ConsumerLock, ConsumerCheck], cap);
    RunCons(s2, ProducerCheck, [StartPop(k, true), ConsumerLock, ConsumerCheck], cap);
    RunCons(s1, ProducerLock, [ProducerCheck, StartPop(k, true), ConsumerLock, ConsumerCheck], cap);
    RunCons(s0, StartPush(n), [ProducerLock, ProducerCheck, StartPop(k, true), ConsumerLock, ConsumerCheck], cap);
  }

  lemma RunCons(s: State, e: Step, rest: seq<Step>, cap: nat)
    requires Enabled(s, e) && Run(Next(s, e, cap), rest, cap)
    ensures Run(s, [e] + rest, cap)
    ensures After(s, [e] + rest, cap) == After(Next(s, e, cap), rest, cap)
  {
    assert ([e] + rest)[1..] == rest;
  }

  predicate InPush(p: Producer, n: nat) {
    p == PLocking(n) || p == PChecking(n) || p == PParked(n)
  }

  /** And it stays blocked: a push longer than the ring never completes. */
  lemma {:induction false} LongPushNeverReturns(s: State, steps: seq<Step>, cap: nat, n: nat)
    requires n > cap && InPush(s.p, n) && Run(s, steps, cap)
    ensures InPush(After(s, steps, cap).p, n)
    decreases |steps|
  {
    if steps != [] {
      LongPushNeverReturns(Next(s, steps[0], cap), steps[1..], cap, n);
    }
  }

  /** Completed pops that copied something out. */
  ghost function NonEmptyPops(s: State, steps: seq<Step>, cap: nat): nat
    requires Run(s, steps, cap)
    decreases |steps|
  {
    if steps == [] then 0
    else (if steps[0].ConsumerCheck? && s.filled > 0 && s.c.k > 0 then 1 else 0)
         + NonEmptyPops(Next(s, steps[0], cap), steps[1..], cap)
  }

  /** One push that is still waiting at the end of the run. */
  ghost predicate StillPushing(s: State, steps: seq<Step>, cap: nat, n: nat)
    requires Run(s, steps, cap)
    decreases |steps|
  {
    InPush(s.p, n) && (steps != [] ==> StillPushing(Next(s, steps[0], cap), steps[1..], cap, n))
  }

  lemma {:induction false} PopsMakeRoom(s: State, steps: seq<Step>, cap: nat, n: nat)
    requires Inv(s, cap) && Run(s, steps, cap) && StillPushing(s, steps, cap, n)
    ensures After(s, steps, cap).filled + NonEmptyPops(s, steps, cap) <= s.filled
    decreases |steps|
  {
    if steps != [] {
      StepKeepsInv(s, steps[0], cap);
      PopsMakeRoom(Next(s, steps[0], cap), steps[1..], cap, n);
    }
  }

  /**
   * A push waiting in `s` that has seen filled + n - cap non-empty pops has room; if it is still
   * parked, the consumer is on its way to notify it.
   */
  lemma BlockedPushGetsRoom(s: State, steps: seq<Step>, cap: nat, n: nat)
    requires Inv(s, cap) && n <= cap && Run(s, steps, cap) && StillPushing(s, steps, cap, n)
    requires NonEmptyPops(s, steps, cap) >= s.filled + n - cap
    ensures var t := After(s, steps, cap);
            !MustWaitForSpace(t, n, cap) && (t.p.PParked? ==> t.c.CNotifying?)
  {
    PopsMakeRoom(s, steps, cap, n);
    NoLostWakeup(s, steps, cap);
    StaysInPush(s, steps, cap, n);
  }

  lemma {:induction false} StaysInPush(s: State, steps: seq<Step>, cap: nat, n: nat)
    requires Run(s, steps, cap) && StillPushing(s, steps, cap, n)
    ensures InPush(After(s, steps, cap).p, n)
    decreases |steps|
  {
    if steps != [] {
      StaysInPush(Next(s, steps[0], cap), steps[1..], cap, n);
    }
  }
}
