/**
 * Verbs and responses over whole runs (hda/src/corb.rs, hda/src/controller.rs): the driver sends
 * one verb at a time and polls; the hardware answers verbs in order or not at all, perhaps after
 * the driver gave up, among unsolicited and foreign entries.
 */
module CorbProtocol {
  import opened Numbers
  import opened Ring
  import opened Corb

  /** What a verb was told, and how many earlier waits had timed out when it was told. */
  datatype Result = Result(verb: int, value: bv32, lag: nat)

  /** The verb that a solicited response answers, and how many answers had been lost before it. */
  datatype Answer = Answer(verb: int, lost: nat)

  datatype State = State(
    mem: seq<Entry>,       // the RIRB
    hwWp: nat,
    swRp: nat,
    pending: seq<bv32>,
    waiting: bool,
    // what has happened
    sent: nat,             // verbs sent
    timeouts: nat,
    results: seq<Result>,
    produced: seq<Entry>,  // every entry the hardware has written
    consumed: nat,         // how many of them the driver has collected
    lost: nat,             // verbs whose answer was lost
    dealt: nat,            // verbs the hardware has answered or lost
    answers: seq<Answer>)  // what each solicited response answers

  function Start(mem: seq<Entry>): State {
    State(mem, 0, 0, [], false, 0, 0, [], [], 0, 0, 0, [])
  }

  datatype Step =
    | SendVerb
    | HardwareWrites(e: Entry)
    | AnswerLost           // the hardware is done with a verb and no response comes
    | TakePendingResponse
    | PollRing
    | GiveUp

  /** `cad` is the one codec addressed. The hardware keeps below `count` unread entries. */
  predicate Enabled(s: State, e: Step, cad: bv32)
  {
    match e
    case SendVerb => !s.waiting
    case HardwareWrites(x) =>
      && |s.produced| - s.consumed + 1 < |s.mem|
      && (Ours(x, cad) ==> s.dealt < s.sent)
      && s.hwWp < |s.mem|
    case AnswerLost => s.dealt < s.sent
    case TakePendingResponse => s.waiting && s.pending != []
    case PollRing => s.waiting && s.pending == [] && s.swRp < |s.mem| && s.hwWp < |s.mem|
    case GiveUp => s.waiting && s.pending == []
  }

  function Next(s: State, e: Step, cad: bv32): State
    requires Enabled(s, e, cad)
  {
    match e
    case SendVerb => s.(waiting := true, sent := s.sent + 1)
    case HardwareWrites(x) =>
      var next := Advance(s.hwWp, 1, |s.mem|);
      var t := s.(mem := s.mem[next := x], hwWp := next, produced := s.produced + [x]);
      if Ours(x, cad) then t.(dealt := s.dealt + 1, answers := s.answers + [Answer(s.dealt, s.lost)]) else t
    case AnswerLost => s.(dealt := s.dealt + 1, lost := s.lost + 1)
    case TakePendingResponse =>
      s.(waiting := false, pending := s.pending[1..],
         results := s.results + [Result(s.sent - 1, s.pending[0], s.timeouts)])
    case PollRing =>
      var entries := Collected(s.mem, s.swRp, Ahead(s.swRp, s.hwWp, |s.mem|));
      s.(swRp := s.hwWp, pending := Responses(entries, cad), consumed := |s.produced|)
    case GiveUp => s.(waiting := false, timeouts := s.timeouts + 1)
  }

  ghost predicate Run(s: State, steps: seq<Step>, cad: bv32)
    decreases |steps|
  {
    steps == [] || (Enabled(s, steps[0], cad) && Run(Next(s, steps[0], cad), steps[1..], cad))
  }

  ghost function After(s: State, steps: seq<Step>, cad: bv32): State
    requires Run(s, steps, cad)
    decreases |steps|
  {
    if steps == [] then s else After(Next(s, steps[0], cad), steps[1..], cad)
  }

  function Values(rs: seq<Result>): (v: seq<bv32>)
    ensures |v| == |rs| && forall k :: 0 <= k < |rs| ==> v[k] == rs[k].value
  {
    seq(|rs|, k requires 0 <= k < |rs| => rs[k].value)
  }

  /** The unread entries are in the ring after the read pointer. */
  predicate RingHolds(s: State) {
    && s.hwWp < |s.mem| && s.swRp < |s.mem|
    && 0 <= |s.produced| - s.consumed < |s.mem|
    && s.hwWp == Advance(s.swRp, |s.produced| - s.consumed, |s.mem|)
    && Collected(s.mem, s.swRp, |s.produced| - s.consumed) == s.produced[s.consumed..]
  }

  /**
   * Response k answers verb k plus the answers lost before it; without a timeout none can have been
   * lost before a response, as the one verb in flight would never return.
   */
  predicate Answering(s: State, cad: bv32) {
    && |s.answers| == |Responses(s.produced, cad)|
    && s.dealt == |s.answers| + s.lost <= s.sent
    && (forall k :: 0 <= k < |s.answers| ==> s.answers[k].verb == k + s.answers[k].lost && s.answers[k].lost <= s.lost)
    && (s.timeouts == 0 ==> forall k :: 0 <= k < |s.answers| ==> s.answers[k].lost == 0)
  }

  predicate Inv(s: State, cad: bv32) {
    && RingHolds(s)
    && Values(s.results) + s.pending + Responses(s.produced[s.consumed..], cad) == Responses(s.produced, cad)
    && Answering(s, cad)
    && |s.results| + s.timeouts + (if s.waiting then 1 else 0) == s.sent
    && forall k :: 0 <= k < |s.results| ==> s.results[k].verb == k + s.results[k].lag && s.results[k].lag <= s.timeouts
  }

  /** A poll reads every unread entry once, in order, across the wrap. */
  lemma PollReadsUnread(s: State)
    requires RingHolds(s)
    ensures Ahead(s.swRp, s.hwWp, |s.mem|) == |s.produced| - s.consumed
    ensures Collected(s.mem, s.swRp, Ahead(s.swRp, s.hwWp, |s.mem|)) == s.produced[s.consumed..]
  {
  }

  /**
   * With the pointers alone, a poll sees the unread entries modulo the ring: it sees them all
   * exactly when there are fewer than `count`.
   */
  lemma PollCountsModulo(count: nat, swRp: nat, unread: nat)
    requires swRp < count
    ensures Ahead(swRp, (swRp + unread) % count, count) == unread % count
    ensures Ahead(swRp, (swRp + unread) % count, count) == unread <==> unread < count
  {
    var m, q := unread % count, unread / count;
    assert swRp + unread == (swRp + m) + q * count;
    DivShift(swRp + m, count, q);
    AdvanceIsMod(swRp, m, count);
    if unread < count {
      DivModUnique(unread, count, 0, unread);
    }
  }

  lemma WriteKeepsRing(s: State, x: Entry, cad: bv32)
    requires RingHolds(s) && Enabled(s, HardwareWrites(x), cad)
    ensures RingHolds(Next(s, HardwareWrites(x), cad))
  {
    AppendSlot(s.mem, s.swRp, |s.produced| - s.consumed, x);
    assert (s.produced + [x])[s.consumed..] == s.produced[s.consumed..] + [x];
  }

  lemma WriteKeepsAnswering(s: State, x: Entry, cad: bv32)
    requires Answering(s, cad) && Enabled(s, HardwareWrites(x), cad)
    requires s.timeouts == 0 ==> s.sent <= |Responses(s.produced, cad)| + 1
    ensures Answering(Next(s, HardwareWrites(x), cad), cad)
  {
    OneMore(s.produced, x, cad);
  }

  lemma WriteKeepsOrder(s: State, x: Entry, cad: bv32)
    requires s.consumed <= |s.produced| && Enabled(s, HardwareWrites(x), cad)
    requires Values(s.results) + s.pending + Responses(s.produced[s.consumed..], cad) == Responses(s.produced, cad)
    ensures var p := s.produced + [x];
            Values(s.results) + s.pending + Responses(p[s.consumed..], cad) == Responses(p, cad)
  {
    assert (s.produced + [x])[s.consumed..] == s.produced[s.consumed..] + [x];
    OneMore(s.produced, x, cad);
    OneMore(s.produced[s.consumed..], x, cad);
  }

  lemma WriteKeepsInv(s: State, x: Entry, cad: bv32)
    requires Inv(s, cad) && Enabled(s, HardwareWrites(x), cad)
    ensures Inv(Next(s, HardwareWrites(x), cad), cad)
  {
    WriteKeepsRing(s, x, cad);
    WriteKeepsOrder(s, x, cad);
    assert |Values(s.results) + s.pending + Responses(s.produced[s.consumed..], cad)| >= |s.results|;
    WriteKeepsAnswering(s, x, cad);
  }

  lemma TakeKeepsInv(s: State, cad: bv32)
    requires Inv(s, cad) && Enabled(s, TakePendingResponse, cad)
    ensures Inv(Next(s, TakePendingResponse, cad), cad)
  {
    var t, rest := Next(s, TakePendingResponse, cad), Responses(s.produced[s.consumed..], cad);
    assert Values(t.results) == Values(s.results) + [s.pending[0]];
    MoveFirst(Values(s.results), s.pending, rest);
  }

  lemma MoveFirst<T>(a: seq<T>, b: seq<T>, c: seq<T>)
    requires b != []
    ensures (a + [b[0]]) + b[1..] + c == a + b + c
  {
    assert b == [b[0]] + b[1..];
  }

  lemma PollKeepsInv(s: State, cad: bv32)
    requires Inv(s, cad) && Enabled(s, PollRing, cad)
    ensures Inv(Next(s, PollRing, cad), cad)
  {
    PollReadsUnread(s);
    var t := Next(s, PollRing, cad);
    assert t.produced[t.consumed..] == [];
    assert Values(s.results) + [] == Values(s.results);
    assert Values(t.results) + t.pending + [] == Values(t.results) + t.pending;
  }

  lemma StepKeepsInv(s: State, e: Step, cad: bv32)
    requires Inv(s, cad) && Enabled(s, e, cad)
    ensures Inv(Next(s, e, cad), cad)
  {
    match e
    case SendVerb =>
    case HardwareWrites(x) => WriteKeepsInv(s, x, cad);
    case TakePendingResponse => TakeKeepsInv(s, cad);
    case PollRing => PollKeepsInv(s, cad);
    case AnswerLost =>
    case GiveUp =>
  }

  lemma OneMore(es: seq<Entry>, x: Entry, cad: bv32)
    ensures Responses(es + [x], cad) == Responses(es, cad) + if Ours(x, cad) then [x.resp] else []
  {
    assert (es + [x])[..|es|] == es;
  }

  lemma {:induction false} RunKeepsInv(s: State, steps: seq<Step>, cad: bv32)
    requires Inv(s, cad) && Run(s, steps, cad)
    ensures Inv(After(s, steps, cad), cad)
    decreases |steps|
  {
    if steps != [] {
      StepKeepsInv(s, steps[0], cad);
      RunKeepsInv(Next(s, steps[0], cad), steps[1..], cad);
    }
  }

  lemma StartInv(mem: seq<Entry>, cad: bv32)
    requires 0 < |mem|
    ensures Inv(Start(mem), cad)
  {
    assert Responses([], cad) == [];
  }

  /**
   * In every run the k-th value handed to a caller is the k-th solicited response. It answers verb
   * k plus the answers lost before it was produced, and was handed to verb k plus the timeouts
   * before it was handed over. So a verb is told its own answer exactly when these two counts agree.
   */
  lemma AnswersLagByTimeouts(mem: seq<Entry>, steps: seq<Step>, cad: bv32, k: nat)
    requires 0 < |mem| && Run(Start(mem), steps, cad)
    requires k < |After(Start(mem), steps, cad).results|
    ensures var s := After(Start(mem), steps, cad);
            && k < |Responses(s.produced, cad)| == |s.answers|
            && s.results[k].value == Responses(s.produced, cad)[k]
            && s.results[k].verb == k + s.results[k].lag
            && s.answers[k].verb == k + s.answers[k].lost
            && (s.results[k].verb == s.answers[k].verb <==> s.results[k].lag == s.answers[k].lost)
            && s.results[k].lag <= s.timeouts == Count(steps, GiveUp)
            && s.answers[k].lost <= s.lost == Count(steps, AnswerLost)
  {
    StartInv(mem, cad);
    RunKeepsInv(Start(mem), steps, cad);
    StepsAreCounted(Start(mem), steps, cad);
    HandedInOrder(After(Start(mem), steps, cad), k, cad);
  }

  function Count(steps: seq<Step>, e: Step): nat {
    if steps == [] then 0 else (if steps[0] == e then 1 else 0) + Count(steps[1..], e)
  }

  lemma {:induction false} StepsAreCounted(s: State, steps: seq<Step>, cad: bv32)
    requires Run(s, steps, cad)
    ensures After(s, steps, cad).lost == s.lost + Count(steps, AnswerLost)
    ensures After(s, steps, cad).timeouts == s.timeouts + Count(steps, GiveUp)
    decreases |steps|
  {
    if steps != [] {
      StepsAreCounted(Next(s, steps[0], cad), steps[1..], cad);
    }
  }

  /**
   * When the hardware loses no answer, response k answers verb k, and the caller can tell from its
   * own timeouts: the response handed over now is the verb's own exactly when no wait so far has
   * timed out.
   */
  lemma OwnAnswerIffNoTimeout(mem: seq<Entry>, steps: seq<Step>, cad: bv32)
    requires 0 < |mem| && Run(Start(mem), steps, cad) && Count(steps, AnswerLost) == 0
    requires Enabled(After(Start(mem), steps, cad), TakePendingResponse, cad)
    ensures var s := After(Start(mem), steps, cad);
            var t, k := Next(s, TakePendingResponse, cad), |s.results|;
            && (forall i :: 0 <= i < |t.answers| ==> t.answers[i].verb == i)
            && |t.results| == k + 1 <= |t.answers| == |Responses(t.produced, cad)|
            && t.results[k].value == Responses(t.produced, cad)[k]
            && (t.results[k].verb == t.answers[k].verb <==> Count(steps, GiveUp) == 0)
  {
    StartInv(mem, cad);
    RunKeepsInv(Start(mem), steps, cad);
    StepsAreCounted(Start(mem), steps, cad);
    var s := After(Start(mem), steps, cad);
    StepKeepsInv(s, TakePendingResponse, cad);
    var t := Next(s, TakePendingResponse, cad);
    HandedInOrder(t, |s.results|, cad);
  }

  lemma HandedInOrder(s: State, k: nat, cad: bv32)
    requires Inv(s, cad) && k < |s.results|
    ensures k < |Responses(s.produced, cad)| == |s.answers| && s.results[k].value == Responses(s.produced, cad)[k]
  {
    assert (Values(s.results) + s.pending + Responses(s.produced[s.consumed..], cad))[k] == Values(s.results)[k];
  }

  predicate NeverGivesUp(steps: seq<Step>) {
    forall i :: 0 <= i < |steps| ==> !steps[i].GiveUp?
  }

  lemma {:induction false} NoGiveUpNoTimeout(s: State, steps: seq<Step>, cad: bv32)
    requires Run(s, steps, cad) && NeverGivesUp(steps)
    ensures After(s, steps, cad).timeouts == s.timeouts
    decreases |steps|
  {
    if steps != [] {
      NoGiveUpNoTimeout(Next(s, steps[0], cad), steps[1..], cad);
    }
  }

  /**
   * Timeout-free: verb k gets response k, which answers it, and between verbs nothing is pending
   * or unread.
   */
  lemma PairingWithoutTimeouts(mem: seq<Entry>, steps: seq<Step>, cad: bv32)
    requires 0 < |mem| && Run(Start(mem), steps, cad) && NeverGivesUp(steps)
    ensures var s := After(Start(mem), steps, cad);
            && |s.results| <= |s.answers|
            && (forall k :: 0 <= k < |s.results| ==> s.results[k].verb == k == s.answers[k].verb)
            && Values(s.results) <= Responses(s.produced, cad)
            && (!s.waiting ==> s.pending == [] && |s.results| == s.sent
                               && Values(s.results) == Responses(s.produced, cad))
  {
    StartInv(mem, cad);
    RunKeepsInv(Start(mem), steps, cad);
    NoGiveUpNoTimeout(Start(mem), steps, cad);
    PairedSoFar(After(Start(mem), steps, cad), cad);
  }

  lemma PairedSoFar(s: State, cad: bv32)
    requires Inv(s, cad) && s.timeouts == 0
    ensures |s.results| <= |s.answers|
    ensures forall k :: 0 <= k < |s.results| ==> s.results[k].verb == k == s.answers[k].verb
    ensures Values(s.results) <= Responses(s.produced, cad)
    ensures !s.waiting ==> s.pending == [] && |s.results| == s.sent && Values(s.results) == Responses(s.produced, cad)
  {
    var rest := Responses(s.produced[s.consumed..], cad);
    assert Values(s.results) + s.pending + rest == Values(s.results) + (s.pending + rest);
    if !s.waiting {
      assert |s.pending + rest| == 0;
    }
  }

  /** A late answer: verb 0 times out, its response arrives, and verb 1 is told it. */
  lemma LateAnswerMispairs(mem: seq<Entry>, cad: bv32, e: Entry) returns (steps: seq<Step>)
    requires |mem| > 1 && Ours(e, cad)
    ensures Run(Start(mem), steps, cad)
    ensures After(Start(mem), steps, cad).results == [Result(1, e.resp, 1)]
    ensures After(Start(mem), steps, cad).answers == [Answer(0, 0)]
  {
    var s1 := Next(Start(mem), SendVerb, cad);
    var s2 := Next(s1, GiveUp, cad);
    var s3 := Next(s2, SendVerb, cad);
    steps := LateAnswerArrives(s3, cad, e);
    RunCons(s2, SendVerb, steps, cad);
    RunCons(s1, GiveUp, [SendVerb] + steps, cad);
    RunCons(Start(mem), SendVerb, [GiveUp] + ([SendVerb] + steps), cad);
    steps := [SendVerb] + ([GiveUp] + ([SendVerb] + steps));
  }

  lemma LateAnswerPolled(s: State, cad: bv32, e: Entry)
    requires |s.mem| > 1 && s == State(s.mem, 0, 0, [], true, 2, 1, [], [], 0, 0, 0, []) && Ours(e, cad)
    ensures Enabled(s, HardwareWrites(e), cad) && Enabled(Next(s, HardwareWrites(e), cad), PollRing, cad)
    ensures var t := Next(Next(s, HardwareWrites(e), cad), PollRing, cad);
            && t.pending == [e.resp] && t.waiting && t.results == [] && t.answers == [Answer(0, 0)]
            && t.sent == 2 && t.timeouts == 1
  {
    OneMore([], e, cad);
    assert [] + [e] == [e];
    var mem := s.mem[1 := e];
    assert Collected(mem, 0, 1) == [e];
  }

  /** The rest of that run: one response for two verbs sent. */
  lemma LateAnswerArrives(s: State, cad: bv32, e: Entry) returns (steps: seq<Step>)
    requires |s.mem| > 1 && s == State(s.mem, 0, 0, [], true, 2, 1, [], [], 0, 0, 0, []) && Ours(e, cad)
    ensures Run(s, steps, cad) && After(s, steps, cad).results == [Result(1, e.resp, 1)]
    ensures After(s, steps, cad).answers == [Answer(0, 0)]
  {
    var s4 := Next(s, HardwareWrites(e), cad);
    LateAnswerPolled(s, cad, e);
    var s5 := Next(s4, PollRing, cad);
    RunCons(s5, TakePendingResponse, [], cad);
    steps := [TakePendingResponse] + [];
    RunCons(s4, PollRing, steps, cad);
    steps := [PollRing] + steps;
    RunCons(s, HardwareWrites(e), steps, cad);
    steps := [HardwareWrites(e)] + steps;
  }

  lemma RunCons(s: State, e: Step, rest: seq<Step>, cad: bv32)
    requires Enabled(s, e, cad) && Run(Next(s, e, cad), rest, cad)
    ensures Run(s, [e] + rest, cad)
    ensures After(s, [e] + rest, cad) == After(Next(s, e, cad), rest, cad)
  {
    assert ([e] + rest)[1..] == rest;
  }
}
