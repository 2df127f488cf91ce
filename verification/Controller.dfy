/** The command-engine choice and sticky fallback of hda/src/controller.rs. */
module Controller {

  datatype Engine = Corb | Pio

  const CORB_TIMEOUT_LIMIT: nat := 3

  /** What one `corb_verb` comes to; a full ring fails before the verb is published. */
  datatype CorbOutcome = Answered(r: bv32) | TimedOut | RingFull | BadPointer

  datatype PioOutcome = PioAnswered(r: bv32) | PioTimedOut

  datatype Reply = Ok(r: bv32) | Timeout | HardError

  /** Verb number `verb` went out over `engine`. */
  datatype Sent = Sent(engine: Engine, verb: nat)

  datatype State = State(
    engine: Engine, timeouts: nat, fallbackDone: bool,
    verbs: nat, log: seq<Sent>, degrades: nat)

  /** `--cmd-engine`, or nothing. */
  datatype Choice = Default | Force(engine: Engine)

  function Boot(choice: Choice, ringComesUp: bool): State {
    if choice == Force(Pio) then State(Pio, 0, false, 0, [], 0)
    else if ringComesUp then State(Corb, 0, false, 0, [], 0)
    else State(Pio, 0, true, 0, [], 0)
  }

  function PioReply(p: PioOutcome): Reply {
    match p
    case PioAnswered(r) => Ok(r)
    case PioTimedOut => Timeout
  }

  function ViaPio(s: State): State {
    s.(log := s.log + [Sent(Pio, s.verbs)])
  }

  function Degraded(s: State): State {
    s.(engine := Pio, timeouts := 0, fallbackDone := true, degrades := s.degrades + 1)
  }

  /** The CORB attempt puts the verb on the link unless the ring was full. */
  function Attempted(s: State, c: CorbOutcome): State {
    if c.RingFull? then s else s.(log := s.log + [Sent(Corb, s.verbs)])
  }

  function Done(s: State): State {
    s.(verbs := s.verbs + 1)
  }

  /** One `verb_raw`, given how each engine would fare. */
  function VerbRaw(s: State, c: CorbOutcome, p: PioOutcome): (State, Reply) {
    if s.engine == Pio then (Done(ViaPio(s)), PioReply(p))
    else
      var a := Attempted(s, c);
      match c
      case Answered(r) => (Done(a.(timeouts := 0)), Ok(r))
      case TimedOut =>
        var b := a.(timeouts := s.timeouts + 1);
        if b.timeouts >= CORB_TIMEOUT_LIMIT && !b.fallbackDone then (Done(ViaPio(Degraded(b))), PioReply(p))
        else (Done(b), Timeout)
      case _ =>
        if !a.fallbackDone then (Done(ViaPio(Degraded(a))), PioReply(p))
        else (Done(a), HardError)
  }

  class CommandPort {
    var engine: Engine
    var timeouts: nat
    var fallbackDone: bool
    ghost var verbs: nat
    ghost var log: seq<Sent>
    ghost var degrades: nat

    ghost function Here(): State
      reads this
    {
      State(engine, timeouts, fallbackDone, verbs, log, degrades)
    }

    /** `open`, ending in `init_cmd_engine`. */
    constructor (choice: Choice, ringComesUp: bool)
      ensures Here() == Boot(choice, ringComesUp)
    {
      engine, timeouts, fallbackDone, verbs, log, degrades := Pio, 0, false, 0, [], 0;
      new;
      if choice != Force(Pio) {
        if ringComesUp {
          engine := Corb;
        } else {
          fallbackDone := true;
        }
      }
    }

    method DegradeToPio()
      modifies this
      ensures Here() == Degraded(old(Here()))
    {
      engine, timeouts, fallbackDone := Pio, 0, true;
      degrades := degrades + 1;
    }

    method PioVerb(p: PioOutcome) returns (reply: Reply)
      modifies this`log
      ensures Here() == ViaPio(old(Here())) && reply == PioReply(p)
    {
      log := log + [Sent(Pio, verbs)];
      reply := if p.PioAnswered? then Ok(p.r) else Timeout;
    }

    method Verb(c: CorbOutcome, p: PioOutcome) returns (reply: Reply)
      modifies this
      ensures (Here(), reply) == VerbRaw(old(Here()), c, p)
    {
      if engine == Pio {
        reply := PioVerb(p);
      } else {
        if !c.RingFull? {
          log := log + [Sent(Corb, verbs)];
        }
        match c
        case Answered(r) =>
          timeouts := 0;
          reply := Ok(r);
        case TimedOut =>
          timeouts := timeouts + 1;
          if timeouts >= CORB_TIMEOUT_LIMIT && !fallbackDone {
            DegradeToPio();
            reply := PioVerb(p);
          } else {
            reply := Timeout;
          }
        case _ =>
          if !fallbackDone {
            DegradeToPio();
            reply := PioVerb(p);
          } else {
            reply := HardError;
          }
      }
      verbs := verbs + 1;
    }
  }

  // ---------------------------------------------------------------- what one verb does

  /** Where a port starts: on the rings exactly unless PIO is forced or they do not come up. */
  lemma BootEngine(choice: Choice, ringComesUp: bool)
    ensures Boot(choice, ringComesUp).engine == Corb <==> choice != Force(Pio) && ringComesUp
    ensures Boot(choice, ringComesUp).fallbackDone <==> choice != Force(Pio) && !ringComesUp
    ensures Boot(choice, ringComesUp).timeouts == 0 && Boot(choice, ringComesUp).log == []
  {
  }

  /** Over PIO the caller is told what PIO answered, and nothing about the engine changes. */
  lemma PioVerbIs(s: State, c: CorbOutcome, p: PioOutcome)
    requires s.engine == Pio
    ensures var (t, reply) := VerbRaw(s, c, p);
            && (p.PioAnswered? ==> reply == Ok(p.r)) && (p.PioTimedOut? ==> reply == Timeout)
            && t == s.(log := s.log + [Sent(Pio, s.verbs)], verbs := s.verbs + 1)
  {
  }

  /** An answer over the rings goes to the caller, and clears the timeouts behind it. */
  lemma AnsweredVerbIs(s: State, r: bv32, p: PioOutcome)
    requires s.engine == Corb
    ensures VerbRaw(s, Answered(r), p)
         == (s.(timeouts := 0, log := s.log + [Sent(Corb, s.verbs)], verbs := s.verbs + 1), Ok(r))
  {
  }

  /** A first or second timeout in a row is told to the caller and only counted. */
  lemma TimedOutVerbIs(s: State, p: PioOutcome)
    requires s.engine == Corb && s.timeouts < 2
    ensures VerbRaw(s, TimedOut, p)
         == (s.(timeouts := s.timeouts + 1, log := s.log + [Sent(Corb, s.verbs)], verbs := s.verbs + 1), Timeout)
  {
  }

  /** A third timeout, a full ring or a bad pointer: the same verb goes out over PIO, whose answer counts. */
  lemma DegradingVerbIs(s: State, c: CorbOutcome, p: PioOutcome)
    requires Inv(s) && s.engine == Corb && (c.RingFull? || c.BadPointer? || (c.TimedOut? && s.timeouts == 2))
    ensures var (t, reply) := VerbRaw(s, c, p);
            && t.engine == Pio && t.fallbackDone && t.timeouts == 0 && t.verbs == s.verbs + 1
            && t.log == s.log + (if c.RingFull? then [] else [Sent(Corb, s.verbs)]) + [Sent(Pio, s.verbs)]
            && (p.PioAnswered? ==> reply == Ok(p.r)) && (p.PioTimedOut? ==> reply == Timeout)
  {
  }

  // ---------------------------------------------------------------- runs

  datatype Outcome = Outcome(c: CorbOutcome, p: PioOutcome)

  function After(s: State, os: seq<Outcome>): State
    decreases |os|
  {
    if os == [] then s else After(VerbRaw(s, os[0].c, os[0].p).0, os[1..])
  }

  predicate NoRepeats(log: seq<Sent>) {
    forall i, j :: 0 <= i < j < |log| ==> log[i] != log[j]
  }

  /** An active ring engine has fewer than three timeouts behind it and no earlier fallback. */
  predicate Inv(s: State) {
    && (s.engine == Corb ==> s.timeouts < CORB_TIMEOUT_LIMIT && !s.fallbackDone && s.degrades == 0)
    && s.degrades <= 1
    && NoRepeats(s.log)
    && forall i :: 0 <= i < |s.log| ==> s.log[i].verb < s.verbs
  }

  lemma BootInv(choice: Choice, ringComesUp: bool)
    ensures Inv(Boot(choice, ringComesUp))
  {
  }

  lemma VerbKeepsInv(s: State, c: CorbOutcome, p: PioOutcome)
    requires Inv(s)
    ensures Inv(VerbRaw(s, c, p).0)
    ensures VerbRaw(s, c, p).1 != HardError
    ensures s.engine == Pio ==> VerbRaw(s, c, p).0.engine == Pio && VerbRaw(s, c, p).0.degrades == s.degrades
  {
  }

  /**
   * In every run: a live ring engine is below the limit, the port degrades at most once and never
   * goes back, no verb is sent twice over one engine, and a hard error never reaches the caller.
   */
  lemma {:induction false} EveryRun(s: State, os: seq<Outcome>)
    requires Inv(s)
    ensures Inv(After(s, os))
    ensures s.engine == Pio ==> After(s, os).engine == Pio && After(s, os).degrades == s.degrades
    ensures forall c, p :: VerbRaw(After(s, os), c, p).1 != HardError
    decreases |os|
  {
    if os == [] {
      forall c, p ensures VerbRaw(s, c, p).1 != HardError {
        VerbKeepsInv(s, c, p);
      }
    } else {
      VerbKeepsInv(s, os[0].c, os[0].p);
      EveryRun(VerbRaw(s, os[0].c, os[0].p).0, os[1..]);
    }
  }

  predicate NoSuccess(os: seq<Outcome>) {
    forall i :: 0 <= i < |os| ==> !os[i].c.Answered?
  }

  predicate OnlyTimeouts(os: seq<Outcome>) {
    forall i :: 0 <= i < |os| ==> os[i].c.TimedOut?
  }

  /**
   * Three verbs without a success in between force PIO, from any state; and from a fresh ring
   * engine timeouts alone do it exactly at the third.
   */
  lemma {:induction false} ThreeFailuresForcePio(s: State, os: seq<Outcome>)
    requires Inv(s) && NoSuccess(os) && |os| >= CORB_TIMEOUT_LIMIT - s.timeouts
    ensures After(s, os).engine == Pio
    decreases |os|
  {
    if s.engine == Pio {
      EveryRun(s, os);
    } else if os != [] {
      VerbKeepsInv(s, os[0].c, os[0].p);
      var t := VerbRaw(s, os[0].c, os[0].p).0;
      if t.engine == Pio {
        EveryRun(t, os[1..]);
      } else {
        ThreeFailuresForcePio(t, os[1..]);
      }
    }
  }

  lemma {:induction false} TimeoutsDegradeAtTheThird(s: State, os: seq<Outcome>)
    requires Inv(s) && s.engine == Corb && OnlyTimeouts(os)
    ensures After(s, os).engine == Pio <==> s.timeouts + |os| >= CORB_TIMEOUT_LIMIT
    decreases |os|
  {
    if os != [] {
      VerbKeepsInv(s, os[0].c, os[0].p);
      var t := VerbRaw(s, os[0].c, os[0].p).0;
      if t.engine == Pio {
        EveryRun(t, os[1..]);
      } else {
        TimeoutsDegradeAtTheThird(t, os[1..]);
      }
    }
  }

  // ---------------------------------------------------------------- verb words

  /** The parameter is sixteen bits wide and overlaps the low byte of the verb. */
  function MakeVerb(cad: bv32, nid: bv32, verb: bv32, payload: bv32): bv32 {
    ((cad & 0xf) << 28) | ((nid & 0xff) << 20) | ((verb & 0xfff) << 8) | (payload & 0xffff)
  }

  /** The four fields can be read back exactly when the payload's high byte adds no verb bit. */
  lemma VerbFields(cad: bv32, nid: bv32, verb: bv32, payload: bv32)
    requires cad <= 0xf && nid <= 0xff && verb <= 0xfff && payload <= 0xffff
    ensures var w := MakeVerb(cad, nid, verb, payload);
            && w >> 28 == cad && (w >> 20) & 0xff == nid && w & 0xff == payload & 0xff
            && ((w >> 8) & 0xfff == verb <==> (payload >> 8) & !verb == 0)
  {
  }
}
