/** Rate and format encoding of hda/src/stream.rs, and the rate choice of server/src/backend.rs. */
module Rates {
  import opened Numbers
  import opened Bytes

  datatype Code = Code(base: nat, mult: nat, div: nat)
  datatype Option<T> = None | Some(value: T)

  type u32 = x: int | 0 <= x < U32

  function BaseRate(base: nat): nat {
    if base == 0 then 48000 else 44100
  }

  predicate InRange(c: Code) {
    c.base <= 1 && 1 <= c.mult <= 8 && 1 <= c.div <= 8
  }

  /** The code names the rate exactly. */
  predicate Names(c: Code, rate: int) {
    InRange(c) && BaseRate(c.base) * c.mult == rate * c.div
  }

  /** What the loop tests: both products are 32-bit and wrap. */
  predicate Matches(c: Code, rate: u32) {
    InRange(c) && (BaseRate(c.base) * c.mult) % U32 == (rate * c.div) % U32
  }

  ghost predicate Nameable(rate: int) {
    exists c :: Names(c, rate)
  }

  /** The order in which the three loops visit the codes. */
  predicate Before(a: Code, b: Code) {
    a.base < b.base
    || (a.base == b.base && (a.mult < b.mult || (a.mult == b.mult && a.div < b.div)))
  }

  predicate LowestTerms(c: Code) {
    forall g {:trigger c.mult % g} :: 2 <= g <= 8 ==> c.mult % g != 0 || c.div % g != 0
  }

  /** Rates whose products with a divisor up to 8 fit 32 bits. */
  predicate NoOverflow(rate: u32) {
    rate * 8 < U32
  }

  ghost predicate IsFirstMatch(r: Option<Code>, rate: u32) {
    if r.None? then forall c :: !Matches(c, rate)
    else Matches(r.value, rate) && forall c :: Matches(c, rate) ==> !Before(c, r.value)
  }

  method EncodeRate(rate: u32) returns (r: Option<Code>)
    ensures IsFirstMatch(r, rate)
  {
    for base := 0 to 2
      invariant forall c :: Matches(c, rate) ==> c.base >= base
    {
      for mult := 1 to 9
        invariant forall c :: Matches(c, rate) ==> c.base > base || (c.base == base && c.mult >= mult)
      {
        for div := 1 to 9
          invariant forall c :: Matches(c, rate) ==>
            c.base > base || (c.base == base && (c.mult > mult || (c.mult == mult && c.div >= div)))
        {
          if (BaseRate(base) * mult) % U32 == (rate * div) % U32 {
            return Some(Code(base, mult, div));
          }
        }
      }
    }
    return None;
  }

  /** Some 32-bit product goes round and lands where a code would be: a finite check on the rate. */
  ghost predicate WrapsOntoCode(rate: u32) {
    exists c, j :: WrapsOnto(rate, c, j)
  }

  predicate WrapsOnto(rate: u32, c: Code, j: int) {
    InRange(c) && 1 <= j < c.div && rate * c.div == BaseRate(c.base) * c.mult + j * U32
  }

  /** The answer is right: a code exactly when one names the rate, and then one that names it. */
  ghost predicate Right(r: Option<Code>, rate: u32) {
    (r.Some? <==> Nameable(rate)) && (r.Some? ==> Names(r.value, rate))
  }

  /** A match is a name or a wrap. */
  lemma MatchIsNameOrWrap(c: Code, rate: u32)
    ensures Matches(c, rate) <==> Names(c, rate) || exists j :: WrapsOnto(rate, c, j)
  {
    if InRange(c) {
      var a, b := BaseRate(c.base) * c.mult, rate * c.div;
      var j := b / U32;
      assert a < U32;
      assert b == j * U32 + b % U32;
      MulMonotone(rate, U32 - 1, c.div);
      if Matches(c, rate) {
        assert b == a + j * U32;
        assert j * U32 <= b < c.div * U32;
        assert Names(c, rate) || WrapsOnto(rate, c, j);
      }
      if i :| WrapsOnto(rate, c, i) {
        DivModUnique(b, U32, i, a);
      }
    }
  }

  /** A rate with a name never wraps onto a code: it is too low to overflow any product. */
  lemma NamedRatesAreLow(rate: u32)
    requires Nameable(rate)
    ensures !WrapsOntoCode(rate)
  {
    var c :| Names(c, rate);
    MulMonotone(1, c.div, rate);
    assert rate <= BaseRate(c.base) * c.mult <= 384000;
    forall d, j ensures !WrapsOnto(rate, d, j) {
      LowRatesDoNotWrap(rate, d, j);
    }
  }

  lemma LowRatesDoNotWrap(rate: u32, c: Code, j: int)
    requires rate <= 384000
    ensures !WrapsOnto(rate, c, j)
  {
    if InRange(c) && 1 <= j {
      MulMonotone(rate, 384000, c.div);
      MulMonotone(1, j, U32);
    }
  }

  /**
   * The search is right exactly for the rates that do not wrap onto a code, whatever their size;
   * and when right its code is in lowest terms.
   */
  lemma SearchIsRightIff(r: Option<Code>, rate: u32)
    requires IsFirstMatch(r, rate)
    ensures Right(r, rate) <==> !WrapsOntoCode(rate)
    ensures Right(r, rate) && r.Some? ==> LowestTerms(r.value)
    ensures WrapsOntoCode(rate) ==> r.Some? && !Nameable(rate)
  {
    forall c ensures Matches(c, rate) <==> Names(c, rate) || exists j :: WrapsOnto(rate, c, j) {
      MatchIsNameOrWrap(c, rate);
    }
    if Nameable(rate) {
      NamedRatesAreLow(rate);
    }
    if WrapsOntoCode(rate) {
      var c, j :| WrapsOnto(rate, c, j);
      assert Matches(c, rate) && r.Some?;
    }
    if Right(r, rate) && r.Some? {
      FirstIsReduced(r.value, rate);
    }
  }

  /** Every rate whose products fit 32 bits is among them. */
  lemma SmallRatesDoNotWrap(rate: u32)
    requires NoOverflow(rate)
    ensures !WrapsOntoCode(rate)
  {
    forall c, j ensures !WrapsOnto(rate, c, j) {
      if InRange(c) && 1 <= j {
        MulMonotone(c.div, 8, rate);
        assert j * U32 >= U32;
      }
    }
  }

  /** Not every rate is: 8 * 536876912 leaves 48000 in 32 bits, so the search answers (0, 1, 8) or earlier. */
  lemma SpuriousMatch(r: Option<Code>)
    requires IsFirstMatch(r, 536876912)
    ensures r.Some? && !Right(r, 536876912)
  {
    assert WrapsOnto(536876912, Code(0, 1, 8), 1);
    SearchIsRightIff(r, 536876912);
    assert Matches(Code(0, 1, 8), 536876912);
  }

  lemma FirstIsReduced(c: Code, rate: int)
    requires Names(c, rate)
    requires forall d :: Names(d, rate) ==> !Before(d, c)
    ensures LowestTerms(c)
  {
    forall g | 2 <= g <= 8 ensures c.mult % g != 0 || c.div % g != 0 {
      if c.mult % g == 0 && c.div % g == 0 {
        var d := Code(c.base, c.mult / g, c.div / g);
        Cancel(BaseRate(c.base), d.mult, d.div, rate, g);
        assert Names(d, rate) && Before(d, c);
      }
    }
  }

  lemma Cancel(b: int, m: nat, d: nat, rate: int, g: nat)
    requires g >= 2 && b * (m * g) == rate * (d * g)
    ensures b * m == rate * d
  {
    assert (b * m - rate * d) * g == 0;
  }

  // ---------------------------------------------------------------- SD_FORMAT

  function PackFormat(base: bv16, mult: bv16, div: bv16): bv16 {
    1 | (1 << 4) | ((div - 1) << 8) | ((mult - 1) << 11) | (base << 14)
  }

  function DivField(f: bv16): bv16 { ((f >> 8) & 7) + 1 }
  function MultField(f: bv16): bv16 { ((f >> 11) & 7) + 1 }
  function BaseField(f: bv16): bv16 { (f >> 14) & 1 }

  /** The fields of the word as the register layout names them. */
  predicate CarriesCode(f: bv16, c: Code) {
    && InRange(c)
    && f & 0xff == 0x11 && f >> 15 == 0
    && BaseField(f) as int == c.base && MultField(f) as int == c.mult && DivField(f) as int == c.div
  }

  /** The fields of `f` name `rate`. */
  ghost predicate DecodesTo(f: bv16, rate: int) {
    exists c :: CarriesCode(f, c) && Names(c, rate)
  }

  lemma FieldsDoNotOverlap(base: bv16, mult: bv16, div: bv16)
    requires base < 2 && 1 <= mult <= 8 && 1 <= div <= 8
    ensures var f := PackFormat(base, mult, div);
            BaseField(f) == base && MultField(f) == mult && DivField(f) == div && f & 0xff == 0x11 && f >> 15 == 0
  {
  }

  /** The word by weight: stereo, 16 bits, and the three parts of the code. */
  lemma WordByWeight(base: bv16, mult: bv16, div: bv16)
    requires base < 2 && 1 <= mult <= 8 && 1 <= div <= 8
    ensures PackFormat(base, mult, div) as int
         == 17 + 256 * (div as int - 1) + 2048 * (mult as int - 1) + 16384 * (base as int)
  {
  }

  function SmallBits(x: nat): (b: bv16)
    requires x <= 8
    ensures b as int == x && (x < 2 ==> b < 2) && (1 <= x ==> 1 <= b <= 8)
  {
    if x == 0 then 0 else if x == 1 then 1 else if x == 2 then 2 else if x == 3 then 3
    else if x == 4 then 4 else if x == 5 then 5 else if x == 6 then 6 else if x == 7 then 7 else 8
  }

  const FALLBACK := Code(0, 1, 1)

  /** The register word: its fields name the rate when any code does, and 48000 Hz otherwise. */
  method FormatVal(rate: u32) returns (f: bv16)
    ensures exists code :: CarriesCode(f, code) && (Matches(code, rate) || code == FALLBACK)
    ensures !WrapsOntoCode(rate) ==> DecodesTo(f, if Nameable(rate) then rate else 48000)
  {
    var r := EncodeRate(rate);
    var c := if r.Some? then r.value else FALLBACK;
    f := PackFormat(SmallBits(c.base), SmallBits(c.mult), SmallBits(c.div));
    FieldsDoNotOverlap(SmallBits(c.base), SmallBits(c.mult), SmallBits(c.div));
    assert CarriesCode(f, c);
    SearchIsRightIff(r, rate);
  }

  /** A word's fields determine the rate it names. */
  lemma FormatDecodesRate(f: bv16, rate: int, rate': int)
    requires DecodesTo(f, rate) && DecodesTo(f, rate')
    ensures rate == rate'
  {
    var c :| CarriesCode(f, c) && Names(c, rate);
    assert (rate - rate') * c.div == 0;
  }

  // ---------------------------------------------------------------- choosing a link rate

  const HDA_RATES: seq<nat> := [
    192000, 176400, 96000, 88200, 48000, 44100, 32000, 24000, 22050, 16000, 12000, 11025, 8000]

  function Distance(a: int, b: int): (d: nat)
    ensures d >= a - b && d >= b - a && (d == a - b || d == b - a)
  {
    if a >= b then a - b else b - a
  }

  /** Closest listed rate, the lower of two equally close. */
  method NearestHdaRate(rate: u32) returns (best: u32)
    ensures best in HDA_RATES
    ensures forall r :: r in HDA_RATES ==>
      Distance(best, rate) < Distance(r, rate) || (Distance(best, rate) == Distance(r, rate) && best <= r)
  {
    best := HDA_RATES[0];
    for i := 1 to |HDA_RATES|
      invariant best in HDA_RATES && best <= 192000
      invariant forall j :: 0 <= j < i ==>
        Distance(best, rate) < Distance(HDA_RATES[j], rate)
        || (Distance(best, rate) == Distance(HDA_RATES[j], rate) && best <= HDA_RATES[j])
    {
      var r := HDA_RATES[i];
      if Distance(r, rate) < Distance(best, rate) || (Distance(r, rate) == Distance(best, rate) && r < best) {
        best := r;
      }
    }
  }

  lemma ListedRateHasCode(r: nat) returns (c: Code)
    requires r in HDA_RATES
    ensures Names(c, r)
  {
    var base := if r == 176400 || r == 88200 || r == 44100 || r == 22050 || r == 11025 then 1 else 0;
    c :=
      if r == 192000 || r == 176400 then Code(base, 4, 1)
      else if r == 96000 || r == 88200 then Code(base, 2, 1)
      else if r == 32000 then Code(base, 2, 3)
      else if r == 24000 || r == 22050 then Code(base, 1, 2)
      else if r == 16000 then Code(base, 1, 3)
      else if r == 12000 || r == 11025 then Code(base, 1, 4)
      else if r == 8000 then Code(base, 1, 6)
      else Code(base, 1, 1);
  }

  /** The rate `open` settles on has a code, so its format never degenerates to 48000. */
  method OpenRate(rate: u32) returns (hw: u32)
    ensures Nameable(hw) <==> !WrapsOntoCode(rate)
    ensures Nameable(rate) || WrapsOntoCode(rate) ==> hw == rate
  {
    var r := EncodeRate(rate);
    SearchIsRightIff(r, rate);
    if r.Some? {
      return rate;
    }
    hw := NearestHdaRate(rate);
    ghost var c := ListedRateHasCode(hw);
    assert Names(c, hw);
  }
}
