/** Little-endian byte codecs shared by the wire protocol, the PCM pipeline and the BDL. */
module Bytes {

  type byte = x: int | 0 <= x < 256

  type i16 = x: int | -32768 <= x < 32768

  const U32 := 0x1_0000_0000

  /** Silence, or a cleared buffer. */
  function Zeros(n: nat): (z: seq<byte>)
    ensures |z| == n
  {
    seq(n, _ => 0)
  }

  function DecodeI16(lo: byte, hi: byte): i16 {
    var u := lo + 256 * hi;
    if u >= 32768 then u - 65536 else u
  }

  function EncodeI16(x: i16): (b: seq<byte>)
    ensures |b| == 2
  {
    var u := if x < 0 then x + 65536 else x;
    [u % 256, u / 256]
  }

  /** `x` is the number that two bytes stand for: low byte first, in two's complement. */
  predicate Stands(x: int, lo: int, hi: int) {
    -32768 <= x < 32768 && (x == lo + 256 * hi || x == lo + 256 * hi - 65536)
  }

  lemma DecodedStands(lo: byte, hi: byte)
    ensures Stands(DecodeI16(lo, hi), lo, hi)
  {
  }

  lemma EncodedStands(x: i16)
    ensures Stands(x, EncodeI16(x)[0], EncodeI16(x)[1])
  {
  }

  lemma OneNumber(x: int, y: int, lo: int, hi: int)
    requires Stands(x, lo, hi) && Stands(y, lo, hi)
    ensures x == y
  {
  }

  lemma I16RoundTrip(x: i16)
    ensures DecodeI16(EncodeI16(x)[0], EncodeI16(x)[1]) == x
  {
  }

  /** The low 32 bits of `x`, little-endian. */
  function Le32(x: nat): (b: seq<byte>)
    ensures |b| == 4
  {
    [x % 256, x / 0x100 % 256, x / 0x10000 % 256, x / 0x1000000 % 256]
  }

  /** Little-endian value of a byte string. */
  function FromLe(b: seq<byte>): nat {
    if b == [] then 0
    else
      var lo: int := b[0];
      lo + 256 * FromLe(b[1..])
  }

  lemma Le32RoundTrip(x: nat)
    ensures FromLe(Le32(x)) == x % U32
  {
    var b := Le32(x);
    assert FromLe(b[3..]) == b[3] as int + 256 * FromLe([]) by { assert b[3..][1..] == []; }
    assert FromLe(b[2..]) == b[2] as int + 256 * FromLe(b[3..]) by { assert b[2..][1..] == b[3..]; }
    assert FromLe(b[1..]) == b[1] as int + 256 * FromLe(b[2..]) by { assert b[1..][1..] == b[2..]; }
    Digits(x);
  }

  /** A 32-bit word's bytes by weight, lowest first. */
  lemma WordByWeight(b: seq<byte>)
    requires |b| == 4
    ensures FromLe(b) == b[0] as int + 256 * (b[1] as int) + 65536 * (b[2] as int) + 16777216 * (b[3] as int)
  {
    assert b[1..][1..] == b[2..] && b[2..][1..] == b[3..] && b[3..][1..] == [];
    assert FromLe([]) == 0;
    assert FromLe(b[3..]) == b[3] as int;
    assert FromLe(b[2..]) == b[2] as int + 256 * FromLe(b[3..]);
    assert FromLe(b[1..]) == b[1] as int + 256 * FromLe(b[2..]);
  }

  lemma Digits(x: nat)
    ensures x % 256 + 256 * (x / 0x100 % 256 + 256 * (x / 0x10000 % 256 + 256 * (x / 0x1000000 % 256))) == x % U32
  {
    var q := x / 0x1000000;
    assert x / 0x10000 == q * 256 + x / 0x10000 % 256;
    assert x / 0x100 == x / 0x10000 * 256 + x / 0x100 % 256;
    assert x == x / 0x100 * 256 + x % 256;
    assert q == q / 256 * 256 + q % 256;
  }
}
