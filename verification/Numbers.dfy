/** Integer arithmetic used across the model: greatest common divisors and division. */
module Numbers {

  function Min(a: int, b: int): int {
    if a <= b then a else b
  }

  function Max(a: int, b: int): int {
    if a >= b then a else b
  }

  function Clamp(x: int, lo: int, hi: int): int {
    if x < lo then lo else if x > hi then hi else x
  }

  function SatSub(a: nat, b: nat): nat {
    if a >= b then a - b else 0
  }

  /** Division truncating toward zero, as an integer cast does. */
  function Trunc(x: real): int {
    if x >= 0.0 then x.Floor else -((-x).Floor)
  }

  function CeilDiv(a: nat, b: nat): nat
    requires b > 0
  {
    (a + b - 1) / b
  }

  lemma MulMonotone(a: int, b: int, k: nat)
    requires a <= b
    ensures a * k <= b * k
  {
    assert b * k == a * k + (b - a) * k;
  }

  lemma DivModUnique(x: int, d: int, q: int, r: int)
    requires d > 0 && x == q * d + r && 0 <= r < d
    ensures x / d == q && x % d == r
  {
    var e := x / d - q;
    assert x == (x / d) * d + x % d;
    assert e * d == r - x % d;
  }

  lemma DivShift(x: int, d: int, k: int)
    requires d > 0
    ensures (x + k * d) / d == x / d + k && (x + k * d) % d == x % d
  {
    assert x == (x / d) * d + x % d;
    assert x + k * d == (x / d + k) * d + x % d;
    DivModUnique(x + k * d, d, x / d + k, x % d);
  }

  lemma QuotientBound(a: nat, d: nat, k: int)
    requires d > 0
    ensures a / d <= k <==> a < (k + 1) * d
  {
    var q := a / d;
    assert a == q * d + a % d;
    if q <= k {
      MulMonotone(q + 1, k + 1, d);
    } else {
      MulMonotone(k + 1, q, d);
    }
  }

  lemma QuotientMonotone(a: nat, b: nat, d: nat)
    requires d > 0 && a <= b
    ensures a / d <= b / d
  {
    QuotientBound(a, d, b / d);
    assert b == b / d * d + b % d;
    assert (b / d + 1) * d == b / d * d + d;
  }

  /** `n` lies below `ceil(a/b)` exactly when `n * b` lies below `a`. */
  lemma CeilDivIff(n: nat, a: nat, b: nat)
    requires b > 0
    ensures n < CeilDiv(a, b) <==> n * b < a
  {
    var q := CeilDiv(a, b);
    var r := (a + b - 1) % b;
    assert a + b - 1 == q * b + r;
    if n < q {
      MulMonotone(n + 1, q, b);
      assert (n + 1) * b == n * b + b;
    } else {
      MulMonotone(q, n, b);
    }
  }

  lemma CeilBound(a: nat, b: nat)
    requires b > 0
    ensures CeilDiv(a, b) * b < a + b
  {
    assert a + b - 1 == CeilDiv(a, b) * b + (a + b - 1) % b;
  }

  function Gcd(a: nat, b: nat): nat
    decreases b
  {
    if b == 0 then a else Gcd(b, a % b)
  }

  /** Euclid's loop on two locals. */
  method GcdLoop(a0: nat, b0: nat) returns (g: nat)
    ensures g == Gcd(a0, b0)
  {
    var a, b := a0, b0;
    while b != 0
      invariant Gcd(a, b) == Gcd(a0, b0)
      decreases b
    {
      a, b := b, a % b;
    }
    g := a;
  }

  lemma {:induction false} GcdPositive(a: nat, b: nat)
    requires a > 0 || b > 0
    ensures Gcd(a, b) > 0
    decreases b
  {
    if b != 0 {
      GcdPositive(b, a % b);
    }
  }

  /** The result divides both numbers. */
  lemma {:induction false} GcdQuotients(a: nat, b: nat) returns (p: nat, q: nat)
    ensures a == p * Gcd(a, b) && b == q * Gcd(a, b)
    decreases b
  {
    if b == 0 {
      p, q := 1, 0;
    } else {
      var g, k := Gcd(b, a % b), a / b;
      var u, v := GcdQuotients(b, a % b);
      p, q := k * u + v, u;
      assert a == k * b + a % b;
      assert k * (u * g) + v * g == (k * u + v) * g;
    }
  }

  lemma GcdDivides(a: nat, b: nat)
    requires a > 0 && b > 0
    ensures Gcd(a, b) > 0 && a / Gcd(a, b) > 0 && b / Gcd(a, b) > 0
    ensures a == a / Gcd(a, b) * Gcd(a, b) && b == b / Gcd(a, b) * Gcd(a, b)
  {
    GcdPositive(a, b);
    var p, q := GcdQuotients(a, b);
    DivModUnique(a, Gcd(a, b), p, 0);
    DivModUnique(b, Gcd(a, b), q, 0);
  }

  /** Bezout coefficients, which make the result the greatest common divisor. */
  lemma {:induction false} Bezout(a: nat, b: nat) returns (x: int, y: int)
    ensures a * x + b * y == Gcd(a, b)
    decreases b
  {
    if b == 0 {
      x, y := 1, 0;
    } else {
      var u, v := Bezout(b, a % b);
      x, y := v, u - (a / b) * v;
      var q := a / b;
      assert a == q * b + a % b;
      calc {
        a * x + b * y;
        a * v + b * (u - q * v);
        a * v + b * u - (q * b) * v;
        b * u + (a % b) * v;
      }
    }
  }
}
