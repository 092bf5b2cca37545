/** The multiplicative inverse modulo 2^32, by Newton's iteration. */
module ModInverse {
  import opened Words

  /** One Newton step towards the inverse of `a`. */
  function NewtonStep(a: U32, x: U32): U32 {
    WrappingMul(x, WrappingSub(2, WrappingMul(a, x)))
  }

  function Newton(a: U32, n: nat): U32 {
    if n == 0 then 1 else NewtonStep(a, Newton(a, n - 1))
  }

  /** 2^(2^i): the modulus in which the candidate is right after `i` steps. */
  function Modulus(i: nat): int {
    if i == 0 then 2 else Modulus(i - 1) * Modulus(i - 1)
  }

  /** The modulus of every step but the last divides a word. */
  function Cofactor(i: nat): int
    requires 1 <= i <= 5
  {
    if i == 1 then 0x4000_0000 else if i == 2 then 0x1000_0000 else if i == 3 then 0x100_0000 else if i == 4 then 0x1_0000 else 1
  }

  lemma WordFactors(i: nat)
    requires 1 <= i <= 5
    ensures Modulus(i) * Cofactor(i) == WORD
  {
    assert Modulus(1) == 4;
    assert Modulus(2) == 16;
    assert Modulus(3) == 256;
    assert Modulus(4) == 0x1_0000;
    assert Modulus(5) == WORD;
  }

  /** The error after a step is minus the square of the one before, up to wrap-around. */
  lemma ErrorSquares(a: int, x: int, k: int, d: int, e: int, u: int, y: int, s: int, r: int)
    requires a * x == 1 + e * k
    requires u == 2 - a * x + s * (k * k * d)
    requires y == x * u - r * (k * k * d)
    ensures a * y == 1 + (-(e * e) + d * ((1 + e * k) * s - a * r)) * (k * k)
  {
    var n := e * k;
    var m := k * k;
    var w := m * d;
    var z := 1 + n;
    assert a * y == a * (x * u) - a * (r * w) by { Distribute(a, x * u, r * w); }
    assert a * (x * u) == z * u;
    assert z * u == z * (2 - z) + z * (s * w) by { DistributePlus(z, 2 - z, s * w); }
    assert z * (2 - z) == 1 - n * n;
    assert n * n == (e * e) * m;
    assert z * (s * w) == (d * (z * s)) * m;
    assert a * (r * w) == (d * (a * r)) * m;
    Collect(e * e, d * (z * s), d * (a * r), m);
    Distribute(d, z * s, a * r);
  }

  lemma Distribute(a: int, b: int, c: int)
    ensures a * (b - c) == a * b - a * c
  {
  }

  lemma DistributePlus(a: int, b: int, c: int)
    ensures a * (b + c) == a * b + a * c
  {
  }

  lemma Collect(p: int, q: int, r: int, m: int)
    ensures -(p * m) + q * m - r * m == (-p + q - r) * m
  {
  }

  lemma StepDoublesBits(a: U32, x: U32, i: nat, e: int) returns (e': int)
    requires i < 5 && a * x == 1 + e * Modulus(i)
    ensures a * NewtonStep(a, x) == 1 + e' * Modulus(i + 1)
  {
    var k, d := Modulus(i), Cofactor(i + 1);
    WordFactors(i + 1);
    var t := WrappingMul(a, x);
    var u := WrappingSub(2, t);
    var s := (a * x) / WORD - (2 - t) / WORD;
    var r := (x * u) / WORD;
    ErrorSquares(a, x, k, d, e, u, NewtonStep(a, x), s, r);
    e' := -(e * e) + d * ((1 + e * k) * s - a * r);
  }

  lemma {:induction false} NewtonInverts(a: U32, i: nat) returns (e: int)
    requires a % 2 == 1 && i <= 5
    ensures a * Newton(a, i) == 1 + e * Modulus(i)
  {
    if i == 0 {
      e := (a - 1) / 2;
    } else {
      e := NewtonInverts(a, i - 1);
      e := StepDoublesBits(a, Newton(a, i - 1), i - 1, e);
    }
  }

  /** What five steps compute. */
  function Inverse(a: U32): U32 { Newton(a, 5) }

  /** Every odd word is inverted by five steps. */
  lemma OddInverse(a: U32)
    requires a % 2 == 1
    ensures WrappingMul(a, Inverse(a)) == 1
  {
    var e := NewtonInverts(a, 5);
    assert Modulus(5) == WORD by { WordFactors(5); }
    OneModuloWord(a * Newton(a, 5), e);
  }

  lemma OneModuloWord(p: int, e: int)
    requires p == 1 + e * WORD
    ensures p % WORD == 1
  {
  }

  method Compute(a: U32) returns (x: U32)
    ensures x == Inverse(a)
    ensures a % 2 == 1 ==> WrappingMul(a, x) == 1
  {
    x := 1;
    var i := 0;
    while i < 5
      invariant i <= 5 && x == Newton(a, i)
    {
      x := WrappingMul(x, WrappingSub(2, WrappingMul(a, x)));
      i := i + 1;
    }
    if a % 2 == 1 { OddInverse(a); }
  }
}
