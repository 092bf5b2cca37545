/** 32-bit words as integers: wrap-around arithmetic, exclusive or and logical shifts. */
module Words {
  const WORD: nat := 0x1_0000_0000

  type U32 = x: int | 0 <= x < WORD

  function WrappingMul(a: U32, b: U32): U32 { (a * b) % WORD }

  function WrappingSub(a: U32, b: U32): U32 { (a - b) % WORD }

  function WrappingAdd(a: U32, b: U32): U32 { (a + b) % WORD }

  lemma WrappingSuccessor(x: U32)
    ensures WrappingAdd(x, 1) == if x + 1 == WORD then 0 else x + 1
  {
  }

  /** Exclusive or, one binary digit after the other. */
  function Xor(a: nat, b: nat): nat {
    if a == 0 then b
    else if b == 0 then a
    else 2 * Xor(a / 2, b / 2) + (a % 2 + b % 2) % 2
  }

  /** Logical shift to the right. */
  function Shr(x: nat, k: nat): nat
    decreases k
  {
    if k == 0 then x else Shr(x / 2, k - 1)
  }

  function Power2(n: nat): nat { if n == 0 then 1 else 2 * Power2(n - 1) }

  lemma Power2Of32()
    ensures Power2(32) == WORD
  {
    assert Power2(8) == 0x100;
    assert Power2(16) == 0x1_0000;
    assert Power2(24) == 0x100_0000;
  }

  lemma {:induction false} XorBelow(a: nat, b: nat, n: nat)
    requires a < Power2(n) && b < Power2(n)
    ensures Xor(a, b) < Power2(n)
  {
    if a != 0 && b != 0 { XorBelow(a / 2, b / 2, n - 1); }
  }

  lemma XorOfWords(a: U32, b: U32)
    ensures Xor(a, b) < WORD
  {
    Power2Of32();
    XorBelow(a, b, 32);
  }

  lemma XorDigits(a: nat, b: nat)
    ensures Xor(a, b) / 2 == Xor(a / 2, b / 2)
    ensures Xor(a, b) % 2 == (a % 2 + b % 2) % 2
  {
  }

  lemma {:induction false} SameDigits(a: nat, b: nat)
    requires a / 2 == b / 2 && a % 2 == b % 2
    ensures a == b
  {
  }

  lemma {:induction false} XorCommutes(a: nat, b: nat)
    ensures Xor(a, b) == Xor(b, a)
  {
    if a != 0 && b != 0 { XorCommutes(a / 2, b / 2); }
  }

  lemma XorAssociatesStep(a: nat, b: nat, c: nat)
    requires Xor(Xor(a / 2, b / 2), c / 2) == Xor(a / 2, Xor(b / 2, c / 2))
    ensures Xor(Xor(a, b), c) == Xor(a, Xor(b, c))
  {
    hide Xor;
    XorDigits(a, b);
    XorDigits(b, c);
    XorDigits(Xor(a, b), c);
    XorDigits(a, Xor(b, c));
    ParityAssociates(a % 2, b % 2, c % 2);
    SameDigits(Xor(Xor(a, b), c), Xor(a, Xor(b, c)));
  }

  lemma ParityAssociates(p: nat, q: nat, r: nat)
    requires p < 2 && q < 2 && r < 2
    ensures ((p + q) % 2 + r) % 2 == (p + (q + r) % 2) % 2
  {
  }

  lemma {:induction false} XorAssociates(a: nat, b: nat, c: nat)
    ensures Xor(Xor(a, b), c) == Xor(a, Xor(b, c))
    decreases a
  {
    if a != 0 {
      XorAssociates(a / 2, b / 2, c / 2);
      XorAssociatesStep(a, b, c);
    }
  }

  lemma {:induction false} XorSelf(a: nat)
    ensures Xor(a, a) == 0
  {
    if a != 0 { XorSelf(a / 2); }
  }

  /** Applying the same word twice cancels. */
  lemma XorCancels(a: nat, b: nat)
    ensures Xor(Xor(a, b), b) == a
  {
    XorAssociates(a, b, b);
    XorSelf(b);
  }

  lemma {:induction false} ShrXor(a: nat, b: nat, k: nat)
    ensures Shr(Xor(a, b), k) == Xor(Shr(a, k), Shr(b, k))
    decreases k
  {
    if k > 0 {
      XorDigits(a, b);
      ShrXor(a / 2, b / 2, k - 1);
    }
  }

  lemma {:induction false} ShrShr(x: nat, j: nat, k: nat)
    ensures Shr(Shr(x, j), k) == Shr(x, j + k)
    decreases j
  {
    if j > 0 { ShrShr(x / 2, j - 1, k); }
  }

  lemma {:induction false} ShrOut(x: nat, n: nat, k: nat)
    requires x < Power2(n) && n <= k
    ensures Shr(x, k) == 0
    decreases k
  {
    if k > 0 { ShrOut(x / 2, if n == 0 then 0 else n - 1, k - 1); }
  }

  lemma {:induction false} ShrAtMost(x: nat, k: nat)
    ensures Shr(x, k) <= x
    decreases k
  {
    if k > 0 { ShrAtMost(x / 2, k - 1); }
  }

  /** A word combined with its own top bits, moved down by `k`. */
  function XorShift(x: U32, k: nat): U32 {
    ShrAtMost(x, k);
    XorOfWords(x, Shr(x, k));
    Xor(x, Shr(x, k))
  }

  /** Shifting twice by `k` shifts once by `2k`. */
  lemma XorShiftTwice(x: U32, k: nat)
    ensures XorShift(XorShift(x, k), k) == XorShift(x, k + k)
  {
    var s, t := Shr(x, k), Shr(x, k + k);
    ShrXor(x, s, k);
    ShrShr(x, k, k);
    XorAssociates(x, s, Xor(s, t));
    XorAssociates(s, s, t);
    XorSelf(s);
  }

  /** Shifting by a whole word or more changes nothing. */
  lemma XorShiftOut(x: U32, k: nat)
    requires 32 <= k
    ensures XorShift(x, k) == x
  {
    Power2Of32();
    ShrOut(x, 32, k);
    XorCommutes(x, 0);
  }

  lemma XorShiftsCommute(x: U32, j: nat, k: nat)
    ensures XorShift(XorShift(x, j), k) == XorShift(XorShift(x, k), j)
  {
    var a, b, c := Shr(x, j), Shr(x, k), Shr(x, j + k);
    ShrXor(x, a, k);
    ShrXor(x, b, j);
    ShrShr(x, j, k);
    ShrShr(x, k, j);
    XorAssociates(x, a, Xor(b, c));
    XorAssociates(x, b, Xor(a, c));
    XorAssociates(a, b, c);
    XorAssociates(b, a, c);
    XorCommutes(a, b);
  }
}
