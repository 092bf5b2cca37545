/** The seeded bijection on 32-bit words behind the random-looking identifiers. */
module Hash {
  import opened Words
  import ModInverse

  const MULTIPLIER_1: U32 := 0xed5ad4bb
  const MULTIPLIER_2: U32 := 0xac4c1b51
  const MULTIPLIER_3: U32 := 0x31848bab

  // The inverses of the multipliers; InversesComputed ties them to Newton's iteration.
  const INVERSE_1: U32 := 0x79a85073
  const INVERSE_2: U32 := 0x469e0db1
  const INVERSE_3: U32 := 0x32b21703

  /** The mixer as a composition of invertible steps. */
  function Mixed(x: U32, seed: U32): U32 {
    XorOfWords(x, seed);
    var a := WrappingMul(XorShift(Xor(x, seed), 17), MULTIPLIER_1);
    var b := WrappingMul(XorShift(a, 11), MULTIPLIER_2);
    var c := WrappingMul(XorShift(b, 15), MULTIPLIER_3);
    XorShift(c, 14)
  }

  /** The steps of the mixer taken back one by one. */
  function Unmixed(x: U32, seed: U32): U32 {
    var c := WrappingMul(XorShift(XorShift(x, 14), 28), INVERSE_3);
    var b := WrappingMul(XorShift(XorShift(c, 15), 30), INVERSE_2);
    var a := WrappingMul(XorShift(XorShift(b, 11), 22), INVERSE_1);
    XorOfWords(XorShift(a, 17), seed);
    Xor(XorShift(a, 17), seed)
  }

  method Mix(word: U32, seed: U32) returns (x: U32)
    ensures x == Mixed(word, seed)
  {
    XorOfWords(word, seed);
    x := Xor(word, seed);
    x := XorShift(x, 17);
    x := WrappingMul(x, 0xed5ad4bb);
    x := XorShift(x, 11);
    x := WrappingMul(x, 0xac4c1b51);
    x := XorShift(x, 15);
    x := WrappingMul(x, 0x31848bab);
    x := XorShift(x, 14);
  }

  method Unmix(word: U32, seed: U32) returns (x: U32)
    ensures x == Unmixed(word, seed)
  {
    x := XorShift(word, 14);
    x := XorShift(x, 28);
    x := WrappingMul(x, INVERSE_3);
    x := XorShift(x, 15);
    x := XorShift(x, 30);
    x := WrappingMul(x, INVERSE_2);
    x := XorShift(x, 11);
    x := XorShift(x, 22);
    x := WrappingMul(x, INVERSE_1);
    x := XorShift(x, 17);
    XorOfWords(x, seed);
    x := Xor(x, seed);
  }

  /** A shift by `k` of at least eight bits is taken back by shifts by `k` and `2k`. */
  lemma XorShiftInverts(x: U32, k: nat)
    requires 8 <= k
    ensures XorShift(XorShift(XorShift(x, k), k), k + k) == x
    ensures XorShift(XorShift(XorShift(x, k), k + k), k) == x
    ensures 16 <= k ==> XorShift(XorShift(x, k), k) == x
  {
    XorShiftTwice(x, k);
    XorShiftTwice(x, k + k);
    XorShiftOut(x, 4 * k);
    if 16 <= k { XorShiftOut(x, k + k); }
    XorShiftsCommute(XorShift(x, k), k, k + k);
  }

  lemma XorShiftInvertsBack(x: U32, k: nat)
    requires 8 <= k
    ensures XorShift(XorShift(XorShift(x, k), k + k), k) == x
  {
    XorShiftInverts(x, k);
  }

  /** Multiplying by a word and then by its inverse gives the word back. */
  lemma ScaleInverts(x: U32, m: U32, n: U32)
    requires WrappingMul(m, n) == 1
    ensures WrappingMul(WrappingMul(x, m), n) == x
  {
    var p, q := (x * m) / WORD, (m * n) / WORD;
    assert WrappingMul(x, m) == x * m - p * WORD;
    assert m * n == 1 + q * WORD;
    ScaledBack(x, m, n, p, q);
  }

  lemma ScaledBack(x: U32, m: int, n: int, p: int, q: int)
    requires m * n == 1 + q * WORD
    ensures ((x * m - p * WORD) * n) % WORD == x
  {
    assert (x * m) * n == x * (m * n);
    assert (x * m - p * WORD) * n == x + (x * q - p * n) * WORD;
  }

  /** A word has one inverse at most. */
  lemma InverseUnique(m: U32, n: U32, x: U32)
    requires WrappingMul(m, n) == 1 && WrappingMul(m, x) == 1
    ensures n == x
  {
    ScaleInverts(x, m, n);
    assert WrappingMul(x, m) == WrappingMul(m, x);
  }

  lemma InverseComputed(m: U32, x: U32)
    requires m % 2 == 1 && WrappingMul(m, x) == 1
    ensures ModInverse.Inverse(m) == x
  {
    hide ModInverse.Inverse;
    ModInverse.OddInverse(m);
    InverseUnique(m, ModInverse.Inverse(m), x);
  }

  /** The constants are what Newton's iteration gives. */
  lemma InversesComputed()
    ensures ModInverse.Inverse(MULTIPLIER_1) == INVERSE_1
    ensures ModInverse.Inverse(MULTIPLIER_2) == INVERSE_2
    ensures ModInverse.Inverse(MULTIPLIER_3) == INVERSE_3
  {
    hide ModInverse.Inverse;
    InverseComputed(MULTIPLIER_1, INVERSE_1);
    InverseComputed(MULTIPLIER_2, INVERSE_2);
    InverseComputed(MULTIPLIER_3, INVERSE_3);
  }

  lemma MultipliersInvert(x: U32)
    ensures WrappingMul(WrappingMul(x, MULTIPLIER_1), INVERSE_1) == x
    ensures WrappingMul(WrappingMul(x, INVERSE_1), MULTIPLIER_1) == x
    ensures WrappingMul(WrappingMul(x, MULTIPLIER_2), INVERSE_2) == x
    ensures WrappingMul(WrappingMul(x, INVERSE_2), MULTIPLIER_2) == x
    ensures WrappingMul(WrappingMul(x, MULTIPLIER_3), INVERSE_3) == x
    ensures WrappingMul(WrappingMul(x, INVERSE_3), MULTIPLIER_3) == x
  {
    ScaleInverts(x, MULTIPLIER_1, INVERSE_1);
    ScaleInverts(x, INVERSE_1, MULTIPLIER_1);
    ScaleInverts(x, MULTIPLIER_2, INVERSE_2);
    ScaleInverts(x, INVERSE_2, MULTIPLIER_2);
    ScaleInverts(x, MULTIPLIER_3, INVERSE_3);
    ScaleInverts(x, INVERSE_3, MULTIPLIER_3);
  }

  lemma UnmixMix(x: U32, seed: U32)
    ensures Unmixed(Mixed(x, seed), seed) == x
  {
    hide WrappingMul, XorShift, Xor;
    XorOfWords(x, seed);
    var w := Xor(x, seed);
    var a := WrappingMul(XorShift(w, 17), MULTIPLIER_1);
    var b := WrappingMul(XorShift(a, 11), MULTIPLIER_2);
    var c := WrappingMul(XorShift(b, 15), MULTIPLIER_3);
    XorShiftInverts(c, 14);
    MultipliersInvert(XorShift(b, 15));
    XorShiftInverts(b, 15);
    MultipliersInvert(XorShift(a, 11));
    XorShiftInverts(a, 11);
    MultipliersInvert(XorShift(w, 17));
    XorShiftInverts(w, 17);
    XorCancels(x, seed);
  }

  lemma MixUnmix(x: U32, seed: U32)
    ensures Mixed(Unmixed(x, seed), seed) == x
  {
    hide WrappingMul, XorShift, Xor;
    var c := WrappingMul(XorShift(XorShift(x, 14), 28), INVERSE_3);
    var b := WrappingMul(XorShift(XorShift(c, 15), 30), INVERSE_2);
    var a := WrappingMul(XorShift(XorShift(b, 11), 22), INVERSE_1);
    XorOfWords(XorShift(a, 17), seed);
    XorCancels(XorShift(a, 17), seed);
    XorShiftInverts(a, 17);
    MultipliersInvert(XorShift(XorShift(b, 11), 22));
    XorShiftInvertsBack(b, 11);
    MultipliersInvert(XorShift(XorShift(c, 15), 30));
    XorShiftInvertsBack(c, 15);
    MultipliersInvert(XorShift(XorShift(x, 14), 28));
    XorShiftInvertsBack(x, 14);
  }

  /** The seed acts on the word before it is mixed, and mixing loses nothing. */
  lemma SeedActs(x: U32, s: U32, y: U32, t: U32)
    ensures Mixed(x, s) == Mixed(y, t) <==> Xor(x, s) == Xor(y, t)
  {
    hide WrappingMul, XorShift, Xor;
    if Mixed(x, s) == Mixed(y, t) {
      var w := Mixed(x, s);
      UnmixMix(x, s);
      UnmixMix(y, t);
      XorOfWords(Unmixed(w, 0), s);
      UnseededUnmix(w, s);
      UnseededUnmix(w, t);
      XorCancels(Unmixed(w, 0), s);
      XorCancels(Unmixed(w, 0), t);
    }
  }

  lemma UnseededUnmix(w: U32, seed: U32)
    ensures Unmixed(w, seed) == Xor(Unmixed(w, 0), seed)
  {
    hide WrappingMul, XorShift;
    var a := Unmixed(w, 0);
    assert Xor(a, 0) == a;
  }

  /** Different seeds mix a word differently. */
  lemma SeedsDiffer(x: U32, s: U32, t: U32)
    requires s != t
    ensures Mixed(x, s) != Mixed(x, t)
  {
    hide Mixed, Xor;
    SeedActs(x, s, x, t);
    XorCommutes(x, s);
    XorCommutes(x, t);
    XorCancels(s, x);
    XorCancels(t, x);
  }

  /** Maps a counter to an identifier. */
  function Map(count: U32, seed: U32): U32 {
    XorOfWords(Mixed(count, seed), Mixed(0, seed));
    Xor(Mixed(count, seed), Mixed(0, seed))
  }

  /** Recovers the counter. */
  function Unmap(id: U32, seed: U32): U32 {
    XorOfWords(id, Mixed(0, seed));
    Unmixed(Xor(id, Mixed(0, seed)), seed)
  }

  /** The two maps undo each other on every word, for every seed. */
  lemma MapBijective(count: U32, id: U32, seed: U32)
    ensures Unmap(Map(count, seed), seed) == count
    ensures Map(Unmap(id, seed), seed) == id
  {
    hide Mixed, Unmixed, Xor;
    XorOfWords(Mixed(count, seed), Mixed(0, seed));
    XorCancels(Mixed(count, seed), Mixed(0, seed));
    UnmixMix(count, seed);
    XorOfWords(id, Mixed(0, seed));
    XorCancels(id, Mixed(0, seed));
    MixUnmix(Xor(id, Mixed(0, seed)), seed);
  }

  lemma MapInjective(a: U32, b: U32, seed: U32)
    ensures a != b ==> Map(a, seed) != Map(b, seed)
  {
    hide *;
    MapBijective(a, 0, seed);
    MapBijective(b, 0, seed);
  }

  /** Zero, and zero alone, stands for itself. */
  lemma MapFixesZero(x: U32, seed: U32)
    ensures Map(x, seed) == 0 <==> x == 0
    ensures Unmap(x, seed) == 0 <==> x == 0
  {
    hide Mixed, Unmixed, Xor, Unmap;
    assert Map(0, seed) == 0 by { XorSelf(Mixed(0, seed)); }
    MapBijective(x, x, seed);
    MapBijective(0, 0, seed);
  }

  lemma XorOnce(a: nat, b: nat, c: nat)
    ensures Xor(Xor(a, b), Xor(b, c)) == Xor(a, c)
  {
    XorAssociates(a, b, Xor(b, c));
    XorAssociates(b, b, c);
    XorSelf(b);
  }

  /** A counter can be split between the seed and what is mapped. */
  lemma MapSplits(c: U32, d: U32, seed: U32)
    ensures Xor(c, d) < WORD && Xor(d, seed) < WORD
    ensures Map(Xor(c, d), seed) == Xor(Map(c, Xor(d, seed)), Map(d, seed))
  {
    XorOfWords(c, d);
    XorOfWords(d, seed);
    var cd, ds := Xor(c, d), Xor(d, seed);
    XorAssociates(c, d, seed);
    assert Xor(0, ds) == ds && Xor(0, seed) == seed;
    hide Mixed, Xor;
    SeedActs(cd, seed, c, ds);
    SeedActs(0, ds, d, seed);
    XorOnce(Mixed(c, ds), Mixed(0, ds), Mixed(0, seed));
  }
}
