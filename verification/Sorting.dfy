/** Fractional sort keys: byte strings placed between, before and after others. */
module Sorting {
  import opened Bytes

  /** Byte `i` of the low string, which is padded with zeros. */
  function LowAt(lo: ByteString, i: nat): Byte {
    if i < |lo| then lo[i] else 0
  }

  /** Byte `i` of the high string, which is padded with 0xff. */
  function HighAt(hi: ByteString, i: nat): Byte {
    if i < |hi| then hi[i] else MAX_BYTE
  }

  /** A byte fits strictly between the two strings at index `i`. */
  predicate GapAt(lo: ByteString, hi: ByteString, i: nat) {
    LowAt(lo, i) + 1 < HighAt(hi, i)
  }

  /** The first index in `i..len` with a gap, or `len`. */
  function FirstGap(lo: ByteString, hi: ByteString, i: nat, len: nat): (g: nat)
    requires i <= len
    ensures i <= g <= len
    ensures forall j :: i <= j < g ==> !GapAt(lo, hi, j)
    ensures g < len ==> GapAt(lo, hi, g)
    decreases len - i
  {
    if i == len || GapAt(lo, hi, i) then i else FirstGap(lo, hi, i + 1, len)
  }

  function Zeros(n: nat): (z: ByteString)
    ensures |z| == n && forall i :: 0 <= i < n ==> z[i] == 0
  {
    seq(n, _ => 0)
  }

  /** The middle string when byte `g` is the one substituted. */
  function Substituted(lo: ByteString, hi: ByteString, g: nat): ByteString
    requires GapAt(lo, hi, g)
  {
    (if g <= |lo| then lo[..g] else Zeros(g))
    + [(LowAt(lo, g) + HighAt(hi, g)) / 2]
    + (if g + 1 < |lo| then lo[g + 1..] else [])
  }

  function Middle(len: nat, lo: ByteString, hi: ByteString): ByteString {
    var g := FirstGap(lo, hi, 0, len);
    if g < len then Substituted(lo, hi, g) else lo + [MAX_BYTE / 2]
  }

  /**
   * The loop of the crate. The high string is consumed like an iterator whose
   * missing items read as 0xff, so the empty string stands for the endless one.
   */
  method MidpointImpl(len: nat, lo: ByteString, hi: ByteString) returns (mid: ByteString)
    ensures mid == Middle(len, lo, hi)
  {
    var rest := hi;
    for i := 0 to len
      invariant rest == if i <= |hi| then hi[i..] else []
      invariant FirstGap(lo, hi, 0, len) == FirstGap(lo, hi, i, len)
    {
      var a: int := if i < |lo| then lo[i] else 0;
      var b: int := MAX_BYTE;
      if rest != [] {
        b, rest := rest[0], rest[1..];
      }
      if a + 1 >= b {
        continue;
      }
      var extended := i + 1 < |lo|;
      mid := if i <= |lo| then lo[..i] else Zeros(i);
      mid := mid + [(a + b) / 2];
      if extended {
        mid := mid + lo[i + 1..];
      }
      return;
    }
    mid := lo + [MAX_BYTE / 2];
  }

  function Max(a: nat, b: nat): nat { if a < b then b else a }

  function Midpoint(lo: ByteString, hi: ByteString): ByteString {
    if lo == hi then lo
    else if Less(lo, hi) then Middle(Max(|lo|, |hi|), lo, hi)
    else Middle(Max(|lo|, |hi|), hi, lo)
  }

  function Before(s: ByteString): ByteString { Middle(|s|, [], s) }

  function After(s: ByteString): ByteString { Middle(|s|, s, []) }

  /** `Middle` is the smaller of two strings grown by one byte that `hi` continues with 0s and 1s. */
  predicate NoRoomAbovePrefix(lo: ByteString, hi: ByteString) {
    && |lo| < |hi| && lo == hi[..|lo|]
    && forall j :: |lo| <= j < |hi| ==> hi[j] <= 1
  }

  /** The substituted byte lies beyond a low string that is not all zeros, which is then lost. */
  predicate LosesLow(lo: ByteString, hi: ByteString) {
    var len := Max(|lo|, |hi|);
    var g := FirstGap(lo, hi, 0, len);
    && |lo| < g < len
    && exists j :: 0 <= j < |lo| && lo[j] != 0
  }

  /** A substitution at or before the end of `lo` lands strictly between. */
  lemma SubstitutedBetween(lo: ByteString, hi: ByteString, g: nat)
    requires Less(lo, hi) && g <= |lo| && g < Max(|lo|, |hi|) && GapAt(lo, hi, g)
    requires forall j :: 0 <= j < g ==> !GapAt(lo, hi, j)
    ensures Less(lo, Substituted(lo, hi, g)) && Less(Substituted(lo, hi, g), hi)
  {
    var mid := Substituted(lo, hi, g);
    assert mid[..g] == lo[..g];
    LessAt(lo, mid, g);
    var k := LessParts(lo, hi);
    if k < g {
      assert mid[..k] == lo[..g][..k] == lo[..k];
      assert mid[k] == lo[..g][k];
      LessAt(mid, hi, k);
    } else {
      assert mid[..g] == hi[..k][..g];
      assert g <= k < |hi|;
      assert hi[..k][..g] == hi[..g];
      LessAt(mid, hi, g);
    }
  }

  /** A substitution beyond the end of an all-zero `lo` is still strictly between. */
  lemma SubstitutedPastZeros(lo: ByteString, hi: ByteString, g: nat)
    requires |lo| < g < |hi| && GapAt(lo, hi, g)
    requires forall j :: 0 <= j < |lo| ==> lo[j] == 0
    ensures Less(lo, Substituted(lo, hi, g)) && Less(Substituted(lo, hi, g), hi)
  {
    var mid := Substituted(lo, hi, g);
    assert mid[..|lo|] == lo[..|lo|];
    LessAt(lo, mid, |lo|);
    ZerosBelow(mid, hi, g);
  }

  /** Zeros up to `g` and then a smaller byte sort below. */
  lemma {:induction false} ZerosBelow(a: ByteString, b: ByteString, g: nat)
    requires g < |a| && g < |b| && a[g] < b[g]
    requires forall j :: 0 <= j < g ==> a[j] == 0
    ensures Less(a, b)
  {
    if g > 0 && a[0] == b[0] { ZerosBelow(a[1..], b[1..], g - 1); }
  }

  /** A zero-filled string is below any string with an earlier non-zero byte. */
  lemma {:induction false} ZerosBelowNonZero(a: ByteString, b: ByteString, k: nat)
    requires k < |a| && k < |b| && b[k] != 0
    requires forall j :: 0 <= j <= k ==> a[j] == 0
    ensures Less(a, b)
  {
    if b[0] == 0 { ZerosBelowNonZero(a[1..], b[1..], k - 1); }
  }

  /** With no gap at all, a prefix is followed by 0s and 1s only, and growing it overshoots. */
  lemma GrownPastPrefix(lo: ByteString, hi: ByteString)
    requires |lo| < |hi| && lo == hi[..|lo|]
    requires forall j :: 0 <= j < |hi| ==> !GapAt(lo, hi, j)
    ensures NoRoomAbovePrefix(lo, hi) && Less(hi, lo + [MAX_BYTE / 2]) && !Less(lo + [MAX_BYTE / 2], hi)
  {
    forall j | |lo| <= j < |hi|
      ensures hi[j] <= 1
    {
      assert !GapAt(lo, hi, j);
    }
    var mid := lo + [MAX_BYTE / 2];
    assert mid[..|lo|] == lo;
    LessAt(hi, mid, |lo|);
    LessAsymmetric(hi, mid);
  }

  /** Growing `lo` is strictly between unless `lo` is a prefix of `hi`. */
  lemma GrownBetween(lo: ByteString, hi: ByteString)
    requires Less(lo, hi)
    requires forall j :: 0 <= j < Max(|lo|, |hi|) ==> !GapAt(lo, hi, j)
    ensures Less(lo, lo + [MAX_BYTE / 2])
    ensures Less(lo + [MAX_BYTE / 2], hi) <==> !NoRoomAbovePrefix(lo, hi)
  {
    var mid := lo + [MAX_BYTE / 2];
    assert mid[..|lo|] == lo[..|lo|];
    LessAt(lo, mid, |lo|);
    var k := LessParts(lo, hi);
    if k < |lo| {
      assert mid[..k] == lo[..k];
      LessAt(mid, hi, k);
      if |lo| < |hi| { assert lo[k] != hi[..|lo|][k]; }
    } else {
      GrownPastPrefix(lo, hi);
    }
  }

  lemma NoRoomNoGap(lo: ByteString, hi: ByteString, g: nat)
    requires NoRoomAbovePrefix(lo, hi) && g < |hi|
    ensures !GapAt(lo, hi, g)
  {
    if g < |lo| { assert lo[g] == hi[..|lo|][g]; }
  }

  /** Exactly when the midpoint of two ordered strings lies strictly between them. */
  lemma MidpointBetween(lo: ByteString, hi: ByteString)
    requires Less(lo, hi)
    ensures Less(lo, Midpoint(lo, hi)) && Less(Midpoint(lo, hi), hi)
            <==> !NoRoomAbovePrefix(lo, hi) && !LosesLow(lo, hi)
  {
    LessAsymmetric(lo, hi);
    var len := Max(|lo|, |hi|);
    var g := FirstGap(lo, hi, 0, len);
    if g == len {
      GrownBetween(lo, hi);
    } else if g <= |lo| {
      SubstitutedBetween(lo, hi, g);
      if NoRoomAbovePrefix(lo, hi) { NoRoomNoGap(lo, hi, g); }
    } else {
      assert GapAt(lo, hi, g) && hi[g] > 1;
      if k :| 0 <= k < |lo| && lo[k] != 0 {
        ZerosBelowNonZero(Midpoint(lo, hi), lo, k);
        LessAsymmetric(Midpoint(lo, hi), lo);
      } else {
        SubstitutedPastZeros(lo, hi, g);
      }
    }
  }

  /** Where the midpoint fails to lie between, it lies strictly outside, on a known side. */
  lemma MidpointOutside(lo: ByteString, hi: ByteString)
    requires Less(lo, hi)
    ensures NoRoomAbovePrefix(lo, hi) ==> Less(hi, Midpoint(lo, hi))
    ensures LosesLow(lo, hi) ==> Less(Midpoint(lo, hi), lo)
  {
    LessAsymmetric(lo, hi);
    var g := FirstGap(lo, hi, 0, Max(|lo|, |hi|));
    if NoRoomAbovePrefix(lo, hi) {
      if g < |hi| { NoRoomNoGap(lo, hi, g); }
      GrownPastPrefix(lo, hi);
    }
    if LosesLow(lo, hi) {
      var k :| 0 <= k < |lo| && lo[k] != 0;
      ZerosBelowNonZero(Midpoint(lo, hi), lo, k);
    }
  }

  /** The zeros down to the first byte of at least two past the low string, and half of that byte. */
  function ZeroFilled(lo: ByteString, hi: ByteString): ByteString
    requires |lo| <= |hi|
  {
    var g := FirstGap([], hi, |lo|, |hi|);
    Zeros(g) + [HighAt(hi, g) / 2]
  }

  /** What the midpoint is where it fails to lie between. */
  lemma MidpointOfFailure(lo: ByteString, hi: ByteString)
    requires Less(lo, hi)
    ensures LosesLow(lo, hi) ==> |lo| < |hi| && Midpoint(lo, hi) == ZeroFilled(lo, hi)
    ensures NoRoomAbovePrefix(lo, hi) ==> Midpoint(lo, hi) == lo + [MAX_BYTE / 2]
  {
    LessAsymmetric(lo, hi);
    var g := FirstGap(lo, hi, 0, Max(|lo|, |hi|));
    if LosesLow(lo, hi) {
      var z := FirstGap([], hi, |lo|, |hi|);
      assert GapAt([], hi, g) && z <= g;
      assert GapAt(lo, hi, z);
    }
    if NoRoomAbovePrefix(lo, hi) && g < |hi| { NoRoomNoGap(lo, hi, g); }
  }

  /** The midpoint does not depend on the order of its arguments, and equal strings are their own. */
  lemma MidpointSymmetric(a: ByteString, b: ByteString)
    ensures Midpoint(a, b) == Midpoint(b, a)
    ensures Midpoint(a, a) == a
  {
    LessTotal(a, b);
    if Less(a, b) { LessAsymmetric(a, b); }
    if Less(b, a) { LessAsymmetric(b, a); }
  }

  /** `Before` sorts below exactly the strings that hold a byte of at least two. */
  lemma BeforeBelow(s: ByteString)
    ensures Less(Before(s), s) <==> exists i :: 0 <= i < |s| && s[i] >= 2
  {
    var g := FirstGap([], s, 0, |s|);
    if g < |s| {
      assert GapAt([], s, g) && s[g] >= 2;
      ZerosBelow(Before(s), s, g);
    } else {
      forall j | 0 <= j < |s|
        ensures s[j] <= 1
      {
        assert !GapAt([], s, j);
      }
    }
  }

  /** Of the other strings, `Before` sorts strictly above. */
  lemma BeforeOutside(s: ByteString)
    requires forall i :: 0 <= i < |s| ==> s[i] < 2
    ensures Less(s, Before(s))
  {
    assert Before(s) == [] + [MAX_BYTE / 2];
  }

  /** `After` always sorts strictly above. */
  lemma AfterAbove(s: ByteString)
    ensures Less(s, After(s))
  {
    var g := FirstGap(s, [], 0, |s|);
    if g < |s| {
      assert GapAt(s, [], g);
      assert After(s)[..g] == s[..g];
      LessAt(s, After(s), g);
    } else {
      assert After(s)[..|s|] == s[..|s|];
      LessAt(s, After(s), |s|);
    }
  }

  function AfterN(s: ByteString, n: nat): ByteString
    decreases n
  {
    if n == 0 then s else AfterN(After(s), n - 1)
  }

  /** How often a byte can still move halfway to 0xff before only growing the string helps. */
  function Halvings(b: Byte): nat
    decreases MAX_BYTE - b
  {
    if b + 1 < MAX_BYTE then 1 + Halvings((b + MAX_BYTE) / 2) else 0
  }

  function Potential(s: ByteString): nat {
    if s == [] then 0 else Halvings(s[0]) + Potential(s[1..])
  }

  lemma {:induction false} PotentialAppend(a: ByteString, b: ByteString)
    ensures Potential(a + b) == Potential(a) + Potential(b)
  {
    if a == [] {
      assert a + b == b;
    } else {
      assert (a + b)[1..] == a[1..] + b;
      PotentialAppend(a[1..], b);
    }
  }

  lemma {:induction false} NoPotential(s: ByteString)
    requires forall j :: 0 <= j < |s| ==> s[j] + 1 >= MAX_BYTE
    ensures Potential(s) == 0
  {
    if s != [] { NoPotential(s[1..]); }
  }

  /** One step spends one halving, or grows the string by one byte that holds seven. */
  lemma AfterPotential(s: ByteString)
    ensures if Potential(s) > 0
            then |After(s)| == |s| && Potential(After(s)) == Potential(s) - 1
            else |After(s)| == |s| + 1 && Potential(After(s)) == 7
  {
    var g := FirstGap(s, [], 0, |s|);
    if g < |s| {
      assert GapAt(s, [], g);
      var m: Byte := (s[g] + MAX_BYTE) / 2;
      assert s == s[..g] + ([s[g]] + s[g + 1..]);
      assert After(s) == s[..g] + ([m] + s[g + 1..]);
      PotentialAppend(s[..g], [s[g]] + s[g + 1..]);
      PotentialAppend(s[..g], [m] + s[g + 1..]);
      assert Halvings(s[g]) == 1 + Halvings(m);
    } else {
      forall j | 0 <= j < |s|
        ensures s[j] + 1 >= MAX_BYTE
      {
        assert !GapAt(s, [], j);
      }
      NoPotential(s);
      PotentialAppend(s, [127]);
      HalvingsOfNewByte();
    }
  }

  lemma HalvingsOfNewByte()
    ensures Potential([127]) == 7
  {
    assert Halvings(127) == 1 + Halvings(191) == 2 + Halvings(223) == 3 + Halvings(239);
    assert Halvings(239) == 1 + Halvings(247) == 2 + Halvings(251) == 3 + Halvings(253) == 4 + Halvings(254);
  }

  /** The exact growth of repeated `After`: one byte for every eight steps past the potential. */
  lemma {:induction false} AfterNLength(s: ByteString, n: nat)
    ensures |AfterN(s, n)| == |s| + (if n <= Potential(s) then 0 else (n - Potential(s) + 7) / 8)
    ensures |AfterN(s, n)| <= |s| + (n + 7) / 8
    decreases n
  {
    if n > 0 {
      AfterPotential(s);
      AfterNLength(After(s), n - 1);
    }
  }

  lemma {:induction false} AfterNSplit(s: ByteString, m: nat, n: nat)
    ensures AfterN(s, m + n) == AfterN(AfterN(s, m), n)
    decreases m
  {
    if m > 0 { AfterNSplit(After(s), m - 1, n); }
  }

  /** Every later string sorts strictly above every earlier one. */
  lemma {:induction false} AfterNIncreasing(s: ByteString, m: nat, n: nat)
    requires m < n
    ensures Less(AfterN(s, m), AfterN(s, n))
    decreases n
  {
    var t := AfterN(s, n - 1);
    AfterNSplit(s, n - 1, 1);
    assert AfterN(t, 1) == AfterN(After(t), 0) == After(t);
    AfterAbove(t);
    if m < n - 1 {
      AfterNIncreasing(s, m, n - 1);
      LessTransitive(AfterN(s, m), t, After(t));
    }
  }
}
