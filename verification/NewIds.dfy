/** Fresh identifiers for local objects and images, drawn from a wrapping counter. */
module NewIds {
  import opened Options
  import opened Words
  import Hash

  /** What a counter value is drawn as. */
  function Drawn(seed: U32, count: U32): U32 { Hash.Map(count, seed) }

  lemma DrawnDistinct(seed: U32, a: U32, b: U32)
    ensures a != b ==> Drawn(seed, a) != Drawn(seed, b)
    ensures a != 0 ==> Drawn(seed, a) != 0
  {
    hide Hash.Map;
    Hash.MapInjective(a, b, seed);
    Hash.MapFixesZero(a, seed);
  }

  /** The next `n` counter values from `from` have all been used. */
  ghost predicate AllUsed(seed: U32, used: set<U32>, from: nat, n: nat)
    requires from + n <= WORD
  {
    forall i :: from <= i < from + n ==> Drawn(seed, i) in used
  }

  /** Distinct counters are drawn as distinct identifiers, so no more than `|used|` in a row can be taken. */
  lemma {:induction false} RejectionsBounded(seed: U32, used: set<U32>, from: nat, n: nat)
    requires from + n <= WORD && AllUsed(seed, used, from, n)
    ensures n <= |used|
    decreases n
  {
    hide Drawn;
    if n > 0 {
      var last := Drawn(seed, from + n - 1);
      var rest := used - {last};
      forall i | from <= i < from + n - 1
        ensures Drawn(seed, i) in rest
      {
        DrawnDistinct(seed, i, from + n - 1);
      }
      RejectionsBounded(seed, rest, from, n - 1);
    }
  }

  class AtomicIds {
    const seed: U32
    var last: U32

    constructor (seed: U32)
      ensures this.seed == seed && last == 1
    {
      this.seed := seed;
      last := 1;
    }

    /** Draws at the counter and moves it on; zero, where it wraps, draws nothing. */
    method Next() returns (id: Option<U32>)
      modifies this
      ensures last == if old(last) + 1 == WORD then 0 else old(last) + 1
      ensures id == if old(last) == 0 then None else Some(Drawn(seed, old(last)))
      ensures id.Some? ==> id.value != 0
    {
      hide WrappingAdd, Drawn;
      WrappingSuccessor(last);
      var next := last;
      last := WrappingAdd(last, 1);
      if next == 0 {
        return None;
      }
      DrawnDistinct(seed, next, 0);
      id := Some(Drawn(seed, next));
    }
  }

  /**
   * Draws until an identifier is new. The draws rejected on the way are all used
   * ones, and the search gives up only where the counter wraps.
   */
  method NewId(ids: AtomicIds, used: set<U32>) returns (id: Option<U32>, used': set<U32>, rejected: nat)
    modifies ids
    ensures old(ids.last) + rejected <= WORD
    ensures AllUsed(ids.seed, used, old(ids.last), rejected)
    ensures rejected <= |used|
    ensures id.Some? ==>
              && old(ids.last) != 0 && old(ids.last) + rejected < WORD
              && id.value == Drawn(ids.seed, old(ids.last) + rejected)
              && id.value != 0 && id.value !in used
              && used' == used + {id.value}
    ensures id.None? ==>
              && used' == used
              && (old(ids.last) == 0 || old(ids.last) + rejected == WORD)
  {
    hide Drawn;
    rejected := 0;
    ghost var from := ids.last;
    while true
      invariant from + rejected <= WORD
      invariant ids.last == if from + rejected == WORD then 0 else from + rejected
      invariant from == 0 ==> rejected == 0
      invariant AllUsed(ids.seed, used, from, rejected)
      decreases WORD - rejected
    {
      RejectionsBounded(ids.seed, used, from, rejected);
      id := ids.Next();
      if id == None {
        return id, used, rejected;
      }
      if id.value !in used {
        used' := used + {id.value};
        return;
      }
      rejected := rejected + 1;
    }
  }
}
