/** Allocators of random-looking identifiers. */
module Identifiers {
  import opened Options
  import opened Words
  import Hash

  /** The identifiers that counters `1..last` stand for. */
  ghost function Issued(seed: U32, last: nat): (s: set<U32>)
    requires last < WORD
  {
    set i | 1 <= i <= last :: Hash.Map(i, seed)
  }

  /** A list without repetitions. */
  ghost predicate Distinct<T>(s: seq<T>) {
    forall i, j :: 0 <= i < j < |s| ==> s[i] != s[j]
  }

  ghost function Elements<T>(s: seq<T>): set<T> {
    set x | x in s
  }

  lemma {:induction false} DistinctSize<T>(s: seq<T>)
    requires Distinct(s)
    ensures |Elements(s)| == |s|
  {
    if s != [] {
      DistinctSize(s[1..]);
      assert Elements(s) == {s[0]} + Elements(s[1..]);
    }
  }

  /** The counter never stands for zero, and never twice for the same identifier. */
  lemma {:induction false} IssuedSize(seed: U32, last: nat)
    requires last < WORD
    ensures |Issued(seed, last)| == last && 0 !in Issued(seed, last)
    decreases last
  {
    hide Hash.Map;
    if last > 0 {
      IssuedSize(seed, last - 1);
      IssuedStep(seed, last - 1);
    } else {
      assert Issued(seed, 0) == {};
    }
  }

  /** The next counter stands for a new, non-zero identifier. */
  lemma IssuedStep(seed: U32, last: nat)
    requires last + 1 < WORD
    ensures Issued(seed, last + 1) == Issued(seed, last) + {Hash.Map(last + 1, seed)}
    ensures Hash.Map(last + 1, seed) !in Issued(seed, last)
    ensures Hash.Map(last + 1, seed) != 0
  {
    hide Hash.Map;
    Hash.MapFixesZero(last + 1, seed);
    forall i | 1 <= i <= last
      ensures Hash.Map(i, seed) != Hash.Map(last + 1, seed)
    {
      Hash.MapInjective(i, last + 1, seed);
    }
  }

  /** The recycling allocator's state: what has been counted and what has come back. */
  datatype Allocator = Allocator(seed: U32, last: U32, free: seq<U32>) {
    /** Freed identifiers are handed out first, oldest first; then the counter goes on until it wraps. */
    function Next(): (r: (Option<U32>, Allocator)) {
      if free != [] then (Some(free[0]), this.(free := free[1..]))
      else if last + 1 == WORD then (None, this)
      else (Some(Hash.Map(last + 1, seed)), this.(last := last + 1))
    }

    function Free(id: U32): Allocator {
      if id == 0 then this else this.(free := free + [id])
    }

    /** Live and freed identifiers partition what has been issued, each freed one waiting once. */
    ghost predicate Partition(live: set<U32>) {
      && Distinct(free)
      && live !! Elements(free)
      && live + Elements(free) == Issued(seed, last)
    }
  }

  /** Nothing is lost: every issued identifier is live or waiting, and zero is neither. */
  lemma PartitionCounts(a: Allocator, live: set<U32>)
    requires a.Partition(live)
    ensures |live| + |a.free| == a.last
    ensures 0 !in live && 0 !in a.free
  {
    IssuedSize(a.seed, a.last);
    DistinctSize(a.free);
    assert |live + Elements(a.free)| == |live| + |Elements(a.free)|;
    assert 0 !in live + Elements(a.free);
  }

  lemma FreshPartition(seed: U32)
    ensures Allocator(seed, 0, []).Partition({})
  {
  }

  lemma RecycledPartition(a: Allocator, live: set<U32>)
    requires a.Partition(live) && a.free != []
    ensures a.free[0] !in live
    ensures a.(free := a.free[1..]).Partition(live + {a.free[0]})
  {
    hide Issued;
    var id, rest := a.free[0], a.free[1..];
    assert id in Elements(a.free);
    assert Elements(a.free) == {id} + Elements(rest);
    assert id !in Elements(rest);
  }

  lemma CountedPartition(a: Allocator, live: set<U32>)
    requires a.Partition(live) && a.free == [] && a.last + 1 < WORD
    ensures Hash.Map(a.last + 1, a.seed) !in live
    ensures a.(last := a.last + 1).Partition(live + {Hash.Map(a.last + 1, a.seed)})
  {
    hide Hash.Map, Issued;
    IssuedStep(a.seed, a.last);
    assert Elements(a.free) == {};
  }

  /** An identifier that is handed out is neither zero nor live, and becomes live. */
  lemma NextPartition(a: Allocator, live: set<U32>)
    requires a.Partition(live)
    ensures a.Next().0.Some? ==>
              && a.Next().0.value != 0
              && a.Next().0.value !in live
              && a.Next().1.Partition(live + {a.Next().0.value})
    ensures a.Next().0.None? ==> a.Next().1.Partition(live)
  {
    hide Hash.Map, Issued, Allocator.Partition;
    PartitionCounts(a, live);
    if a.free != [] {
      RecycledPartition(a, live);
    } else if a.last + 1 < WORD {
      CountedPartition(a, live);
      IssuedStep(a.seed, a.last);
    }
  }

  /** Allocation fails exactly when every non-zero word is live. */
  lemma NextFails(a: Allocator, live: set<U32>)
    requires a.Partition(live)
    ensures a.Next().0.None? <==> |live| == WORD - 1
  {
    hide Hash.Map;
    PartitionCounts(a, live);
  }

  /** A live identifier that is freed waits to be handed out again. */
  lemma FreePartition(a: Allocator, live: set<U32>, id: U32)
    requires a.Partition(live) && id in live
    ensures a.Free(id).Partition(live - {id})
  {
    hide Issued;
    PartitionCounts(a, live);
    FreedSets(a.free, live, id);
    assert a.Free(id) == a.(free := a.free + [id]);
  }

  lemma FreedSets(free: seq<U32>, live: set<U32>, id: U32)
    requires Distinct(free) && live !! Elements(free) && id in live
    ensures Distinct(free + [id]) && live - {id} !! Elements(free + [id])
    ensures live - {id} + Elements(free + [id]) == live + Elements(free)
  {
    assert Elements(free + [id]) == Elements(free) + {id};
    forall k | 0 <= k < |free|
      ensures free[k] != id
    {
      assert free[k] in Elements(free);
    }
  }

  // ----- The queue

  function FreedAll(a: Allocator, ids: seq<U32>): Allocator
    decreases |ids|
  {
    if ids == [] then a else FreedAll(a.Free(ids[0]), ids[1..])
  }

  /** The next `n` identifiers, in order, as far as there are any. */
  function Drawn(a: Allocator, n: nat): seq<U32>
    decreases n
  {
    if n == 0 || a.Next().0.None? then [] else [a.Next().0.value] + Drawn(a.Next().1, n - 1)
  }

  lemma {:induction false} FreedAllQueues(a: Allocator, ids: seq<U32>)
    requires 0 !in ids
    ensures FreedAll(a, ids) == a.(free := a.free + ids)
    decreases |ids|
  {
    if ids == [] {
      assert a.free + [] == a.free;
    } else {
      FreedAllQueues(a.Free(ids[0]), ids[1..]);
      assert a.free + [ids[0]] + ids[1..] == a.free + ids;
    }
  }

  lemma {:induction false} DrawnQueue(a: Allocator)
    ensures Drawn(a, |a.free|) == a.free
    decreases |a.free|
  {
    hide Hash.Map;
    if a.free != [] { DrawnQueue(a.(free := a.free[1..])); }
  }

  /** What is freed first is issued first. */
  lemma FirstFreedFirstIssued(a: Allocator, ids: seq<U32>)
    requires 0 !in ids
    ensures Drawn(FreedAll(a, ids), |a.free| + |ids|) == a.free + ids
  {
    FreedAllQueues(a, ids);
    DrawnQueue(FreedAll(a, ids));
  }

  class Ids {
    const seed: U32
    var last: U32
    var free: seq<U32>

    function Value(): Allocator reads this { Allocator(seed, last, free) }

    constructor (seed: U32)
      ensures Value() == Allocator(seed, 0, [])
    {
      this.seed := seed;
      last, free := 0, [];
    }

    method Next() returns (id: Option<U32>)
      modifies this
      ensures (id, Value()) == old(Value().Next())
    {
      hide Hash.Map, WrappingAdd;
      WrappingSuccessor(last);
      if free != [] {
        id, free := Some(free[0]), free[1..];
        return;
      }
      var next := WrappingAdd(last, 1);
      if next == 0 {
        return None;
      }
      last := next;
      var raw := Hash.Map(next, seed);
      Hash.MapFixesZero(next, seed);
      id := Some(raw);
    }

    method Free(id: U32)
      modifies this
      ensures Value() == old(Value()).Free(id)
    {
      if id != 0 {
        free := free + [id];
      }
    }
  }
}
