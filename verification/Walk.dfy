/** Going through the whole hierarchy from the root with an explicit stack. */
module Walk {
  import opened Identifiers
  import opened Order

  // ----- Depth below the root

  /** The root is `n` parents up. */
  ghost predicate AtDepth(objects: Table, id: RemoteId, n: nat)
    decreases n
  {
    if n == 0 then id == ROOT else id in objects && AtDepth(objects, Parent(objects, id), n - 1)
  }

  /** The chain of groups of the object ends in the root; it does not if it is cyclic or broken. */
  ghost predicate Reaches(objects: Table, id: RemoteId) {
    exists n: nat :: n > 0 && AtDepth(objects, id, n)
  }

  lemma {:induction false} DepthUnique(objects: Table, id: RemoteId, m: nat, n: nat)
    requires ROOT !in objects && AtDepth(objects, id, m) && AtDepth(objects, id, n)
    ensures m == n
    decreases m
  {
    if m > 0 && n > 0 { DepthUnique(objects, Parent(objects, id), m - 1, n - 1); }
  }

  ghost function Chain(objects: Table, id: RemoteId, n: nat): set<RemoteId>
    requires AtDepth(objects, id, n)
    decreases n
  {
    if n == 0 then {} else {id} + Chain(objects, Parent(objects, id), n - 1)
  }

  lemma {:induction false} ChainSize(objects: Table, id: RemoteId, n: nat)
    requires ROOT !in objects && AtDepth(objects, id, n)
    ensures |Chain(objects, id, n)| == n && Chain(objects, id, n) <= objects.Keys
    ensures forall j, e: nat :: j in Chain(objects, id, n) && AtDepth(objects, j, e) ==> 0 < e <= n
    decreases n
  {
    if n > 0 {
      var p := Parent(objects, id);
      ChainSize(objects, p, n - 1);
      forall e: nat | AtDepth(objects, id, e)
        ensures e == n
      {
        DepthUnique(objects, id, e, n);
      }
    }
  }

  /** No chain is longer than there are objects. */
  lemma DepthBound(objects: Table, id: RemoteId, n: nat)
    requires ROOT !in objects && AtDepth(objects, id, n)
    ensures n <= |objects|
  {
    ChainSize(objects, id, n);
    SubsetSize(Chain(objects, id, n), objects.Keys);
  }

  lemma {:induction false} SubsetSize<T>(a: set<T>, b: set<T>)
    requires a <= b
    ensures |a| <= |b|
    decreases a
  {
    if x :| x in a { SubsetSize(a - {x}, b - {x}); }
  }

  // ----- Both orders of going through it

  function Kids(children: Index, id: RemoteId): seq<SortKey> { Sorted(ChildSet(children, id)) }

  /** Every object before its children, siblings in order. `fuel` bounds the depth. */
  ghost function Forest(children: Index, keys: seq<SortKey>, fuel: nat): seq<RemoteId>
    decreases fuel, |keys|
  {
    if keys == [] || fuel == 0 then []
    else [keys[0].id] + Forest(children, Kids(children, keys[0].id), fuel - 1) + Forest(children, keys[1..], fuel)
  }

  /** Every object before its children, siblings in reverse order. */
  ghost function ForestBack(children: Index, keys: seq<SortKey>, fuel: nat): seq<RemoteId>
    decreases fuel, |keys|
  {
    if keys == [] || fuel == 0 then []
    else
      var k := keys[|keys| - 1];
      [k.id] + ForestBack(children, Kids(children, k.id), fuel - 1) + ForestBack(children, keys[..|keys| - 1], fuel)
  }

  ghost function Whole(objects: Table, children: Index): seq<RemoteId> {
    Forest(children, Kids(children, ROOT), |objects|)
  }

  ghost function WholeBack(objects: Table, children: Index): seq<RemoteId> {
    ForestBack(children, Kids(children, ROOT), |objects|)
  }

  function Up(objects: Table, id: RemoteId, n: nat): RemoteId
    decreases n
  {
    if n == 0 || id !in objects then id else Up(objects, Parent(objects, id), n - 1)
  }

  lemma {:induction false} UpStep(objects: Table, id: RemoteId, n: nat, m: nat)
    requires AtDepth(objects, id, m) && n < m
    ensures var u := Up(objects, id, n);
            u in objects && AtDepth(objects, u, m - n) && Up(objects, id, n + 1) == Parent(objects, u)
    decreases n
  {
    if n > 0 { UpStep(objects, Parent(objects, id), n - 1, m - 1); }
  }

  /** An object is below one of the keys, which lie at depth `d + 1`. */
  ghost predicate Below(objects: Table, keys: seq<SortKey>, d: nat, id: RemoteId) {
    exists m: nat :: m > d && AtDepth(objects, id, m) && HasId(keys, Up(objects, id, m - d - 1))
  }

  ghost predicate HasId(keys: seq<SortKey>, id: RemoteId) {
    exists k :: k in keys && k.id == id
  }

  ghost predicate KeysAt(objects: Table, keys: seq<SortKey>, d: nat) {
    forall k :: k in keys ==> AtDepth(objects, k.id, d)
  }

  lemma KidsAre(objects: Table, children: Index, id: RemoteId)
    requires Indexed(objects, children)
    ensures forall j :: HasId(Kids(children, id), j) <==> j in objects && Parent(objects, j) == id
    ensures forall d: nat :: AtDepth(objects, id, d) ==> KeysAt(objects, Kids(children, id), d + 1)
    ensures DistinctIds(Kids(children, id))
  {
    var s := Members(objects, id);
    var keys := Kids(children, id);
    assert ChildSet(children, id) == s;
    assert forall k :: k in keys <==> k in Elements(keys);
    forall j
      ensures HasId(keys, j) <==> j in objects && Parent(objects, j) == id
    {
      if j in objects && Parent(objects, j) == id {
        assert KeyOf(objects, j) in s;
      }
    }
    if keys != [] { AscendingRest(keys); }
    forall i, j | 0 <= i < j < |keys|
      ensures keys[i].id != keys[j].id
    {
      assert keys[i] in keys && keys[j] in keys;
    }
  }

  ghost predicate DistinctIds(keys: seq<SortKey>) {
    forall i, j :: 0 <= i < j < |keys| ==> keys[i].id != keys[j].id
  }

  ghost predicate BelowFirst(objects: Table, children: Index, keys: seq<SortKey>, d: nat, id: RemoteId)
    requires keys != []
  {
    Below(objects, Kids(children, keys[0].id), d + 1, id)
  }

  /** Below the first key, in turn: the key itself and what is below its children. */
  lemma BelowSplit(objects: Table, children: Index, keys: seq<SortKey>, d: nat, id: RemoteId)
    requires Indexed(objects, children) && ROOT !in objects
    requires keys != [] && KeysAt(objects, keys, d + 1) && DistinctIds(keys)
    ensures Below(objects, keys, d, id)
            <==> id == keys[0].id || BelowFirst(objects, children, keys, d, id) || Below(objects, keys[1..], d, id)
    ensures !(id == keys[0].id && BelowFirst(objects, children, keys, d, id))
    ensures !(id == keys[0].id && Below(objects, keys[1..], d, id))
    ensures !(BelowFirst(objects, children, keys, d, id) && Below(objects, keys[1..], d, id))
  {
    hide Indexed, Kids;
    KidsAre(objects, children, keys[0].id);
    assert keys[0] in keys && AtDepth(objects, keys[0].id, d + 1);
    forall m: nat | m > d && AtDepth(objects, id, m)
      ensures m > d + 1 && HasId(Kids(children, keys[0].id), Up(objects, id, m - d - 2))
              <==> m > d + 1 && Up(objects, id, m - d - 1) == keys[0].id
      ensures m == d + 1 ==> Up(objects, id, m - d - 1) == id
      ensures id == keys[0].id ==> m == d + 1
      ensures HasId(keys, Up(objects, id, m - d - 1))
              <==> Up(objects, id, m - d - 1) == keys[0].id || HasId(keys[1..], Up(objects, id, m - d - 1))
      ensures !(Up(objects, id, m - d - 1) == keys[0].id && HasId(keys[1..], Up(objects, id, m - d - 1)))
    {
      HasIdFirst(keys, Up(objects, id, m - d - 1));
      if m > d + 1 { UpStep(objects, id, m - d - 2, m); }
      if id == keys[0].id { DepthUnique(objects, id, m, d + 1); }
    }
    forall m: nat, n: nat | AtDepth(objects, id, m) && AtDepth(objects, id, n)
      ensures m == n
    {
      DepthUnique(objects, id, m, n);
    }
  }

  lemma HasIdFirst(keys: seq<SortKey>, id: RemoteId)
    requires keys != []
    ensures HasId(keys, id) <==> keys[0].id == id || HasId(keys[1..], id)
    ensures DistinctIds(keys) ==> DistinctIds(keys[1..]) && !(keys[0].id == id && HasId(keys[1..], id))
  {
    assert keys == [keys[0]] + keys[1..];
    assert forall i :: 0 <= i < |keys[1..]| ==> keys[1..][i] == keys[i + 1];
  }

  /** What is gone through is what lies below, and nothing comes twice. */
  lemma {:induction false} ForestIs(objects: Table, children: Index, keys: seq<SortKey>, d: nat, fuel: nat)
    requires Indexed(objects, children) && ROOT !in objects
    requires KeysAt(objects, keys, d + 1) && DistinctIds(keys) && fuel + d >= |objects|
    ensures forall id :: id in Forest(children, keys, fuel) <==> Below(objects, keys, d, id)
    ensures Distinct(Forest(children, keys, fuel))
    decreases fuel, |keys|
  {
    hide Indexed, Below, Kids, AtDepth, Forest, BelowFirst;
    if keys == [] {
      NoForest(objects, children, d, fuel);
    } else {
      assert keys[0] in keys;
      DepthBound(objects, keys[0].id, d + 1);
      KidsAre(objects, children, keys[0].id);
      HasIdFirst(keys, keys[0].id);
      ForestFirst(children, keys, fuel);
      BelowFirstIs(objects, children, keys, d);
      ForestIs(objects, children, Kids(children, keys[0].id), d + 1, fuel - 1);
      ForestIs(objects, children, keys[1..], d, fuel);
      ForestIsStep(objects, children, keys, d, Forest(children, Kids(children, keys[0].id), fuel - 1),
                   Forest(children, keys[1..], fuel));
    }
  }

  lemma BelowFirstIs(objects: Table, children: Index, keys: seq<SortKey>, d: nat)
    requires keys != []
    ensures forall id :: BelowFirst(objects, children, keys, d, id)
                         <==> Below(objects, Kids(children, keys[0].id), d + 1, id)
  {
    hide Below, Kids;
  }

  lemma NoForest(objects: Table, children: Index, d: nat, fuel: nat)
    ensures Forest(children, [], fuel) == [] && forall id :: !Below(objects, [], d, id)
  {
  }

  lemma ForestFirst(children: Index, keys: seq<SortKey>, fuel: nat)
    requires keys != [] && fuel > 0
    ensures Forest(children, keys, fuel)
            == [keys[0].id] + Forest(children, Kids(children, keys[0].id), fuel - 1) + Forest(children, keys[1..], fuel)
  {
  }

  lemma ForestIsStep(objects: Table, children: Index, keys: seq<SortKey>, d: nat, first: seq<RemoteId>, rest: seq<RemoteId>)
    requires Indexed(objects, children) && ROOT !in objects
    requires keys != [] && KeysAt(objects, keys, d + 1) && DistinctIds(keys)
    requires forall id :: id in first <==> BelowFirst(objects, children, keys, d, id)
    requires forall id :: id in rest <==> Below(objects, keys[1..], d, id)
    requires Distinct(first) && Distinct(rest)
    ensures forall id :: id in [keys[0].id] + first + rest <==> Below(objects, keys, d, id)
    ensures Distinct([keys[0].id] + first + rest)
  {
    hide Indexed, Below, Kids, BelowFirst, KeysAt, DistinctIds;
    forall id
      ensures id in [keys[0].id] + first + rest <==> Below(objects, keys, d, id)
      ensures !(id == keys[0].id && id in first) && !((id == keys[0].id || id in first) && id in rest)
    {
      BelowSplit(objects, children, keys, d, id);
    }
    DistinctConcat([keys[0].id], first);
    DistinctConcat([keys[0].id] + first, rest);
  }

  lemma DistinctConcat<T>(a: seq<T>, b: seq<T>)
    requires Distinct(a) && Distinct(b) && forall x :: !(x in a && x in b)
    ensures Distinct(a + b)
  {
    forall i, j | 0 <= i < j < |a + b|
      ensures (a + b)[i] != (a + b)[j]
    {
      if i < |a| <= j { assert a[i] in a && b[j - |a|] in b; }
    }
  }

  /** The walk yields every object whose chain ends in the root, once; cycles elsewhere do not matter. */
  lemma WholeIs(objects: Table, children: Index)
    requires Indexed(objects, children) && ROOT !in objects
    ensures forall id :: id in Whole(objects, children) <==> Reaches(objects, id)
    ensures Distinct(Whole(objects, children))
  {
    hide Indexed, Kids;
    KidsAre(objects, children, ROOT);
    assert AtDepth(objects, ROOT, 0);
    var keys := Kids(children, ROOT);
    ForestIs(objects, children, keys, 0, |objects|);
    forall id
      ensures Below(objects, keys, 0, id) <==> Reaches(objects, id)
    {
      if m: nat :| m > 0 && AtDepth(objects, id, m) {
        UpStep(objects, id, m - 1, m);
        assert AtDepth(objects, Up(objects, id, m - 1), 1);
      }
    }
  }

  /** Everything but the keys comes after its parent. */
  ghost predicate ParentsFirst(objects: Table, keys: seq<SortKey>, f: seq<RemoteId>) {
    forall i :: 0 <= i < |f| ==> HasId(keys, f[i]) || (f[i] in objects && Parent(objects, f[i]) in f[..i])
  }

  /** Going through a node, its children and then its siblings keeps parents first. */
  lemma ParentsFirstStep(objects: Table, k: SortKey, kids: seq<SortKey>, others: seq<SortKey>, keys: seq<SortKey>,
                         first: seq<RemoteId>, rest: seq<RemoteId>)
    requires forall j :: HasId(kids, j) ==> j in objects && Parent(objects, j) == k.id
    requires forall j :: HasId(keys, j) <==> j == k.id || HasId(others, j)
    requires ParentsFirst(objects, kids, first) && ParentsFirst(objects, others, rest)
    ensures ParentsFirst(objects, keys, [k.id] + first + rest)
  {
    hide HasId, Parent;
    var f := [k.id] + first + rest;
    forall i | 0 <= i < |f|
      ensures HasId(keys, f[i]) || (f[i] in objects && Parent(objects, f[i]) in f[..i])
    {
      if 0 < i <= |first| {
        assert f[..i] == [k.id] + first[..i - 1];
      } else if i > 0 {
        assert f[..i] == [k.id] + first + rest[..i - 1 - |first|];
      }
    }
  }

  lemma {:induction false} ForestParentsFirst(objects: Table, children: Index, keys: seq<SortKey>, fuel: nat)
    requires Indexed(objects, children)
    ensures ParentsFirst(objects, keys, Forest(children, keys, fuel))
    decreases fuel, |keys|
  {
    hide Indexed, ParentsFirst, Forest, Kids, HasId;
    if keys == [] || fuel == 0 {
      NothingFirst(objects, children, keys, fuel);
    } else {
      ForestFirst(children, keys, fuel);
      KidsAre(objects, children, keys[0].id);
      forall j
        ensures HasId(keys, j) <==> keys[0].id == j || HasId(keys[1..], j)
      {
        HasIdFirst(keys, j);
      }
      ForestParentsFirst(objects, children, Kids(children, keys[0].id), fuel - 1);
      ForestParentsFirst(objects, children, keys[1..], fuel);
      ParentsFirstStep(objects, keys[0], Kids(children, keys[0].id), keys[1..], keys,
                       Forest(children, Kids(children, keys[0].id), fuel - 1), Forest(children, keys[1..], fuel));
    }
  }

  lemma NothingFirst(objects: Table, children: Index, keys: seq<SortKey>, fuel: nat)
    requires keys == [] || fuel == 0
    ensures ParentsFirst(objects, keys, Forest(children, keys, fuel))
    ensures ParentsFirst(objects, keys, ForestBack(children, keys, fuel))
  {
  }

  lemma {:induction false} ForestBackParentsFirst(objects: Table, children: Index, keys: seq<SortKey>, fuel: nat)
    requires Indexed(objects, children)
    ensures ParentsFirst(objects, keys, ForestBack(children, keys, fuel))
    decreases fuel, |keys|
  {
    hide Indexed, ParentsFirst, ForestBack, Kids, HasId;
    if keys == [] || fuel == 0 {
      NothingFirst(objects, children, keys, fuel);
    } else {
      var k, others := keys[|keys| - 1], keys[..|keys| - 1];
      ForestBackLast(children, keys, fuel);
      KidsAre(objects, children, k.id);
      forall j
        ensures HasId(keys, j) <==> k.id == j || HasId(others, j)
      {
        HasIdLast(keys, j);
      }
      ForestBackParentsFirst(objects, children, Kids(children, k.id), fuel - 1);
      ForestBackParentsFirst(objects, children, others, fuel);
      ParentsFirstStep(objects, k, Kids(children, k.id), others, keys,
                       ForestBack(children, Kids(children, k.id), fuel - 1), ForestBack(children, others, fuel));
    }
  }

  lemma HasIdLast(keys: seq<SortKey>, id: RemoteId)
    requires keys != []
    ensures HasId(keys, id) <==> keys[|keys| - 1].id == id || HasId(keys[..|keys| - 1], id)
  {
    assert keys == keys[..|keys| - 1] + [keys[|keys| - 1]];
  }

  lemma ForestBackLast(children: Index, keys: seq<SortKey>, fuel: nat)
    requires keys != [] && fuel > 0
    ensures var k := keys[|keys| - 1];
            ForestBack(children, keys, fuel)
            == [k.id] + ForestBack(children, Kids(children, k.id), fuel - 1) + ForestBack(children, keys[..|keys| - 1], fuel)
  {
  }

  /** In both directions an object comes after the group it is in. */
  lemma WalksParentFirst(objects: Table, children: Index)
    requires Indexed(objects, children)
    ensures forall i :: 0 <= i < |Whole(objects, children)| ==>
              var id := Whole(objects, children)[i];
              id in objects && (Parent(objects, id) == ROOT || Parent(objects, id) in Whole(objects, children)[..i])
    ensures forall i :: 0 <= i < |WholeBack(objects, children)| ==>
              var id := WholeBack(objects, children)[i];
              id in objects && (Parent(objects, id) == ROOT || Parent(objects, id) in WholeBack(objects, children)[..i])
  {
    hide Indexed, Forest, ForestBack, Kids, HasId;
    KidsAre(objects, children, ROOT);
    ForestParentsFirst(objects, children, Kids(children, ROOT), |objects|);
    ForestBackParentsFirst(objects, children, Kids(children, ROOT), |objects|);
  }

  // ----- Reversal

  lemma {:induction false} ForestLast(children: Index, keys: seq<SortKey>, fuel: nat)
    requires keys != [] && fuel > 0
    ensures var k := keys[|keys| - 1];
            Forest(children, keys, fuel)
            == Forest(children, keys[..|keys| - 1], fuel) + ([k.id] + Forest(children, Kids(children, k.id), fuel - 1))
    decreases |keys|
  {
    hide Kids;
    if |keys| > 1 {
      ForestLast(children, keys[1..], fuel);
      var n := |keys| - 1;
      assert keys[1..][..n - 1] == keys[..n][1..];
    }
  }

  /** Both directions go through the same objects. */
  lemma {:induction false} ForestPermutes(children: Index, keys: seq<SortKey>, fuel: nat)
    ensures |ForestBack(children, keys, fuel)| == |Forest(children, keys, fuel)|
    ensures forall id :: id in ForestBack(children, keys, fuel) <==> id in Forest(children, keys, fuel)
    decreases fuel, |keys|
  {
    hide *;
    if keys == [] || fuel == 0 {
      NothingThere(children, keys, fuel);
    } else {
      var n := |keys| - 1;
      ForestLast(children, keys, fuel);
      ForestBackLast(children, keys, fuel);
      ForestPermutes(children, Kids(children, keys[n].id), fuel - 1);
      ForestPermutes(children, keys[..n], fuel);
    }
  }

  lemma NothingThere(children: Index, keys: seq<SortKey>, fuel: nat)
    requires keys == [] || fuel == 0
    ensures Forest(children, keys, fuel) == ForestBack(children, keys, fuel) == []
  {
  }

  lemma {:induction false} DistinctBySize<T>(s: seq<T>)
    ensures |Elements(s)| <= |s|
    ensures |Elements(s)| == |s| ==> Distinct(s)
  {
    if s != [] {
      DistinctBySize(s[1..]);
      assert s == [s[0]] + s[1..];
      assert Elements(s) == {s[0]} + Elements(s[1..]);
      if |Elements(s)| == |s| { DistinctConcat([s[0]], s[1..]); }
    }
  }

  /** The reverse walk yields the same objects, each once. */
  lemma WholeBackIs(objects: Table, children: Index)
    requires Indexed(objects, children) && ROOT !in objects
    ensures forall id :: id in WholeBack(objects, children) <==> Reaches(objects, id)
    ensures Distinct(WholeBack(objects, children))
  {
    hide Indexed, Forest, ForestBack, Kids, Reaches;
    WholeIs(objects, children);
    ForestPermutes(children, Kids(children, ROOT), |objects|);
    var f, b := Whole(objects, children), WholeBack(objects, children);
    assert Elements(b) == Elements(f);
    DistinctSize(f);
    DistinctBySize(b);
  }

  /** The items that are in a set, in their order. */
  ghost function Kept(s: seq<RemoteId>, h: set<RemoteId>): seq<RemoteId> {
    if s == [] then [] else (if s[0] in h then [s[0]] else []) + Kept(s[1..], h)
  }

  ghost function Reversed<T>(s: seq<T>): (r: seq<T>)
    ensures |r| == |s| && forall i :: 0 <= i < |s| ==> r[i] == s[|s| - 1 - i]
  {
    if s == [] then [] else Reversed(s[1..]) + [s[0]]
  }

  lemma KeptFirst(s: seq<RemoteId>, h: set<RemoteId>)
    requires s != []
    ensures Kept(s, h) == if s[0] in h then [s[0]] + Kept(s[1..], h) else Kept(s[1..], h)
  {
  }

  lemma {:induction false} KeptConcat(a: seq<RemoteId>, b: seq<RemoteId>, h: set<RemoteId>)
    ensures Kept(a + b, h) == Kept(a, h) + Kept(b, h)
  {
    if a == [] {
      assert a + b == b;
    } else {
      assert (a + b)[0] == a[0] && (a + b)[1..] == a[1..] + b;
      KeptConcat(a[1..], b, h);
      KeptFirst(a, h);
      KeptFirst(a + b, h);
      hide Kept;
    }
  }

  lemma ReversedConcat<T>(a: seq<T>, b: seq<T>)
    ensures Reversed(a + b) == Reversed(b) + Reversed(a)
  {
  }

  /** Any leaves come in exactly the opposite order. */
  lemma {:induction false} ForestLeaves(children: Index, keys: seq<SortKey>, fuel: nat, h: set<RemoteId>)
    requires forall id :: id in h ==> Kids(children, id) == []
    ensures Kept(ForestBack(children, keys, fuel), h) == Reversed(Kept(Forest(children, keys, fuel), h))
    decreases fuel, |keys|
  {
    hide *;
    if keys == [] || fuel == 0 {
      NoLeaves(children, keys, fuel, h);
    } else {
      var n := |keys| - 1;
      var k := keys[n];
      var kids := Kids(children, k.id);
      ForestLast(children, keys, fuel);
      ForestBackLast(children, keys, fuel);
      ForestLeaves(children, kids, fuel - 1, h);
      ForestLeaves(children, keys[..n], fuel, h);
      NodeOrLeaf(children, k.id, fuel - 1, h);
      LeavesStep(k.id, Forest(children, kids, fuel - 1), ForestBack(children, kids, fuel - 1),
                 Forest(children, keys[..n], fuel), ForestBack(children, keys[..n], fuel), h);
    }
  }

  lemma NoLeaves(children: Index, keys: seq<SortKey>, fuel: nat, h: set<RemoteId>)
    requires keys == [] || fuel == 0
    ensures Kept(ForestBack(children, keys, fuel), h) == Reversed(Kept(Forest(children, keys, fuel), h)) == []
  {
  }

  lemma LeavesStep(id: RemoteId, a: seq<RemoteId>, a': seq<RemoteId>, b: seq<RemoteId>, b': seq<RemoteId>, h: set<RemoteId>)
    requires Kept(a', h) == Reversed(Kept(a, h)) && Kept(b', h) == Reversed(Kept(b, h))
    requires Kept([id], h) == [] || a == a' == []
    requires Reversed(Kept([id], h)) == Kept([id], h) && Kept([], h) == []
    ensures Kept([id] + a' + b', h) == Reversed(Kept(b + ([id] + a), h))
  {
    hide Kept, Reversed;
    KeptConcat(b, [id] + a, h);
    KeptConcat([id], a, h);
    KeptConcat([id] + a', b', h);
    KeptConcat([id], a', h);
    ReversedConcat(Kept(b, h), Kept([id], h) + Kept(a, h));
    ReversedConcat(Kept([id], h), Kept(a, h));
    if Kept([id], h) == [] {
      assert Kept([id], h) + Kept(a', h) == Kept(a', h);
      assert Kept([id], h) + Kept(a, h) == Kept(a, h);
    } else {
      assert Kept([id], h) + Kept([], h) == Kept([id], h);
    }
  }

  /** A node is not kept, or it has nothing below it. */
  lemma NodeOrLeaf(children: Index, id: RemoteId, fuel: nat, h: set<RemoteId>)
    requires id in h ==> Kids(children, id) == []
    ensures Kept([id], h) == []
            || Forest(children, Kids(children, id), fuel) == ForestBack(children, Kids(children, id), fuel) == []
    ensures Reversed(Kept([id], h)) == Kept([id], h) && Kept([], h) == []
  {
    hide Kids;
  }

  /** The walk meets leaves in the opposite of the order in which the reverse walk draws them. */
  lemma LeavesReversed(objects: Table, children: Index, h: set<RemoteId>)
    requires Indexed(objects, children)
    requires forall id, j :: id in h && j in objects ==> Parent(objects, j) != id
    ensures Kept(WholeBack(objects, children), h) == Reversed(Kept(Whole(objects, children), h))
  {
    forall id | id in h
      ensures Kids(children, id) == []
    {
      KidsAre(objects, children, id);
      if Kids(children, id) != [] {
        SomeId(Kids(children, id));
        assert false;
      }
    }
    ForestLeaves(children, Kids(children, ROOT), |objects|, h);
  }

  lemma SomeId(keys: seq<SortKey>)
    requires keys != []
    ensures HasId(keys, keys[0].id)
  {
    assert keys[0] in keys;
  }

  /** So what a click hits first is what was drawn last. */
  lemma FirstHitDrawnLast(objects: Table, children: Index, h: set<RemoteId>)
    requires Indexed(objects, children)
    requires forall id, j :: id in h && j in objects ==> Parent(objects, j) != id
    requires Kept(Whole(objects, children), h) != []
    ensures var hits, drawn := Kept(Whole(objects, children), h), Kept(WholeBack(objects, children), h);
            |drawn| == |hits| && hits[0] == drawn[|drawn| - 1]
  {
    hide *;
    LeavesReversed(objects, children, h);
    var hits := Kept(Whole(objects, children), h);
    assert Reversed(hits)[|hits| - 1] == hits[0];
  }
}
