/** The double-ended iterator over the hierarchy: a stack of what is left of each level. */
module Walker {
  import opened Options
  import opened Identifiers
  import opened Order
  import opened Walk

  function Fuel(n: nat, level: nat): nat { if level <= n then n - level else 0 }

  /** What going forward will still yield. */
  ghost function Pending(children: Index, stack: seq<seq<SortKey>>, n: nat): seq<RemoteId> {
    if stack == [] then []
    else
      var top := |stack| - 1;
      Forest(children, stack[top], Fuel(n, top)) + Pending(children, stack[..top], n)
  }

  /** What going backward will still yield. */
  ghost function PendingBack(children: Index, stack: seq<seq<SortKey>>, n: nat): seq<RemoteId> {
    if stack == [] then []
    else
      var top := |stack| - 1;
      ForestBack(children, stack[top], Fuel(n, top)) + PendingBack(children, stack[..top], n)
  }

  /** The items of every level lie at its depth. */
  ghost predicate Levels(objects: Table, stack: seq<seq<SortKey>>) {
    forall i :: 0 <= i < |stack| ==> KeysAt(objects, stack[i], i + 1)
  }

  /** The stack after `k` has been taken off the top and its children put there. */
  function Descended(children: Index, stack: seq<seq<SortKey>>, k: SortKey, rest: seq<SortKey>): seq<seq<SortKey>>
    requires stack != []
  {
    var below := stack[|stack| - 1 := rest];
    if k.id in children then below + [Kids(children, k.id)] else below
  }

  lemma DescendedLevels(objects: Table, children: Index, stack: seq<seq<SortKey>>, k: SortKey, rest: seq<SortKey>)
    requires Indexed(objects, children) && ROOT !in objects && Levels(objects, stack) && stack != []
    requires k in stack[|stack| - 1] && forall j :: j in rest ==> j in stack[|stack| - 1]
    ensures Levels(objects, Descended(children, stack, k, rest))
    ensures Fuel(|objects|, |stack| - 1) > 0
  {
    hide Indexed, Kids;
    assert KeysAt(objects, stack[|stack| - 1], |stack|);
    DepthBound(objects, k.id, |stack|);
    KidsAre(objects, children, k.id);
  }

  lemma PendingPush(children: Index, stack: seq<seq<SortKey>>, iter: seq<SortKey>, n: nat)
    ensures Pending(children, stack + [iter], n) == Forest(children, iter, Fuel(n, |stack|)) + Pending(children, stack, n)
    ensures PendingBack(children, stack + [iter], n)
            == ForestBack(children, iter, Fuel(n, |stack|)) + PendingBack(children, stack, n)
  {
    hide Forest, ForestBack;
    assert (stack + [iter])[..|stack|] == stack;
  }

  /** The levels below the top, the rest of the top, and the children of what was taken. */
  lemma DescendedIs(children: Index, base: seq<seq<SortKey>>, iter: seq<SortKey>, k: SortKey, rest: seq<SortKey>, n: nat)
    requires Fuel(n, |base|) > 0
    ensures var stack := Descended(children, base + [iter], k, rest);
            && Pending(children, stack, n)
               == Forest(children, Kids(children, k.id), Fuel(n, |base|) - 1)
                  + (Forest(children, rest, Fuel(n, |base|)) + Pending(children, base, n))
            && PendingBack(children, stack, n)
               == ForestBack(children, Kids(children, k.id), Fuel(n, |base|) - 1)
                  + (ForestBack(children, rest, Fuel(n, |base|)) + PendingBack(children, base, n))
  {
    hide Forest, ForestBack, Pending, PendingBack, Kids;
    assert (base + [iter])[|base| := rest] == base + [rest];
    PendingPush(children, base, rest, n);
    PendingPush(children, base + [rest], Kids(children, k.id), n);
    if k.id !in children {
      NoKids(children, k.id);
      NothingThere(children, [], Fuel(n, |base|) - 1);
    }
  }

  lemma NoKids(children: Index, id: RemoteId)
    requires id !in children
    ensures Kids(children, id) == []
  {
  }

  lemma PendingStep(children: Index, stack: seq<seq<SortKey>>, n: nat)
    requires stack != [] && stack[|stack| - 1] != [] && Fuel(n, |stack| - 1) > 0
    ensures var iter := stack[|stack| - 1];
            Pending(children, stack, n)
            == [iter[0].id] + Pending(children, Descended(children, stack, iter[0], iter[1..]), n)
  {
    hide Forest, Pending, Kids, Descended;
    var base, iter := stack[..|stack| - 1], stack[|stack| - 1];
    assert stack == base + [iter];
    ForestFirst(children, iter, Fuel(n, |base|));
    PendingPush(children, base, iter, n);
    DescendedIs(children, base, iter, iter[0], iter[1..], n);
  }

  lemma PendingBackStep(children: Index, stack: seq<seq<SortKey>>, n: nat)
    requires stack != [] && stack[|stack| - 1] != [] && Fuel(n, |stack| - 1) > 0
    ensures var iter := stack[|stack| - 1];
            var k := iter[|iter| - 1];
            PendingBack(children, stack, n)
            == [k.id] + PendingBack(children, Descended(children, stack, k, iter[..|iter| - 1]), n)
  {
    hide ForestBack, PendingBack, Kids, Descended;
    var base, iter := stack[..|stack| - 1], stack[|stack| - 1];
    assert stack == base + [iter];
    ForestBackLast(children, iter, Fuel(n, |base|));
    PendingPush(children, base, iter, n);
    DescendedIs(children, base, iter, iter[|iter| - 1], iter[..|iter| - 1], n);
  }

  lemma NotBefore<T>(a: seq<T>, x: T, b: seq<T>)
    requires Distinct(a + ([x] + b))
    ensures x !in Elements(a)
  {
    var s := a + ([x] + b);
    assert s[|a|] == x;
    forall i | 0 <= i < |a|
      ensures a[i] != x
    {
      assert a[i] == s[i];
    }
  }

  /** Everything of the walk is done or ahead. */
  ghost predicate OnTheWay(objects: Table, children: Index, stack: seq<seq<SortKey>>, done: seq<RemoteId>) {
    && Indexed(objects, children) && ROOT !in objects && Levels(objects, stack)
    && done + Pending(children, stack, |objects|) == Whole(objects, children)
  }

  ghost predicate OnTheWayBack(objects: Table, children: Index, stack: seq<seq<SortKey>>, done: seq<RemoteId>) {
    && Indexed(objects, children) && ROOT !in objects && Levels(objects, stack)
    && done + PendingBack(children, stack, |objects|) == WholeBack(objects, children)
  }

  lemma Start(objects: Table, children: Index)
    requires Indexed(objects, children) && ROOT !in objects
    ensures var stack := if ROOT in children then [Kids(children, ROOT)] else [];
            OnTheWay(objects, children, stack, []) && OnTheWayBack(objects, children, stack, [])
  {
    hide Forest, ForestBack;
    var stack := if ROOT in children then [Kids(children, ROOT)] else [];
    KidsAre(objects, children, ROOT);
    assert AtDepth(objects, ROOT, 0);
    NothingThere(children, [], |objects|);
    if ROOT in children {
      var n := |objects|;
      assert stack[..0] == [] && Fuel(n, 0) == n;
      assert Pending(children, stack, n) == Forest(children, Kids(children, ROOT), n) + [];
      assert PendingBack(children, stack, n) == ForestBack(children, Kids(children, ROOT), n) + [];
    } else {
      assert Kids(children, ROOT) == [];
    }
  }

  lemma Popped(objects: Table, children: Index, stack: seq<seq<SortKey>>, done: seq<RemoteId>)
    requires stack != [] && stack[|stack| - 1] == []
    ensures Pending(children, stack[..|stack| - 1], |objects|) == Pending(children, stack, |objects|)
    ensures PendingBack(children, stack[..|stack| - 1], |objects|) == PendingBack(children, stack, |objects|)
    ensures OnTheWay(objects, children, stack, done) ==> OnTheWay(objects, children, stack[..|stack| - 1], done)
    ensures OnTheWayBack(objects, children, stack, done) ==> OnTheWayBack(objects, children, stack[..|stack| - 1], done)
  {
    hide Forest, ForestBack, Indexed, Whole, WholeBack;
    NothingThere(children, [], Fuel(|objects|, |stack| - 1));
  }

  /** The first item left on top is what comes next, and has not come before. */
  lemma Stepped(objects: Table, children: Index, stack: seq<seq<SortKey>>, done: seq<RemoteId>)
    requires OnTheWay(objects, children, stack, done)
    requires stack != [] && stack[|stack| - 1] != []
    ensures var iter := stack[|stack| - 1];
            var stack' := Descended(children, stack, iter[0], iter[1..]);
            && Pending(children, stack, |objects|) == [iter[0].id] + Pending(children, stack', |objects|)
            && OnTheWay(objects, children, stack', done + [iter[0].id])
            && iter[0].id !in Elements(done)
  {
    hide Forest, Indexed, Whole, Distinct, Descended, Levels, Pending, Fuel;
    var iter := stack[|stack| - 1];
    var id := iter[0].id;
    var stack' := Descended(children, stack, iter[0], iter[1..]);
    DescendedLevels(objects, children, stack, iter[0], iter[1..]);
    PendingStep(children, stack, |objects|);
    var ahead := Pending(children, stack', |objects|);
    WholeIs(objects, children);
    NotBefore(done, id, ahead);
    assert done + ([id] + ahead) == done + [id] + ahead;
  }

  lemma SteppedBack(objects: Table, children: Index, stack: seq<seq<SortKey>>, done: seq<RemoteId>)
    requires OnTheWayBack(objects, children, stack, done)
    requires stack != [] && stack[|stack| - 1] != []
    ensures var iter := stack[|stack| - 1];
            var k := iter[|iter| - 1];
            var stack' := Descended(children, stack, k, iter[..|iter| - 1]);
            && PendingBack(children, stack, |objects|) == [k.id] + PendingBack(children, stack', |objects|)
            && OnTheWayBack(objects, children, stack', done + [k.id])
            && k.id !in Elements(done)
  {
    hide ForestBack, Indexed, WholeBack, Distinct, Descended, Levels, PendingBack, Fuel;
    var iter := stack[|stack| - 1];
    var k := iter[|iter| - 1];
    var stack' := Descended(children, stack, k, iter[..|iter| - 1]);
    DescendedLevels(objects, children, stack, k, iter[..|iter| - 1]);
    PendingBackStep(children, stack, |objects|);
    var ahead := PendingBack(children, stack', |objects|);
    WholeBackIs(objects, children);
    NotBefore(done, k.id, ahead);
    assert done + ([k.id] + ahead) == done + [k.id] + ahead;
  }

  class Walker {
    ghost const objects: Table
    const children: Index
    var visited: set<RemoteId>
    var stack: seq<seq<SortKey>>
    ghost var done: seq<RemoteId>

    /** Only `Next` has been called. */
    ghost predicate Forward()
      reads this
    {
      OnTheWay(objects, children, stack, done) && visited == Elements(done)
    }

    /** Only `NextBack` has been called. */
    ghost predicate Backward()
      reads this
    {
      OnTheWayBack(objects, children, stack, done) && visited == Elements(done)
    }

    ghost function Ahead(): seq<RemoteId>
      reads this
    {
      Pending(children, stack, |objects|)
    }

    ghost function Behind(): seq<RemoteId>
      reads this
    {
      PendingBack(children, stack, |objects|)
    }

    constructor (ghost objects: Table, children: Index)
      requires Indexed(objects, children) && ROOT !in objects
      ensures this.objects == objects && this.children == children
      ensures Forward() && Ahead() == Whole(objects, children)
      ensures Backward() && Behind() == WholeBack(objects, children)
    {
      this.objects, this.children := objects, children;
      visited, done := {}, [];
      stack := if ROOT in children then [Kids(children, ROOT)] else [];
      Start(objects, children);
      hide Whole, WholeBack, Pending, PendingBack, Indexed;
    }

    /** Yields what is ahead, one object at a call. */
    method Next() returns (id: Option<RemoteId>)
      requires Forward()
      modifies this
      ensures Forward()
      ensures old(Ahead()) == (if id.Some? then [id.value] else []) + Ahead()
      ensures id.None? ==> Ahead() == []
    {
      hide OnTheWay, Kids;
      while true
        invariant Forward() && Ahead() == old(Ahead()) && done == old(done)
        decreases |stack|
      {
        if stack == [] {
          return None;
        }
        var iter := stack[|stack| - 1];
        if iter == [] {
          Popped(objects, children, stack, done);
          stack := stack[..|stack| - 1];
          continue;
        }
        Stepped(objects, children, stack, done);
        var k := iter[0];
        stack := stack[|stack| - 1 := iter[1..]];
        if k.id in children {
          stack := stack + [Kids(children, k.id)];
        }
        var isNew := k.id !in visited;
        visited := visited + {k.id};
        done := done + [k.id];
        if isNew {
          return Some(k.id);
        }
      }
    }

    /** The same from the other end of every level. */
    method NextBack() returns (id: Option<RemoteId>)
      requires Backward()
      modifies this
      ensures Backward()
      ensures old(Behind()) == (if id.Some? then [id.value] else []) + Behind()
      ensures id.None? ==> Behind() == []
    {
      hide OnTheWayBack, Kids;
      while true
        invariant Backward() && Behind() == old(Behind()) && done == old(done)
        decreases |stack|
      {
        if stack == [] {
          return None;
        }
        var iter := stack[|stack| - 1];
        if iter == [] {
          Popped(objects, children, stack, done);
          stack := stack[..|stack| - 1];
          continue;
        }
        SteppedBack(objects, children, stack, done);
        var k := iter[|iter| - 1];
        stack := stack[|stack| - 1 := iter[..|iter| - 1]];
        if k.id in children {
          stack := stack + [Kids(children, k.id)];
        }
        var isNew := k.id !in visited;
        visited := visited + {k.id};
        done := done + [k.id];
        if isNew {
          return Some(k.id);
        }
      }
    }
  }

  /** The first object of the walk that a test accepts. */
  method FirstHit(ghost objects: Table, children: Index, hit: RemoteId -> bool) returns (id: Option<RemoteId>)
    requires Indexed(objects, children) && ROOT !in objects
    ensures id.None? ==> forall j :: Reaches(objects, j) ==> !hit(j)
    ensures id.Some? ==>
              exists i :: 0 <= i < |Whole(objects, children)| && Whole(objects, children)[i] == id.value && hit(id.value)
                          && forall j :: 0 <= j < i ==> !hit(Whole(objects, children)[j])
  {
    hide *;
    var walk := new Walker(objects, children);
    WholeIs(objects, children);
    ghost var seen := [];
    while true
      invariant walk.Forward() && walk.objects == objects && walk.children == children
      invariant fresh(walk)
      invariant seen + walk.Ahead() == Whole(objects, children)
      invariant forall j :: j in seen ==> !hit(j)
      decreases |walk.Ahead()|
    {
      id := walk.Next();
      if id.None? {
        return;
      }
      assert Whole(objects, children)[|seen|] == id.value;
      if hit(id.value) {
        assert forall j :: 0 <= j < |seen| ==> Whole(objects, children)[j] == seen[j];
        return;
      }
      seen := seen + [id.value];
    }
  }

  /** Everything, in drawing order. */
  method DrawingOrder(ghost objects: Table, children: Index) returns (ids: seq<RemoteId>)
    requires Indexed(objects, children) && ROOT !in objects
    ensures ids == WholeBack(objects, children)
  {
    hide *;
    var walk := new Walker(objects, children);
    ids := [];
    while true
      invariant walk.Backward() && walk.objects == objects && walk.children == children
      invariant fresh(walk)
      invariant ids + walk.Behind() == WholeBack(objects, children)
      decreases |walk.Behind()|
    {
      var id := walk.NextBack();
      if id.None? {
        return;
      }
      ids := ids + [id.value];
    }
  }
}
