/** Dropping an object: which drops are refused, and what the others do to the map. */
module DragEnd {
  import opened Options
  import opened Identifiers
  import opened Order
  import opened OrderRef
  import opened DragOver
  import opened ObjectTree
  import opened Walk

  /** What the sort keys and groups of the objects amount to. */
  function TableOf(objects: Nodes): Table {
    map id | id in objects :: Entry(objects[id].group, objects[id].sort)
  }

  /** The order holds the objects that are not rooms. */
  ghost predicate Agrees(objects: Nodes, table: Table) {
    table == map id | id in objects && !objects[id].room :: Entry(objects[id].group, objects[id].sort)
  }

  /** What the order iterates over is its table's listing. */
  lemma IterListed(order: OrderRef)
    requires order.Valid()
    ensures forall g :: order.Iter(g) == Listing(order.objects, g)
  {
    forall g
      ensures order.Iter(g) == Listing(order.objects, g)
    {
      assert ChildSet(order.children, AsGroup(g)) == Members(order.objects, AsGroup(g));
    }
  }

  /** The sort key of a drop depends on the objects of the order alone. */
  lemma SortIsForOrder(objects: Nodes, table: Table, d: DragOver)
    requires Agrees(objects, table) && d.target in table
    ensures NewSort(d, TableOf(objects), Listing(table, d.group), Listing(table, d.target))
            == NewSort(d, table, Listing(table, d.group), Listing(table, d.target))
  {
    hide Listing, IndexOf;
    ListingIs(table, d.group);
    ListingIs(table, d.target);
    var s, k := Listing(table, d.group), Listing(table, d.target);
    assert forall i :: 0 <= i < |s| ==> s[i] in s;
    assert forall i :: 0 <= i < |k| ==> k[i] in k;
  }

  datatype Outcome = NotDragging | Refused | Unlock | Moved

  class Map {
    var objects: Nodes
    const order: OrderRef
    var dragOver: Option<DragOver>

    ghost predicate Valid()
      reads this, order
    {
      order.Valid() && Agrees(objects, order.objects)
    }

    constructor ()
      ensures Valid() && objects == map[] && dragOver == None && fresh(order)
    {
      order := new OrderRef();
      objects, dragOver := map[], None;
    }

    /** Only a local object that is not locked, and not dropped into itself, is moved. */
    ghost predicate Accepts(id: RemoteId)
      reads this
    {
      && dragOver.Some? && id != ROOT && id.peer == 0
      && !(exists j :: OnChain(objects, id, j) && j in objects && objects[j].Locked())
      && id != dragOver.value.TargetGroup() && dragOver.value.TargetGroup().peer == 0
      && dragOver.value.target in objects && id in objects
    }

    method End(id: RemoteId) returns (outcome: Outcome)
      requires Valid() && Settles(objects, id)
      modifies this, order
      ensures Valid() && dragOver == None
      ensures outcome == Moved <==> old(Accepts(id))
      ensures outcome == Unlock ==> id in objects && exists j :: OnChain(objects, id, j) && j in objects && objects[j].Locked()
      ensures outcome != Moved ==> objects == old(objects) && order.objects == old(order.objects)
      ensures outcome == Moved ==>
                var d := old(dragOver).value;
                var sort := NewSort(d, TableOf(old(objects)), old(order.Iter(d.group)), old(order.Iter(d.target))).value;
                && objects == old(objects)[id := old(objects)[id].(group := d.TargetGroup(), sort := sort)]
                && (!objects[id].room ==> order.objects == old(order.objects)[id := Entry(d.TargetGroup(), sort)])
                && (Offered(old(order.objects), d, id) ==> order.objects == Dropped(old(order.objects), d, id))
      ensures forall g :: order.Iter(g) == Listing(order.objects, g)
    {
      hide Indexed, IdsOf, Sorted, NewSort, Settles, Listing, OrderRef.Iter;
      ghost var table := order.objects;
      IterListed(order);
      if dragOver.None? {
        return NotDragging;
      }
      var d := dragOver.value;
      dragOver := None;
      if id == ROOT || id.peer != 0 {
        return Refused;
      }
      var locked := IsLocked(objects, id);
      if locked && id in objects {
        return Unlock;
      }
      var group := d.TargetGroup();
      if id == group || group.peer != 0 {
        return Refused;
      }
      var siblings, kids := order.Iter(d.group), order.Iter(d.target);
      var sort := NewSort(d, TableOf(objects), siblings, kids);
      if sort.None? || id !in objects {
        return Refused;
      }
      objects := objects[id := objects[id].(group := group, sort := sort.value)];
      var moved := order.Reorder(id, group, sort.value);
      IterListed(order);
      if Offered(table, d, id) { SortIsForOrder(old(objects), table, d); }
      outcome := Moved;
    }
  }

  // ----- What an accepted drop means for the walk

  /** `j` is `k` groups above `id` in the order. */
  ghost predicate Above(objects: Table, id: RemoteId, j: RemoteId, k: nat)
    decreases k
  {
    if k == 0 then id == j else id in objects && Above(objects, Parent(objects, id), j, k - 1)
  }

  ghost predicate IsAbove(objects: Table, id: RemoteId, j: RemoteId) { exists k: nat :: Above(objects, id, j, k) }

  /** A chain up to the moved object still leads there, and on to the root only from there. */
  lemma {:induction false} AboveStill(objects: Table, id: RemoteId, e: Entry, x: RemoteId, k: nat, n: nat) returns (m: nat)
    requires ROOT !in objects && id in objects && Above(objects, x, id, k) && AtDepth(objects[id := e], x, n)
    ensures m <= n && AtDepth(objects[id := e], id, m)
    decreases k
  {
    if x == id {
      m := n;
    } else {
      m := AboveStill(objects, id, e, Parent(objects, x), k - 1, n - 1);
    }
  }

  lemma {:induction false} DepthStill(objects: Table, id: RemoteId, e: Entry, x: RemoteId, n: nat)
    requires ROOT !in objects && id in objects && AtDepth(objects, x, n)
    requires !IsAbove(objects, x, id)
    ensures AtDepth(objects[id := e], x, n)
    decreases n
  {
    assert x != id by {
      assert Above(objects, x, x, 0);
    }
    if n > 0 {
      if IsAbove(objects, Parent(objects, x), id) {
        var k: nat :| Above(objects, Parent(objects, x), id, k);
        assert Above(objects, x, id, k + 1);
      }
      DepthStill(objects, id, e, Parent(objects, x), n - 1);
    }
  }

  /** Moved into its own descendant, which no drop refuses, an object drops out of the walk; otherwise it stays in. */
  lemma MovedStaysReachable(objects: Table, id: RemoteId, e: Entry)
    requires ROOT !in objects && id in objects
    requires AsGroup(e.group) == ROOT || Reaches(objects, AsGroup(e.group))
    ensures Reaches(objects[id := e], id) <==> !IsAbove(objects, AsGroup(e.group), id)
  {
    var t, g := objects[id := e], AsGroup(e.group);
    if IsAbove(objects, g, id) {
      var k: nat :| Above(objects, g, id, k);
      if n: nat :| n > 0 && AtDepth(t, id, n) {
        var m := AboveStill(objects, id, e, g, k, n - 1);
        DepthUnique(t, id, m, n);
        assert false;
      }
      assert !Reaches(t, id);
    } else {
      var n: nat :| AtDepth(objects, g, n);
      DepthStill(objects, id, e, g, n);
      assert AtDepth(t, id, n + 1) && Reaches(t, id);
    }
  }

  /** Two groups, the second in the first: dropping the first into the second is accepted and ends in a cycle. */
  lemma CyclicDropAccepted(m: Map, a: RemoteId, b: RemoteId)
    requires a != b && a.peer == b.peer == 0 && a != ROOT && b != ROOT
    requires m.objects == map[a := Node(ROOT, [1], false, false, false, false), b := Node(a, [1], false, false, false, false)]
    requires m.dragOver == Some(DragOver(Into, ROOT, b))
    ensures Acyclic(m.objects) && m.Accepts(a) && !Acyclic(Reparented(m.objects, a, b))
  {
    var o := m.objects;
    forall id
      ensures Ends(o, id)
    {
      assert EndsIn(o, ROOT, 0);
      assert EndsIn(o, a, 1);
      assert EndsIn(o, b, 2);
      if id != a && id != b { assert EndsIn(o, id, 0); }
    }
    assert Climbs(o, a, a, 0);
    assert Climbs(o, b, a, 1);
    ReparentExact(o, a, b);
  }
}
