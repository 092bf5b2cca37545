/** The sorted index, changed in place next to the table it indexes. */
module OrderRef {
  import opened Bytes
  import opened Values
  import opened Identifiers
  import opened Order

  /** What the order needs of an object. */
  datatype Object = Object(id: RemoteId, ty: TypeId, group: RemoteId, sort: ByteString)

  function IdsOf(keys: seq<SortKey>): (ids: seq<RemoteId>)
    ensures |ids| == |keys| && forall i :: 0 <= i < |ids| ==> ids[i] == keys[i].id
  {
    seq(|keys|, i requires 0 <= i < |keys| => keys[i].id)
  }

  class OrderRef {
    var objects: Table
    var children: Index

    ghost predicate Valid()
      reads this
    {
      Indexed(objects, children)
    }

    constructor ()
      ensures Valid() && objects == map[]
    {
      objects, children := map[], map[];
    }

    // ----- The index by itself

    method DataInsert(id: RemoteId, e: Entry) returns (inserted: bool)
      modifies `children
      ensures children == WithKey(old(children), AsGroup(e.group), SortKey(e.sort, id))
      ensures inserted <==> SortKey(e.sort, id) !in ChildSet(old(children), AsGroup(e.group))
    {
      var group := AsGroup(e.group);
      var k := SortKey(e.sort, id);
      var set' := if group in children then children[group] else {};
      inserted := k !in set';
      children := children[group := set' + {k}];
    }

    method DataRemove(id: RemoteId, group: RemoteId, sort: ByteString) returns (removed: bool)
      modifies `children
      ensures children == WithoutKey(old(children), AsGroup(group), SortKey(sort, id))
      ensures removed <==> SortKey(sort, id) in ChildSet(old(children), AsGroup(group))
    {
      var k := SortKey(sort, id);
      var g := AsGroup(group);
      if g !in children {
        return false;
      }
      var values := children[g];
      if k !in values {
        return false;
      }
      values := values - {k};
      children := children[g := values];
      if values == {} {
        children := children - {g};
        assert ChildSet(old(children), g) == {k};
      }
      assert children == WithoutKey(old(children), g, k);
      removed := true;
    }

    /** One object's entry moves; the index follows it from where it was. */
    method DataReorder(id: RemoteId, before: Entry, after: Entry) returns (moved: bool)
      modifies `children
      ensures Indexed(old(objects), old(children)) && id in old(objects) && old(objects)[id] == before
              ==> moved && Indexed(objects[id := after], children)
      ensures var key, group := SortKey(before.sort, id), AsGroup(before.group);
              var rest := WithoutKey(old(children), group, key);
              if key !in ChildSet(old(children), group) then !moved && children == old(children)
              else
                && children == WithKey(rest, AsGroup(after.group), SortKey(after.sort, id))
                && (moved <==> SortKey(after.sort, id) !in ChildSet(rest, AsGroup(after.group)))
    {
      ghost var was := objects - {id};
      if Indexed(objects, children) && id in objects && objects[id] == before {
        IndexRemoved(objects, children, id);
      }
      moved := DataRemove(id, before.group, before.sort);
      if !moved {
        return;
      }
      if Indexed(was, children) {
        IndexAdded(was, children, id, after);
        assert was[id := after] == objects[id := after];
      }
      moved := DataInsert(id, after);
    }

    // ----- Operations

    method Update(id: RemoteId, key: Key, value: Value) returns (changed: bool)
      requires Valid()
      modifies this
      ensures Valid()
      ensures objects == Updated(old(objects), id, key, value)
      ensures changed <==> objects != old(objects)
      ensures id in old(objects) && key == GROUP ==>
                objects == old(objects)[id := Entry(RemoteId(id.peer, value.AsId()), old(objects)[id].sort)]
      ensures id in old(objects) && key == SORT ==>
                objects == old(objects)[id := Entry(old(objects)[id].group, value.AsBytes())]
      ensures id !in old(objects) || (key != GROUP && key != SORT) ==> objects == old(objects)
    {
      if id !in objects {
        return false;
      }
      var o := objects[id];
      if key == SORT {
        if o.sort == value.AsBytes() {
          return false;
        }
        changed := DataReorder(id, o, o.(sort := value.AsBytes()));
        objects := objects[id := o.(sort := value.AsBytes())];
        assert objects[id] != old(objects)[id];
      } else if key == GROUP {
        var group := RemoteId(id.peer, value.AsId());
        if o.group == group {
          return false;
        }
        changed := DataReorder(id, o, o.(group := group));
        objects := objects[id := o.(group := group)];
        assert objects[id] != old(objects)[id];
      } else {
        changed := false;
      }
    }

    method Reorder(id: RemoteId, group: RemoteId, sort: ByteString) returns (moved: bool)
      requires Valid()
      modifies this
      ensures Valid()
      ensures objects == if id in old(objects) then old(objects)[id := Entry(group, sort)] else old(objects)
      ensures moved <==> id in old(objects)
    {
      if id !in objects {
        return false;
      }
      moved := DataReorder(id, objects[id], Entry(group, sort));
      objects := objects[id := Entry(group, sort)];
    }

    method Remove(id: RemoteId) returns (removed: bool)
      requires Valid()
      modifies this
      ensures Valid()
      ensures objects == old(objects) - {id}
      ensures removed <==> id in old(objects)
    {
      if id !in objects {
        assert objects == objects - {id};
        return false;
      }
      IndexRemoved(objects, children, id);
      var o := objects[id];
      objects := objects - {id};
      removed := DataRemove(id, o.group, o.sort);
    }

    /** The old key of an object that was there already stays behind if its place changes. */
    method Insert(o: Object) returns (update: bool)
      requires Valid()
      modifies this
      ensures IsGlobal(o.ty) ==> !update && objects == old(objects) && children == old(children)
      ensures !IsGlobal(o.ty) ==>
                && objects == old(objects)[o.id := Entry(o.group, o.sort)]
                && (update <==> o.id !in old(objects)
                                || SortKey(o.sort, o.id) !in ChildSet(old(children), AsGroup(o.group)))
      ensures Valid() <==>
                IsGlobal(o.ty) || o.id !in old(objects)
                || (AsGroup(o.group) == Parent(old(objects), o.id) && o.sort == old(objects)[o.id].sort)
    {
      if IsGlobal(o.ty) {
        return false;
      }
      var e := Entry(o.group, o.sort);
      if o.id in objects {
        IndexReplaced(objects, children, o.id, e);
      } else {
        IndexAdded(objects, children, o.id, e);
      }
      update := DataInsert(o.id, e);
      if o.id !in objects {
        update := true;
      }
      objects := objects[o.id := e];
    }

    method Retain(keep: PeerId -> bool)
      requires Valid()
      modifies this
      ensures objects == RetainedTable(old(objects), keep)
      ensures Valid() <==> forall id :: id in old(objects) && keep(id.peer) ==> keep(Parent(old(objects), id).peer)
    {
      IndexRetained(objects, children, keep);
      children := RetainedIndex(children, keep);
      objects := RetainedTable(objects, keep);
    }

    // ----- Reading

    function IsEmpty(group: RemoteId): (r: bool)
      requires Valid()
      reads this
      ensures r <==> forall id :: id in objects ==> Parent(objects, id) != AsGroup(group)
    {
      var g := AsGroup(group);
      MembersNone(objects, g);
      assert ChildSet(children, g) == Members(objects, g);
      if g in children then children[g] == {} else true
    }

    function ChildCount(group: RemoteId): (n: nat)
      requires Valid()
      reads this
      ensures n == |set id | id in objects && Parent(objects, id) == AsGroup(group)|
    {
      MembersCount(objects, AsGroup(group));
      if AsGroup(group) in children then |children[AsGroup(group)]| else 0
    }

    /** The children of a group in order. */
    function Iter(group: RemoteId): seq<RemoteId>
      reads this
    {
      IdsOf(Sorted(ChildSet(children, AsGroup(group))))
    }
  }

  /** An object is iterated over in its own group and no other. */
  lemma IterHolds(o: OrderRef)
    requires o.Valid()
    ensures forall g, id :: id in o.Iter(g) <==> id in o.objects && Parent(o.objects, id) == AsGroup(g)
  {
    forall g
      ensures forall id :: id in o.Iter(g) <==> id in o.objects && Parent(o.objects, id) == AsGroup(g)
    {
      IterIsListing(o, g, o.Iter(g));
    }
  }

  lemma MembersCount(objects: Table, group: RemoteId)
    ensures |Members(objects, group)| == |set id | id in objects && Parent(objects, id) == group|
  {
    var ids := set id | id in objects && Parent(objects, id) == group;
    KeysCount(objects, ids);
    assert Members(objects, group) == set id | id in ids :: KeyOf(objects, id);
  }

  lemma {:induction false} KeysCount(objects: Table, ids: set<RemoteId>)
    requires ids <= objects.Keys
    ensures |set id | id in ids :: KeyOf(objects, id)| == |ids|
    decreases ids
  {
    if id :| id in ids {
      KeysCount(objects, ids - {id});
      assert (set j | j in ids :: KeyOf(objects, j)) == (set j | j in ids - {id} :: KeyOf(objects, j)) + {KeyOf(objects, id)};
    }
  }

  lemma MembersNone(objects: Table, group: RemoteId)
    ensures Members(objects, group) == {} <==> forall id :: id in objects ==> Parent(objects, id) != group
  {
    if id :| id in objects && Parent(objects, id) == group {
      assert KeyOf(objects, id) in Members(objects, group);
    } else {
      assert forall k :: k !in Members(objects, group);
    }
  }

  /** A filter the root passes, over groups that belong to their objects' peers, keeps the index right. */
  lemma RetainsOwned(objects: Table, children: Index, keep: PeerId -> bool)
    requires Indexed(objects, children) && keep(0) && Owned(objects)
    ensures Indexed(RetainedTable(objects, keep), RetainedIndex(children, keep))
  {
    IndexRetained(objects, children, keep);
  }

  /** The naive reading: filter all objects by group, then sort. */
  ghost predicate IsListing(ids: seq<RemoteId>, objects: Table, group: RemoteId) {
    && (forall id :: id in ids <==> id in objects && Parent(objects, id) == AsGroup(group))
    && forall i, j :: 0 <= i < j < |ids| ==> KeyLess(KeyOf(objects, ids[i]), KeyOf(objects, ids[j]))
  }

  /** Iterating over a group is filtering and sorting the whole table. */
  lemma IterIsListing(o: OrderRef, group: RemoteId, ids: seq<RemoteId>)
    requires o.Valid()
    ensures IsListing(ids, o.objects, group) <==> ids == o.Iter(group)
  {
    assert ChildSet(o.children, AsGroup(group)) == Members(o.objects, AsGroup(group));
    ListingUnique(o.objects, group, ids);
  }

  lemma ListingUnique(objects: Table, group: RemoteId, ids: seq<RemoteId>)
    ensures IsListing(ids, objects, group) <==> ids == IdsOf(Sorted(Members(objects, AsGroup(group))))
  {
    ListingOfSorted(objects, group);
    if IsListing(ids, objects, group) {
      var s := Members(objects, AsGroup(group));
      var r := seq(|ids|, i requires 0 <= i < |ids| && ids[i] in objects => KeyOf(objects, ids[i]));
      forall k
        ensures k in Elements(r) <==> k in s
      {
        if k in s {
          assert k.id in ids;
          var i :| 0 <= i < |ids| && ids[i] == k.id;
          assert r[i] == k;
        }
      }
      assert Elements(r) == s;
      SortedUnique(r);
      assert ids == IdsOf(r);
    }
  }

  lemma ListingOfSorted(objects: Table, g: RemoteId)
    ensures IsListing(IdsOf(Sorted(Members(objects, AsGroup(g)))), objects, g)
  {
    var keys := Sorted(Members(objects, AsGroup(g)));
    var ids := IdsOf(keys);
    forall i | 0 <= i < |keys|
      ensures keys[i].id in objects && Parent(objects, keys[i].id) == AsGroup(g) && keys[i] == KeyOf(objects, keys[i].id)
    {
      assert keys[i] in Elements(keys);
    }
    forall id | id in objects && Parent(objects, id) == AsGroup(g)
      ensures id in ids
    {
      assert KeyOf(objects, id) in Elements(keys);
      var i :| 0 <= i < |keys| && keys[i] == KeyOf(objects, id);
      assert ids[i] == id;
    }
  }
}
