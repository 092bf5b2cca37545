/** The marked changes always lead from the server's copy to the local state. */
module DirtySets {
  import opened Values
  import opened Identifiers
  import opened LocalState

  /** The marks make sense by themselves: this much every operation keeps. */
  ghost predicate WellMarked(l: Local) {
    && (forall id :: id in l.objects ==> ObjectWellMarked(l.objects[id], id))
    && (forall id :: id in l.objects && id !in l.objectsChanged ==> l.objects[id].changed == {})
    && (forall id :: id in l.images ==> l.images[id].id == id)
    && (forall key :: key in l.props ==> !l.props[key].IsEmpty())
    && (forall key :: key in l.propsChanged ==> IsRemote(key))
  }

  ghost predicate ObjectWellMarked(o: LocalObject, id: Id) {
    && o.id == id
    && forall key :: key in o.changed && key in o.props ==> !o.props[key].IsEmpty()
  }

  /** What is to be removed is not there. */
  ghost predicate RemovalsGone(l: Local) {
    l.objectsRemoved !! l.objects.Keys && l.imagesRemoved !! l.images.Keys
  }

  /** An object of the copy differs from the local one at marked keys only. */
  ghost predicate NearObject(r: RemoteObject, o: LocalObject, id: Id) {
    && r.ty == o.ty && r.id == id
    && forall key :: key !in o.changed ==> Get(r.props, key) == Get(o.props, key)
  }

  /** The copy differs from the local state where that is marked, and nowhere else. */
  ghost predicate Near(c: Copy, l: Local) {
    && (forall key :: key !in l.propsChanged ==> Get(c.props, key) == Shown(l, key))
    && (forall id :: id in l.objects && id !in l.objectsAdded ==>
          id in c.objects && NearObject(c.objects[id], l.objects[id], id))
    && (forall id :: id in c.objects ==> id in l.objects || id in l.objectsRemoved)
    && (forall id :: id in l.images && id !in l.imagesAdded ==> id in c.images && c.images[id] == l.images[id])
    && (forall id :: id in c.images ==> id in l.images || id in l.imagesRemoved)
  }

  // ----- The phases of a drain

  lemma {:induction false} AppliedConcat(c: Copy, a: seq<Change>, b: seq<Change>)
    ensures Applied(c, a + b) == Applied(Applied(c, a), b)
  {
    if b == [] {
      assert a + b == a;
    } else {
      var n := |b| - 1;
      assert (a + b)[..|a + b| - 1] == a + b[..n];
      AppliedConcat(c, a, b[..n]);
    }
  }

  lemma AppliedPush(c: Copy, a: seq<Change>, m: Change)
    ensures Applied(c, a + [m]) == Applied1(Applied(c, a), m)
  {
    assert (a + [m])[..|a|] == a;
  }

  lemma ElementsPush<T>(s: seq<T>)
    requires s != []
    ensures Elements(s) == Elements(s[..|s| - 1]) + {s[|s| - 1]}
  {
    assert s == s[..|s| - 1] + [s[|s| - 1]];
  }

  /** What an insertion of a value, or of nothing, leaves to be read. */
  function Read(v: Value): Value { if v.IsEmpty() then Empty else v }

  lemma {:induction false} PropertyPhase(c: Copy, props: Properties, keys: seq<Key>)
    ensures var d := Applied(c, PropertyChanges(props, keys));
            && d == c.(props := d.props)
            && forall k :: Get(d.props, k) == if k in keys then Read(Get(props, k)) else Get(c.props, k)
  {
    if keys != [] {
      var n := |keys| - 1;
      PropertyPhase(c, props, keys[..n]);
      AppliedPush(c, PropertyChanges(props, keys[..n]), PropertyChange(keys[n], Get(props, keys[n])));
      assert keys == keys[..n] + [keys[n]];
    }
  }

  /** The objects of a copy, one of them with other properties. */
  ghost predicate OnlyProps(c: Copy, d: Copy) {
    && d == c.(objects := d.objects)
    && d.objects.Keys == c.objects.Keys
    && forall j :: j in c.objects ==> d.objects[j] == c.objects[j].(props := d.objects[j].props)
  }

  lemma {:induction false} KeyPhase(c: Copy, o: LocalObject, id: Id, keys: seq<Key>)
    ensures var d := Applied(c, KeyChanges(o, id, keys));
            && OnlyProps(c, d)
            && (forall j :: j in c.objects && j != id ==> d.objects[j] == c.objects[j])
            && (id in c.objects ==>
                  forall k :: Get(d.objects[id].props, k)
                              == if k in keys then Read(Get(o.props, k)) else Get(c.objects[id].props, k))
  {
    if keys != [] {
      var n := |keys| - 1;
      KeyPhase(c, o, id, keys[..n]);
      AppliedPush(c, KeyChanges(o, id, keys[..n]), ObjectChange(id, keys[n], Get(o.props, keys[n])));
      assert keys == keys[..n] + [keys[n]];
    }
  }

  /** The keys of an object that are sent. */
  function Sent(objects: map<Id, LocalObject>, ids: set<Id>, keys: map<Id, seq<Key>>, id: Id): seq<Key> {
    if id in ids && id in objects && id in keys then keys[id] else []
  }

  lemma {:induction false} ObjectPhase(c: Copy, objects: map<Id, LocalObject>, ids: seq<Id>, keys: map<Id, seq<Key>>)
    ensures var d := Applied(c, ObjectChanges(objects, ids, keys));
            && OnlyProps(c, d)
            && forall id, k :: id in c.objects ==>
                 Get(d.objects[id].props, k) == if k in Sent(objects, Elements(ids), keys, id)
                                                then Read(Get(objects[id].props, k)) else Get(c.objects[id].props, k)
  {
    hide Read, Applied1;
    if ids != [] {
      var n := |ids| - 1;
      ObjectPhase(c, objects, ids[..n], keys);
      ElementsPush(ids);
      if ids[n] in objects && ids[n] in keys {
        var id := ids[n];
        AppliedConcat(c, ObjectChanges(objects, ids[..n], keys), KeyChanges(objects[id], id, keys[id]));
        KeyPhase(Applied(c, ObjectChanges(objects, ids[..n], keys)), objects[id], id, keys[id]);
      }
    }
  }

  function Only<V>(m: map<Id, V>, ids: set<Id>): map<Id, V> { map id | id in m && id in ids :: m[id] }

  lemma OnlyPush<V>(base: map<Id, V>, m: map<Id, V>, ids: set<Id>, id: Id)
    ensures base + Only(m, ids + {id}) == if id in m then (base + Only(m, ids))[id := m[id]] else base + Only(m, ids)
  {
  }

  lemma OnlyNone<V>(base: map<Id, V>, m: map<Id, V>)
    ensures base + Only(m, {}) == base
  {
  }

  /** The objects as they are created. */
  function AsCreated(objects: map<Id, LocalObject>): Objects {
    map id | id in objects :: RemoteObject(objects[id].ty, id, objects[id].props)
  }

  lemma {:induction false} CreationPhase(c: Copy, objects: map<Id, LocalObject>, ids: seq<Id>)
    ensures Applied(c, ObjectCreations(objects, ids)) == c.(objects := c.objects + Only(AsCreated(objects), Elements(ids)))
  {
    hide Only;
    if ids == [] {
      OnlyNone(c.objects, AsCreated(objects));
      assert Elements(ids) == {};
    } else {
      var n := |ids| - 1;
      CreationPhase(c, objects, ids[..n]);
      ElementsPush(ids);
      OnlyPush(c.objects, AsCreated(objects), Elements(ids[..n]), ids[n]);
      if ids[n] in objects {
        AppliedPush(c, ObjectCreations(objects, ids[..n]), ObjectCreation(AsCreated(objects)[ids[n]]));
      }
    }
  }

  lemma {:induction false} RemovalPhase(c: Copy, ids: seq<Id>)
    ensures Applied(c, ObjectRemovals(ids)) == c.(objects := c.objects - Elements(ids))
  {
    if ids != [] {
      var n := |ids| - 1;
      RemovalPhase(c, ids[..n]);
      ElementsPush(ids);
      AppliedPush(c, ObjectRemovals(ids[..n]), ObjectRemoval(ids[n]));
    }
  }

  lemma {:induction false} ImagePhase(c: Copy, images: map<Id, Image>, ids: seq<Id>)
    requires forall id :: id in images ==> images[id].id == id
    ensures Applied(c, ImageCreations(images, ids)) == c.(images := c.images + Only(images, Elements(ids)))
  {
    hide Only;
    if ids == [] {
      OnlyNone(c.images, images);
      assert Elements(ids) == {};
    } else {
      var n := |ids| - 1;
      ImagePhase(c, images, ids[..n]);
      ElementsPush(ids);
      OnlyPush(c.images, images, Elements(ids[..n]), ids[n]);
      if ids[n] in images {
        AppliedPush(c, ImageCreations(images, ids[..n]), ImageCreation(images[ids[n]]));
      }
    }
  }

  lemma {:induction false} ImageRemovalPhase(c: Copy, ids: seq<Id>)
    ensures Applied(c, ImageRemovals(ids)) == c.(images := c.images - Elements(ids))
  {
    if ids != [] {
      var n := |ids| - 1;
      ImageRemovalPhase(c, ids[..n]);
      ElementsPush(ids);
      AppliedPush(c, ImageRemovals(ids[..n]), ImageRemoval(ids[n]));
    }
  }

  // ----- A whole drain

  /** The copy an object ends up as, if it is not removed. */
  ghost predicate Became(r: RemoteObject, before: map<Id, RemoteObject>, l: Local, id: Id) {
    if id in l.objects && id in l.objectsAdded then r == RemoteObject(l.objects[id].ty, id, l.objects[id].props)
    else
      && id in before
      && r == before[id].(props := r.props)
      && forall k :: Get(r.props, k) == if id in l.objects && k in l.objects[id].changed
                                        then Get(l.objects[id].props, k) else Get(before[id].props, k)
  }

  ghost predicate DrainedTo(c: Copy, l: Local, d: Copy) {
    && (forall k :: Get(d.props, k) == if k in l.propsChanged then Get(l.props, k) else Get(c.props, k))
    && d.objects.Keys == c.objects.Keys + l.objects.Keys * l.objectsAdded - l.objectsRemoved
    && (forall id :: id in d.objects ==> Became(d.objects[id], c.objects, l, id))
    && d.images == c.images + Only(l.images, l.imagesAdded) - l.imagesRemoved
  }

  lemma ObjectsDrained(c: Copy, l: Local, order: DrainOrder)
    requires WellMarked(l) && Covers(order, l)
    ensures var d := Applied(c, ObjectChanges(l.objects, order.changed, order.keys));
            && d == c.(objects := d.objects) && d.objects.Keys == c.objects.Keys
            && forall id :: id in d.objects ==> Became(d.objects[id], c.objects, l.(objectsAdded := {}), id)
  {
    ObjectPhase(c, l.objects, order.changed, order.keys);
    var d := Applied(c, ObjectChanges(l.objects, order.changed, order.keys));
    forall id, k | id in c.objects
      ensures Get(d.objects[id].props, k) == if id in l.objects && k in l.objects[id].changed
                                             then Get(l.objects[id].props, k) else Get(c.objects[id].props, k)
    {
      var sent := Sent(l.objects, Elements(order.changed), order.keys, id);
      if id in l.objects {
        assert ObjectWellMarked(l.objects[id], id);
        assert Elements(sent) == l.objects[id].changed;
        assert k in sent <==> k in Elements(sent);
      }
    }
  }

  lemma CreatedAndRemoved(c: Copy, l: Local, order: DrainOrder)
    requires Covers(order, l)
    ensures var d := Applied(c, ObjectCreations(l.objects, order.added) + ObjectRemovals(order.removed));
            && d == c.(objects := d.objects)
            && d.objects.Keys == c.objects.Keys + l.objects.Keys * l.objectsAdded - l.objectsRemoved
            && forall id :: id in d.objects ==>
                 if id in l.objects && id in l.objectsAdded
                 then d.objects[id] == RemoteObject(l.objects[id].ty, id, l.objects[id].props)
                 else id in c.objects && d.objects[id] == c.objects[id]
  {
    AppliedConcat(c, ObjectCreations(l.objects, order.added), ObjectRemovals(order.removed));
    CreationPhase(c, l.objects, order.added);
    RemovalPhase(Applied(c, ObjectCreations(l.objects, order.added)), order.removed);
    assert forall id :: id in order.added <==> id in Elements(order.added);
  }

  lemma ImagesDrained(c: Copy, l: Local, order: DrainOrder)
    requires WellMarked(l) && Covers(order, l)
    ensures Applied(c, ImageCreations(l.images, order.imagesAdded) + ImageRemovals(order.imagesRemoved))
            == c.(images := c.images + Only(l.images, l.imagesAdded) - l.imagesRemoved)
  {
    AppliedConcat(c, ImageCreations(l.images, order.imagesAdded), ImageRemovals(order.imagesRemoved));
    ImagePhase(c, l.images, order.imagesAdded);
    ImageRemovalPhase(Applied(c, ImageCreations(l.images, order.imagesAdded)), order.imagesRemoved);
  }

  lemma DrainPhases(c: Copy, l: Local, order: DrainOrder) returns (c1: Copy, c2: Copy, c3: Copy)
    ensures c1 == Applied(c, PropertyChanges(l.props, order.props))
    ensures c2 == Applied(c1, ObjectChanges(l.objects, order.changed, order.keys))
    ensures c3 == Applied(c2, ObjectCreations(l.objects, order.added) + ObjectRemovals(order.removed))
    ensures Applied(c, Drained(l, order))
            == Applied(c3, ImageCreations(l.images, order.imagesAdded) + ImageRemovals(order.imagesRemoved))
  {
    hide Applied, PropertyChanges, ObjectChanges, ObjectCreations, ObjectRemovals, ImageCreations, ImageRemovals;
    var p, o := PropertyChanges(l.props, order.props), ObjectChanges(l.objects, order.changed, order.keys);
    var a := ObjectCreations(l.objects, order.added) + ObjectRemovals(order.removed);
    var i := ImageCreations(l.images, order.imagesAdded) + ImageRemovals(order.imagesRemoved);
    assert Drained(l, order) == p + o + a + i;
    AppliedConcat(c, p, o);
    AppliedConcat(c, p + o, a);
    AppliedConcat(c, p + o + a, i);
    c1 := Applied(c, p);
    c2 := Applied(c1, o);
    c3 := Applied(c2, a);
  }

  lemma DrainEffect(c: Copy, l: Local, order: DrainOrder)
    requires WellMarked(l) && Covers(order, l)
    ensures DrainedTo(c, l, Applied(c, Drained(l, order)))
  {
    hide Applied, Drained;
    var c1, c2, c3 := DrainPhases(c, l, order);
    PropertyPhase(c, l.props, order.props);
    assert forall k :: k in order.props <==> k in Elements(order.props);
    ObjectsDrained(c1, l, order);
    CreatedAndRemoved(c2, l, order);
    ImagesDrained(c3, l, order);
  }

  /** A drain makes the copies equal exactly when they differed only where that was marked. */
  lemma DrainExact(c: Copy, l: Local, order: DrainOrder)
    requires WellMarked(l) && Covers(order, l)
    ensures Matches(Applied(c, Drained(l, order)), l) <==> Near(c, l) && RemovalsGone(l)
  {
    hide Applied, Drained;
    DrainEffect(c, l, order);
    var d := Applied(c, Drained(l, order));
    if Near(c, l) && RemovalsGone(l) { NearDrains(c, l, d); }
    if Matches(d, l) { DrainedWasNear(c, l, d); }
  }

  lemma NearDrains(c: Copy, l: Local, d: Copy)
    requires WellMarked(l) && DrainedTo(c, l, d)
    requires Near(c, l) && RemovalsGone(l)
    ensures Matches(d, l)
  {
    forall id | id in l.objects
      ensures SameObject(d.objects[id], l.objects[id], id)
    {
      assert id in d.objects && Became(d.objects[id], c.objects, l, id);
    }
  }

  lemma DrainedWasNear(c: Copy, l: Local, d: Copy)
    requires WellMarked(l) && DrainedTo(c, l, d)
    requires Matches(d, l)
    ensures Near(c, l) && RemovalsGone(l)
  {
    forall id | id in l.objects
      ensures id !in l.objectsRemoved
      ensures id !in l.objectsAdded ==> id in c.objects && NearObject(c.objects[id], l.objects[id], id)
    {
      assert id in d.objects && Became(d.objects[id], c.objects, l, id);
      assert SameObject(d.objects[id], l.objects[id], id);
    }
    forall id | id in c.objects
      ensures id in l.objects || id in l.objectsRemoved
    {
      assert id in d.objects || id in l.objectsRemoved;
    }
    forall id | id in l.images
      ensures id !in l.imagesRemoved && (id !in l.imagesAdded ==> id in c.images && c.images[id] == l.images[id])
    {
      assert id in d.images && d.images[id] == l.images[id];
    }
    forall id | id in c.images
      ensures id in l.images || id in l.imagesRemoved
    {
      assert id in d.images || id in l.imagesRemoved;
    }
  }
}
