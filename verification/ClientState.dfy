/** The locked state of a client, changed in place by the backend and drained by the connection. */
module ClientState {
  import opened Options
  import opened Bytes
  import opened Values
  import opened Identifiers
  import opened LocalState
  import opened DirtySets
  import opened Sessions
  import opened LocalReadings
  import Sorting

  /** A list and the same list with one more item. */
  lemma Snoc<T>(s: seq<T>, x: T)
    ensures (s + [x])[..|s|] == s && Elements(s + [x]) == Elements(s) + {x}
  {
  }

  function Unlinked(objects: map<Id, LocalObject>, done: set<Id>, image: Id): map<Id, LocalObject> {
    map id | id in objects :: if id in done then WithoutImage(objects[id], image) else objects[id]
  }

  function Users(objects: map<Id, LocalObject>, done: set<Id>, image: Id): set<Id> {
    set id | id in objects && id in done && Uses(objects[id], image)
  }

  lemma UnlinkedAll(objects: map<Id, LocalObject>, image: Id)
    ensures Unlinked(objects, {}, image) == objects && Users(objects, {}, image) == {}
    ensures Unlinked(objects, objects.Keys, image) == map id | id in objects :: WithoutImage(objects[id], image)
    ensures Users(objects, objects.Keys, image) == set id | id in objects && Uses(objects[id], image)
  {
    hide WithoutImage, Uses;
  }

  lemma UnlinkedOne(objects: map<Id, LocalObject>, done: set<Id>, id: Id, image: Id)
    requires id in objects && id !in done
    ensures Unlinked(objects, done, image).Keys == objects.Keys && Unlinked(objects, done, image)[id] == objects[id]
    ensures Unlinked(objects, done + {id}, image) == Unlinked(objects, done, image)[id := WithoutImage(objects[id], image)]
    ensures Users(objects, done + {id}, image)
            == Users(objects, done, image) + if Uses(objects[id], image) then {id} else {}
  {
    hide WithoutImage, Uses;
  }

  /** The image is taken out of one object. */
  method Unlink(o: LocalObject, image: Id) returns (o': LocalObject, used: bool)
    ensures o' == WithoutImage(o, image) && used == Uses(o, image) && o'.id == o.id
  {
    o', used := o, false;
    if Refers(o', IMAGE_ID, image) {
      o', used := o'.(props := o'.props - {IMAGE_ID}, changed := o'.changed + {IMAGE_ID}), true;
    }
    if Refers(o', ROOM_BACKGROUND, image) {
      o', used := o'.(props := o'.props - {ROOM_BACKGROUND}, changed := o'.changed + {ROOM_BACKGROUND}), true;
    }
  }

  class ClientState {
    var key: PublicKey
    var objects: map<Id, LocalObject>
    var objectsChanged: set<Id>
    var objectsAdded: set<Id>
    var objectsRemoved: set<Id>
    var images: map<Id, Image>
    var imagesAdded: set<Id>
    var imagesRemoved: set<Id>
    var props: Properties
    var propsChanged: set<Key>

    function Value(): Local
      reads this
    {
      Local(key, objects, objectsChanged, objectsAdded, objectsRemoved, images, imagesAdded, imagesRemoved, props, propsChanged)
    }

    constructor (key: PublicKey, objects: map<Id, LocalObject>, images: map<Id, Image>, props: Properties)
      ensures Value() == Local(key, objects, {}, {}, {}, images, {}, {}, props, {})
    {
      this.key, this.objects, this.images, this.props := key, objects, images, props;
      objectsChanged, objectsAdded, objectsRemoved := {}, {}, {};
      imagesAdded, imagesRemoved, propsChanged := {}, {}, {};
    }

    // ----- The backend

    method ObjectUpdate(id: Id, values: Assignments)
      modifies this
      ensures Value() == ObjectUpdated(old(Value()), id, values)
      ensures id in old(objects) ==> Assigned(old(objects)[id], values, objects[id])
    {
      UpdateReads(Value(), id, values);
      if id !in objects {
        return;
      }
      var o := objects[id];
      for i := 0 to |values|
        invariant o == PutAll(objects[id], values[..i])
      {
        assert values[..i + 1][..i] == values[..i];
        o := o.(props := Inserted(o.props, values[i].0, values[i].1));
        o := o.(changed := o.changed + {values[i].0});
      }
      assert values[..|values|] == values;
      objects := objects[id := o];
      if values != [] {
        objectsChanged := objectsChanged + {id};
      }
    }

    method Updates(values: Assignments, derive: string -> PublicKey)
      modifies this
      ensures Value() == PropertiesSet(old(Value()), values, derive)
      ensures AssignedOwn(old(Value()), values, derive, Value())
    {
      PropertiesRead(Value(), values, derive);
      hide AssignedOwn;
      for i := 0 to |values|
        invariant Value() == PropertiesSet(old(Value()), values[..i], derive)
      {
        assert values[..i + 1][..i] == values[..i];
        var (k, v) := values[i];
        if k == PEER_SECRET {
          if v.AsString() == "" {
            continue;
          }
          key := derive(v.AsString());
        }
        props := Inserted(props, k, v);
        if IsRemote(k) {
          propsChanged := propsChanged + {k};
        }
      }
      assert values[..|values|] == values;
    }

    /** The greatest sort key of the objects. */
    method LastSort() returns (last: Option<ByteString>)
      ensures IsLastSort(objects, last)
    {
      last := None;
      var todo := objects.Keys;
      while todo != {}
        invariant todo <= objects.Keys
        invariant last.None? ==> todo == objects.Keys
        invariant last.Some? ==> exists id :: id in objects && objects[id].Sort() == last.value
        invariant last.Some? ==> forall id :: id in objects && id !in todo ==> LessEq(objects[id].Sort(), last.value)
        decreases todo
      {
        var id :| id in todo;
        todo := todo - {id};
        var sort := objects[id].Sort();
        if last.None? {
          last := Some(sort);
        } else if !Less(sort, last.value) {
          LessTotal(sort, last.value);
          forall j | j in objects && j !in todo
            ensures LessEq(objects[j].Sort(), sort)
          {
            if j != id && objects[j].Sort() != last.value && last.value != sort {
              LessTransitive(objects[j].Sort(), last.value, sort);
            }
          }
          last := Some(sort);
        }
      }
      assert objects.Keys == {} <==> objects == map[];
    }

    /** The identifier has been drawn before; the object is placed after all others. */
    method CreateObject(id: Id, ty: TypeId, props: Properties) returns (created: RemoteObject, ghost last: Option<ByteString>)
      modifies this
      ensures IsLastSort(old(objects), last)
      ensures Value() == ObjectAdded(old(Value()), NewObject(id, ty, props, last))
      ensures created == NewObject(id, ty, props, last).Remote()
    {
      var o := LocalObject(ty, id, props, {});
      var greatest := LastSort();
      last := greatest;
      if !IsGlobal(ty) {
        var sort := if greatest.Some? then Sorting.After(greatest.value) else IdBytes(id);
        o := o.(props := Inserted(o.props, SORT, BytesValue(sort)));
      }
      objects := objects[id := o];
      objectsAdded := objectsAdded + {id};
      created := o.Remote();
    }

    method RemoveObject(id: Id)
      modifies this
      ensures Value() == ObjectRemoved(old(Value()), id)
    {
      if Get(props, ROOM).AsStableId() == StableId(key, id) {
        props := props - {ROOM};
        propsChanged := propsChanged + {ROOM};
      }
      objects := objects - {id};
      objectsChanged := objectsChanged - {id};
      objectsAdded := objectsAdded - {id};
      objectsRemoved := objectsRemoved + {id};
    }

    method InsertImage(image: Image)
      modifies this
      ensures Value() == ImageAdded(old(Value()), image)
    {
      images := images[image.id := image];
      imagesAdded := imagesAdded + {image.id};
    }

    /** Every object that has the image loses it. */
    method UnlinkAll(image: Id)
      requires WellMarked(Value())
      modifies `objects, `objectsChanged
      ensures objects == map id | id in old(objects) :: WithoutImage(old(objects)[id], image)
      ensures objectsChanged == old(objectsChanged) + set id | id in old(objects) && Uses(old(objects)[id], image)
    {
      ghost var before, changed := objects, objectsChanged;
      ghost var done: set<Id> := {};
      UnlinkedAll(before, image);
      assert forall id :: id in before ==> before[id].id == id by {
        assert forall id :: id in before ==> ObjectWellMarked(before[id], id);
      }
      hide *;
      var todo := objects.Keys;
      while todo != {}
        invariant done + todo == before.Keys && done !! todo
        invariant objects == Unlinked(before, done, image)
        invariant objectsChanged == changed + Users(before, done, image)
        decreases todo
      {
        var id :| id in todo;
        UnlinkedOne(before, done, id, image);
        var o, used := Unlink(objects[id], image);
        objects := objects[id := o];
        if used {
          objectsChanged := objectsChanged + {o.id};
        }
        todo, done := todo - {id}, done + {id};
      }
      assert done == before.Keys;
    }

    method RemoveImage(image: Id)
      requires WellMarked(Value())
      modifies this
      ensures Value() == ImageRemoved(old(Value()), image)
    {
      images := images - {image};
      imagesAdded := imagesAdded - {image};
      imagesRemoved := imagesRemoved + {image};
      assert WellMarked(Value());
      UnlinkAll(image);
    }

    // ----- The connection

    /** What is handed over on connecting; the server enters each object and image under its identifier. */
    method Hand() returns (shown: Properties, objs: seq<RemoteObject>, imgs: seq<Image>)
      requires WellMarked(Value())
      ensures forall r :: r in objs <==> r.id in Snapshot(Value()).objects && Snapshot(Value()).objects[r.id] == r
      ensures forall i :: i in imgs <==> i.id in images && images[i.id] == i
      ensures shown == Snapshot(Value()).props
      ensures |objs| == |objects| && |imgs| == |images|
    {
      objs, imgs, shown := [], [], map[];
      var todo := objects.Keys;
      while todo != {}
        invariant todo <= objects.Keys
        invariant |objs| + |todo| == |objects|
        invariant forall r :: r in objs <==> r.id in objects && r.id !in todo && objects[r.id].Remote() == r
        decreases todo
      {
        var id :| id in todo;
        assert ObjectWellMarked(objects[id], id);
        todo := todo - {id};
        objs := objs + [RemoteObject(objects[id].ty, objects[id].id, objects[id].props)];
      }
      todo := images.Keys;
      while todo != {}
        invariant todo <= images.Keys
        invariant |imgs| + |todo| == |images|
        invariant forall i :: i in imgs <==> i.id in images && i.id !in todo && images[i.id] == i
        decreases todo
      {
        var id :| id in todo;
        todo := todo - {id};
        imgs := imgs + [images[id]];
      }
      var keys := props.Keys;
      while keys != {}
        invariant keys <= props.Keys
        invariant shown == map k | k in props && k !in keys && IsRemote(k) :: props[k]
        decreases keys
      {
        var k :| k in keys;
        keys := keys - {k};
        if IsRemote(k) {
          shown := Inserted(shown, k, props[k]);
        }
      }
      assert shown == Snapshot(Value()).props;
    }

    method SendProperties() returns (sent: seq<Change>, ghost order: seq<Key>)
      modifies `propsChanged
      ensures Elements(order) == old(propsChanged) && sent == PropertyChanges(props, order) && propsChanged == {}
    {
      sent, order := [], [];
      while propsChanged != {}
        invariant Elements(order) + propsChanged == old(propsChanged)
        invariant sent == PropertyChanges(props, order)
        decreases propsChanged
      {
        var k :| k in propsChanged;
        propsChanged := propsChanged - {k};
        Snoc(order, k);
        sent, order := sent + [PropertyChange(k, Get(props, k))], order + [k];
      }
    }

    /** The changed keys of one object. */
    method SendKeys(id: Id) returns (sent: seq<Change>, ghost order: seq<Key>)
      requires id in objects
      modifies `objects
      ensures objects == old(objects)[id := Settled(old(objects)[id])]
      ensures Elements(order) == old(objects)[id].changed && sent == KeyChanges(old(objects)[id], id, order)
    {
      sent, order := [], [];
      var o := objects[id];
      while o.changed != {}
        invariant objects == old(objects) && o == objects[id].(changed := o.changed)
        invariant Elements(order) + o.changed == objects[id].changed
        invariant sent == KeyChanges(objects[id], id, order)
        decreases o.changed
      {
        var k :| k in o.changed;
        o := o.(changed := o.changed - {k});
        Snoc(order, k);
        sent, order := sent + [ObjectChange(id, k, Get(o.props, k))], order + [k];
      }
      objects := objects[id := o];
    }

    method SendObjectChanges() returns (sent: seq<Change>, ghost order: seq<Id>, ghost keys: map<Id, seq<Key>>)
      modifies `objects, `objectsChanged
      ensures objects == Partly(old(objects), old(objectsChanged)) && objectsChanged == {}
      ensures Elements(order) == old(objectsChanged)
      ensures forall id :: id in old(objects) && id in old(objectsChanged) ==>
                id in keys && Elements(keys[id]) == old(objects)[id].changed
      ensures sent == ObjectChanges(old(objects), order, keys)
    {
      sent, order, keys := [], [], map[];
      ghost var before := objects;
      PartlyNone(before);
      while objectsChanged != {}
        invariant Elements(order) + objectsChanged == old(objectsChanged) && Elements(order) !! objectsChanged
        invariant objects == Partly(before, Elements(order))
        invariant keys.Keys == before.Keys * Elements(order)
        invariant forall id :: id in keys ==> Elements(keys[id]) == before[id].changed
        invariant sent == ObjectChanges(before, order, keys)
        decreases objectsChanged
      {
        hide Partly, ObjectChanges;
        var id :| id in objectsChanged;
        objectsChanged := objectsChanged - {id};
        Snoc(order, id);
        PartlyOne(before, Elements(order), id);
        if id !in objects {
          ObjectChangesPush(before, order, id, keys, []);
          order := order + [id];
          continue;
        }
        var some;
        ghost var ks;
        some, ks := SendKeys(id);
        ObjectChangesPush(before, order, id, keys, ks);
        sent, order, keys := sent + some, order + [id], keys[id := ks];
      }
    }

    method SendCreations() returns (sent: seq<Change>, ghost order: seq<Id>)
      modifies `objectsAdded
      ensures objectsAdded == {} && Elements(order) == old(objectsAdded) && sent == ObjectCreations(objects, order)
    {
      sent, order := [], [];
      while objectsAdded != {}
        invariant Elements(order) + objectsAdded == old(objectsAdded)
        invariant sent == ObjectCreations(objects, order)
        decreases objectsAdded
      {
        var id :| id in objectsAdded;
        objectsAdded := objectsAdded - {id};
        Snoc(order, id);
        order := order + [id];
        if id !in objects {
          continue;
        }
        sent := sent + [ObjectCreation(RemoteObject(objects[id].ty, id, objects[id].props))];
      }
    }

    method SendRemovals() returns (sent: seq<Change>, ghost order: seq<Id>)
      modifies `objectsRemoved
      ensures objectsRemoved == {} && Elements(order) == old(objectsRemoved) && sent == ObjectRemovals(order)
    {
      sent, order := [], [];
      while objectsRemoved != {}
        invariant Elements(order) + objectsRemoved == old(objectsRemoved)
        invariant sent == ObjectRemovals(order)
        decreases objectsRemoved
      {
        var id :| id in objectsRemoved;
        objectsRemoved := objectsRemoved - {id};
        Snoc(order, id);
        sent, order := sent + [ObjectRemoval(id)], order + [id];
      }
    }

    method SendImages() returns (sent: seq<Change>, ghost order: seq<Id>)
      modifies `imagesAdded
      ensures imagesAdded == {} && Elements(order) == old(imagesAdded) && sent == ImageCreations(images, order)
    {
      sent, order := [], [];
      while imagesAdded != {}
        invariant Elements(order) + imagesAdded == old(imagesAdded)
        invariant sent == ImageCreations(images, order)
        decreases imagesAdded
      {
        var id :| id in imagesAdded;
        imagesAdded := imagesAdded - {id};
        Snoc(order, id);
        order := order + [id];
        if id !in images {
          continue;
        }
        sent := sent + [ImageCreation(images[id])];
      }
    }

    method SendImageRemovals() returns (sent: seq<Change>, ghost order: seq<Id>)
      modifies `imagesRemoved
      ensures imagesRemoved == {} && Elements(order) == old(imagesRemoved) && sent == ImageRemovals(order)
    {
      sent, order := [], [];
      while imagesRemoved != {}
        invariant Elements(order) + imagesRemoved == old(imagesRemoved)
        invariant sent == ImageRemovals(order)
        decreases imagesRemoved
      {
        var id :| id in imagesRemoved;
        imagesRemoved := imagesRemoved - {id};
        Snoc(order, id);
        sent, order := sent + [ImageRemoval(id)], order + [id];
      }
    }

    method SendAll() returns (sent: seq<Change>, ghost order: DrainOrder)
      modifies this
      ensures Covers(order, old(Value())) && sent == Drained(old(Value()), order)
      ensures Value() == Cleared(old(Value()))
    {
      hide PropertyChanges, ObjectChanges, ObjectCreations, ObjectRemovals, ImageCreations, ImageRemovals, Elements;
      var p, c, a, r, i, d;
      ghost var ps, cs, ks, adds, rs, shown, ds;
      ghost var before, changed := objects, objectsChanged;
      p, ps := SendProperties();
      c, cs, ks := SendObjectChanges();
      a, adds := SendCreations();
      r, rs := SendRemovals();
      i, shown := SendImages();
      d, ds := SendImageRemovals();
      sent := p + c + a + r + i + d;
      order := DrainOrder(ps, cs, ks, adds, rs, shown, ds);
      CreationsSettled(before, changed, adds);
    }

    /** One pass: the server's copy, once it has taken in what was sent, is what is here, and nothing is marked. */
    method Drain(ghost copy: Copy) returns (sent: seq<Change>, ghost order: DrainOrder)
      requires WellMarked(Value()) && RemovalsGone(Value()) && Near(copy, Value())
      modifies this
      ensures Covers(order, old(Value())) && sent == Drained(old(Value()), order)
      ensures Value() == Cleared(old(Value()))
      ensures Matches(Applied(copy, sent), Value())
    {
      hide *;
      ghost var l := Value();
      sent, order := SendAll();
      DrainExact(copy, l, order);
      ClearedNear(Applied(copy, sent), l);
    }
  }

  /** The objects that have been gone through have nothing more to say. */
  ghost function Partly(objects: map<Id, LocalObject>, done: set<Id>): map<Id, LocalObject> {
    map id | id in objects :: if id in done then Settled(objects[id]) else objects[id]
  }

  lemma PartlyNone(objects: map<Id, LocalObject>)
    ensures Partly(objects, {}) == objects
  {
  }

  lemma PartlyOne(objects: map<Id, LocalObject>, done: set<Id>, id: Id)
    ensures Partly(objects, done).Keys == objects.Keys
    ensures id in objects && id !in done ==> Partly(objects, done)[id] == objects[id]
    ensures Partly(objects, done + {id})
            == if id in objects then Partly(objects, done)[id := Settled(objects[id])] else Partly(objects, done)
  {
  }

  /** Entering the keys of another object does not touch what was sent before. */
  lemma {:induction false} ObjectChangesKept(
    objects: map<Id, LocalObject>, ids: seq<Id>, id: Id, keys: map<Id, seq<Key>>, ks: seq<Key>)
    requires id !in Elements(ids)
    ensures ObjectChanges(objects, ids, keys[id := ks]) == ObjectChanges(objects, ids, keys)
  {
    if ids != [] {
      ElementsPush(ids);
      ObjectChangesKept(objects, ids[..|ids| - 1], id, keys, ks);
    }
  }

  lemma ObjectChangesPush(objects: map<Id, LocalObject>, ids: seq<Id>, id: Id, keys: map<Id, seq<Key>>, ks: seq<Key>)
    requires id !in Elements(ids) && keys.Keys == objects.Keys * Elements(ids)
    ensures if id in objects
            then ObjectChanges(objects, ids + [id], keys[id := ks])
                 == ObjectChanges(objects, ids, keys) + KeyChanges(objects[id], id, ks)
            else ObjectChanges(objects, ids + [id], keys) == ObjectChanges(objects, ids, keys)
  {
    Snoc(ids, id);
    ObjectChangesKept(objects, ids, id, keys, ks);
  }

  /** What an object is created as does not depend on its marks. */
  lemma {:induction false} CreationsSettled(objects: map<Id, LocalObject>, done: set<Id>, ids: seq<Id>)
    ensures ObjectCreations(Partly(objects, done), ids) == ObjectCreations(objects, ids)
  {
    if ids != [] { CreationsSettled(objects, done, ids[..|ids| - 1]); }
  }
}
