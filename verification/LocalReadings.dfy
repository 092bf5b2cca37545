/** What is read from a client's state after each edit, and which marks the edit has left. */
module LocalReadings {
  import opened Options
  import opened Bytes
  import opened Values
  import opened Identifiers
  import opened LocalState
  import opened DirtySets
  import opened Sessions

  // ----- Assignments to an object

  function KeysOf(values: Assignments): set<Key> { set i | 0 <= i < |values| :: values[i].0 }

  predicate LastForItsKey(values: Assignments, i: nat)
    requires i < |values|
  {
    forall j :: i < j < |values| ==> values[j].0 != values[i].0
  }

  /** Each key reads as it was last assigned, every other key as before, and the assigned keys are marked. */
  ghost predicate Assigned(o: LocalObject, values: Assignments, p: LocalObject) {
    && p.id == o.id && p.ty == o.ty && p.changed == o.changed + KeysOf(values)
    && (forall i :: 0 <= i < |values| && LastForItsKey(values, i) ==> Get(p.props, values[i].0) == Read(values[i].1))
    && (forall k :: k !in KeysOf(values) ==> Get(p.props, k) == Get(o.props, k))
  }

  lemma InsertedReads(props: Properties, key: Key, value: Value)
    ensures forall k :: Get(Inserted(props, key, value), k) == if k == key then Read(value) else Get(props, k)
  {
  }

  lemma {:induction false} PutAllReads(o: LocalObject, values: Assignments)
    ensures Assigned(o, values, PutAll(o, values))
  {
    if values != [] {
      var n := |values| - 1;
      PutAllReads(o, values[..n]);
      AssignedPush(o, values, PutAll(o, values[..n]));
    }
  }

  lemma AssignedPush(o: LocalObject, values: Assignments, p: LocalObject)
    requires values != [] && Assigned(o, values[..|values| - 1], p)
    ensures Assigned(o, values, p.Put(values[|values| - 1].0, values[|values| - 1].1))
  {
    var n := |values| - 1;
    var before, a := values[..n], values[n];
    KeysPush(values);
    InsertedReads(p.props, a.0, a.1);
    var q := p.Put(a.0, a.1);
    hide Get, Inserted, KeysOf, Read;
    forall i | 0 <= i < |values| && LastForItsKey(values, i)
      ensures Get(q.props, values[i].0) == Read(values[i].1)
    {
      if i < n {
        assert values[n].0 != values[i].0;
        assert before[i] == values[i] && LastForItsKey(before, i);
      }
    }
  }

  lemma KeysPush(values: Assignments)
    requires values != []
    ensures KeysOf(values) == KeysOf(values[..|values| - 1]) + {values[|values| - 1].0}
  {
    var before := values[..|values| - 1];
    assert forall i :: 0 <= i < |before| ==> before[i].0 == values[i].0;
  }

  /** An update of an object is its assignments and their marks, and touches nothing else. */
  lemma UpdateReads(l: Local, id: Id, values: Assignments)
    ensures var m := ObjectUpdated(l, id, values);
            && m == l.(objects := m.objects, objectsChanged := m.objectsChanged)
            && m.objects.Keys == l.objects.Keys
            && m.objectsChanged == l.objectsChanged + (if id in l.objects && values != [] then {id} else {})
            && (forall j :: j in l.objects && j != id ==> m.objects[j] == l.objects[j])
            && (id in l.objects ==> Assigned(l.objects[id], values, m.objects[id]))
  {
    if id in l.objects { PutAllReads(l.objects[id], values); }
  }

  // ----- Assignments to the client itself

  /** An empty secret is passed over. */
  predicate Counts(a: (Key, Value)) { a.0 == PEER_SECRET ==> a.1.AsString() != "" }

  /** No later assignment that counts is to the same key. */
  predicate LastThatCounts(values: Assignments, i: nat)
    requires i < |values|
  {
    Counts(values[i]) && forall j :: i < j < |values| && Counts(values[j]) ==> values[j].0 != values[i].0
  }

  predicate Counted(values: Assignments, key: Key) {
    exists i :: 0 <= i < |values| && Counts(values[i]) && values[i].0 == key
  }

  lemma CountedPush(values: Assignments, key: Key)
    requires values != []
    ensures var n := |values| - 1;
            Counted(values, key) <==> Counted(values[..n], key) || (Counts(values[n]) && values[n].0 == key)
  {
    var n := |values| - 1;
    if i :| 0 <= i < n && Counts(values[..n][i]) && values[..n][i].0 == key {
      assert Counts(values[i]) && values[i].0 == key;
    }
    if i :| 0 <= i < n && Counts(values[i]) && values[i].0 == key {
      assert Counts(values[..n][i]) && values[..n][i].0 == key;
    }
  }

  /** The property reads as assigned; a secret has brought the key that is derived from it. */
  ghost predicate Holds(m: Local, a: (Key, Value), derive: string -> PublicKey) {
    Get(m.props, a.0) == Read(a.1) && (a.0 == PEER_SECRET ==> m.key == derive(a.1.AsString()))
  }

  /** Each property holds as last assigned, and of all that only the name and the room are marked to be sent. */
  ghost predicate AssignedOwn(l: Local, values: Assignments, derive: string -> PublicKey, m: Local) {
    && m == l.(key := m.key, props := m.props, propsChanged := m.propsChanged)
    && (forall i :: 0 <= i < |values| && LastThatCounts(values, i) ==> Holds(m, values[i], derive))
    && (forall k :: !Counted(values, k) ==> Get(m.props, k) == Get(l.props, k))
    && (!Counted(values, PEER_SECRET) ==> m.key == l.key)
    && forall k :: k in m.propsChanged <==> k in l.propsChanged || (Counted(values, k) && (k == PEER_NAME || k == ROOM))
  }

  lemma {:induction false} PropertiesRead(l: Local, values: Assignments, derive: string -> PublicKey)
    ensures AssignedOwn(l, values, derive, PropertiesSet(l, values, derive))
  {
    if values != [] {
      var n := |values| - 1;
      PropertiesRead(l, values[..n], derive);
      AssignedOwnPush(l, values, derive, PropertiesSet(l, values[..n], derive));
    }
  }

  /** One assignment takes `l` to `m`. */
  ghost predicate Took(l: Local, a: (Key, Value), derive: string -> PublicKey, m: Local) {
    && m == l.(key := m.key, props := m.props, propsChanged := m.propsChanged)
    && (forall k :: Get(m.props, k) == if Counts(a) && k == a.0 then Read(a.1) else Get(l.props, k))
    && m.key == (if Counts(a) && a.0 == PEER_SECRET then derive(a.1.AsString()) else l.key)
    && forall k :: k in m.propsChanged <==>
         k in l.propsChanged || (Counts(a) && k == a.0 && (k == PEER_NAME || k == ROOM))
  }

  lemma PropertySetReads(l: Local, a: (Key, Value), derive: string -> PublicKey)
    ensures Took(l, a, derive, PropertySet(l, a.0, a.1, derive))
  {
  }

  lemma LastPush(values: Assignments, derive: string -> PublicKey, m: Local, p: Local)
    requires values != [] && Took(m, values[|values| - 1], derive, p)
    requires forall i :: 0 <= i < |values| - 1 && LastThatCounts(values[..|values| - 1], i) ==> Holds(m, values[i], derive)
    ensures forall i :: 0 <= i < |values| && LastThatCounts(values, i) ==> Holds(p, values[i], derive)
  {
    hide Get, Read, Counts;
    var n := |values| - 1;
    forall i | 0 <= i < |values| && LastThatCounts(values, i)
      ensures Holds(p, values[i], derive)
    {
      if i < n { assert LastThatCounts(values[..n], i) && Holds(m, values[i], derive); }
    }
  }

  lemma AssignedOwnPush(l: Local, values: Assignments, derive: string -> PublicKey, m: Local)
    requires values != [] && AssignedOwn(l, values[..|values| - 1], derive, m)
    ensures AssignedOwn(l, values, derive, PropertySet(m, values[|values| - 1].0, values[|values| - 1].1, derive))
  {
    hide Counted, Get, Read, PropertySet, LastThatCounts, Counts, Holds;
    var n := |values| - 1;
    PropertySetReads(m, values[n], derive);
    forall k
      ensures Counted(values, k) <==> Counted(values[..n], k) || (Counts(values[n]) && values[n].0 == k)
    {
      CountedPush(values, k);
    }
    assert forall i :: 0 <= i < n && LastThatCounts(values[..n], i) ==> Holds(m, values[..n][i], derive);
    LastPush(values, derive, m, PropertySet(m, values[n].0, values[n].1, derive));
  }

  // ----- Objects and images

  /** A created object has the properties it was created with, and if it is not global a place of its own. */
  lemma CreatedReads(l: Local, id: Id, ty: TypeId, props: Properties, last: Option<ByteString>)
    ensures var o := NewObject(id, ty, props, last);
            var m := ObjectAdded(l, o);
            && m == l.(objects := m.objects, objectsAdded := l.objectsAdded + {id})
            && m.objects.Keys == l.objects.Keys + {id}
            && (forall j :: j in l.objects && j != id ==> m.objects[j] == l.objects[j])
            && m.objects[id].id == id && m.objects[id].ty == ty && m.objects[id].changed == {}
            && (forall k :: k != SORT || IsGlobal(ty) ==> Get(m.objects[id].props, k) == Get(props, k))
            && (!IsGlobal(ty) ==> Get(m.objects[id].props, SORT) == Read(BytesValue(NewSort(id, last))))
  {
  }

  /** A removed object is gone, and the client is in no room if it was that; nothing else is lost. */
  lemma RemovedReads(l: Local, id: Id)
    ensures var m := ObjectRemoved(l, id);
            var here := Get(l.props, ROOM).AsStableId() == StableId(l.key, id);
            && m == l.(props := m.props, propsChanged := m.propsChanged, objects := l.objects - {id},
                       objectsChanged := m.objectsChanged, objectsAdded := m.objectsAdded,
                       objectsRemoved := l.objectsRemoved + {id})
            && (forall k :: Get(m.props, k) == if k == ROOM && here then Empty else Get(l.props, k))
            && (forall k :: k in m.propsChanged <==> k in l.propsChanged || (k == ROOM && here))
            && (forall j :: j in m.objectsChanged <==> j in l.objectsChanged && j != id)
            && (forall j :: j in m.objectsAdded <==> j in l.objectsAdded && j != id)
  {
  }

  /** An inserted image is there as it is, to be sent. */
  lemma ImageAddedReads(l: Local, image: Image)
    ensures var m := ImageAdded(l, image);
            && m == l.(images := m.images, imagesAdded := l.imagesAdded + {image.id})
            && (forall j :: j in m.images <==> j in l.images || j == image.id)
            && forall j :: j in m.images ==> m.images[j] == if j == image.id then image else l.images[j]
  {
  }

  /** The two properties that name an image. */
  predicate NamesImage(key: Key) { key == IMAGE_ID || key == ROOM_BACKGROUND }

  /** Of an object's properties only those go that name the image, and they are marked. */
  lemma WithoutImageReads(o: LocalObject, image: Id)
    ensures var p := WithoutImage(o, image);
            && p.id == o.id && p.ty == o.ty
            && (forall k :: Get(p.props, k) == if NamesImage(k) && Get(o.props, k).AsId() == image then Empty else Get(o.props, k))
            && forall k :: k in p.changed <==> k in o.changed || (NamesImage(k) && Get(o.props, k).AsId() == image)
  {
  }

  /** A removed image is gone, from the objects as well, and those that had it are marked. */
  lemma ImageRemovedReads(l: Local, image: Id)
    ensures var m := ImageRemoved(l, image);
            && m == l.(images := l.images - {image}, imagesAdded := m.imagesAdded,
                       imagesRemoved := l.imagesRemoved + {image},
                       objects := m.objects, objectsChanged := m.objectsChanged)
            && (forall j :: j in m.imagesAdded <==> j in l.imagesAdded && j != image)
            && m.objects.Keys == l.objects.Keys
            && (forall j :: j in l.objects ==> m.objects[j] == WithoutImage(l.objects[j], image))
            && forall j :: j in m.objectsChanged <==>
                 j in l.objectsChanged
                 || (j in l.objects && exists k :: NamesImage(k) && Get(l.objects[j].props, k).AsId() == image)
  {
    hide WithoutImage;
    var m := ImageRemoved(l, image);
    forall j
      ensures j in m.objectsChanged <==>
                j in l.objectsChanged
                || (j in l.objects && exists k :: NamesImage(k) && Get(l.objects[j].props, k).AsId() == image)
    {
      assert NamesImage(IMAGE_ID) && NamesImage(ROOM_BACKGROUND);
    }
  }

  // ----- What leaves the client

  /** Changes that do not touch the client's own properties. */
  ghost predicate NoProperties(ms: seq<Change>) { forall m :: m in ms ==> !m.PropertyChange? }

  lemma {:induction false} KeysNoProperties(o: LocalObject, id: Id, keys: seq<Key>)
    ensures NoProperties(KeyChanges(o, id, keys))
  {
    if keys != [] { KeysNoProperties(o, id, keys[..|keys| - 1]); }
  }

  lemma {:induction false} ObjectsNoProperties(objects: map<Id, LocalObject>, ids: seq<Id>, keys: map<Id, seq<Key>>)
    ensures NoProperties(ObjectChanges(objects, ids, keys))
  {
    if ids != [] {
      var n := |ids| - 1;
      ObjectsNoProperties(objects, ids[..n], keys);
      if ids[n] in objects && ids[n] in keys { KeysNoProperties(objects[ids[n]], ids[n], keys[ids[n]]); }
    }
  }

  lemma {:induction false} RestNoProperties(l: Local, objects: seq<Id>, removed: seq<Id>)
    ensures NoProperties(ObjectCreations(l.objects, objects)) && NoProperties(ObjectRemovals(removed))
    ensures NoProperties(ImageCreations(l.images, objects)) && NoProperties(ImageRemovals(removed))
    decreases |objects| + |removed|
  {
    if objects != [] {
      RestNoProperties(l, objects[..|objects| - 1], removed);
    } else if removed != [] {
      RestNoProperties(l, objects, removed[..|removed| - 1]);
    }
  }

  lemma {:induction false} PropertiesSent(props: Properties, keys: seq<Key>)
    ensures forall m :: m in PropertyChanges(props, keys) ==> m.PropertyChange? && m.key in keys && m.value == Get(props, m.key)
  {
    if keys != [] { PropertiesSent(props, keys[..|keys| - 1]); }
  }

  /** A client shows its name and its room, and no other property, its secret least of all. */
  lemma OnlyNameAndRoomShown(l: Local, order: DrainOrder)
    requires WellMarked(l) && Covers(order, l)
    ensures forall k :: Get(Snapshot(l).props, k) == if k == PEER_NAME || k == ROOM then Get(l.props, k) else Empty
    ensures forall m :: m in Drained(l, order) && m.PropertyChange? ==>
              (m.key == PEER_NAME || m.key == ROOM) && m.value == Get(l.props, m.key)
    ensures PEER_SECRET !in Snapshot(l).props
  {
    PropertiesSent(l.props, order.props);
    assert forall k :: k in order.props ==> k in Elements(order.props);
    ObjectsNoProperties(l.objects, order.changed, order.keys);
    RestNoProperties(l, order.added, order.removed);
    RestNoProperties(l, order.imagesAdded, order.imagesRemoved);
  }

  /** In no session is anything else ever due to be sent. */
  lemma SecretNeverSent(s: Session, ops: seq<Op>, derive: string -> PublicKey, order: DrainOrder)
    requires Runs(s, ops, derive) && Covers(order, s.local)
    ensures PEER_SECRET !in Snapshot(s.local).props
    ensures forall m :: m in Drained(s.local, order) ==> !m.PropertyChange? || m.key == PEER_NAME || m.key == ROOM
  {
    hide Runs, Drained, Covers, Near, RemovalsGone;
    RunSound(s, ops, derive);
    OnlyNameAndRoomShown(s.local, order);
  }
}
