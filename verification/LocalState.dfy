/** A client's own objects, images and properties, and what of them has yet to be sent. */
module LocalState {
  import opened Options
  import opened Bytes
  import opened Words
  import opened Values
  import opened Identifiers
  import Sorting

  datatype LocalObject = LocalObject(ty: TypeId, id: Id, props: Properties, changed: set<Key>) {
    function Remote(): RemoteObject { RemoteObject(ty, id, props) }

    function Sort(): ByteString { Get(props, SORT).AsBytes() }

    function Put(key: Key, value: Value): LocalObject {
      this.(props := Inserted(props, key, value), changed := changed + {key})
    }
  }

  datatype Image = Image(id: Id, contentType: nat, role: nat, width: U32, height: U32, bytes: ByteString)

  datatype Local = Local(
    key: PublicKey,
    objects: map<Id, LocalObject>, objectsChanged: set<Id>, objectsAdded: set<Id>, objectsRemoved: set<Id>,
    images: map<Id, Image>, imagesAdded: set<Id>, imagesRemoved: set<Id>,
    props: Properties, propsChanged: set<Key>)

  // ----- Operations

  type Assignments = seq<(Key, Value)>

  function PutAll(o: LocalObject, values: Assignments): LocalObject {
    if values == [] then o
    else PutAll(o, values[..|values| - 1]).Put(values[|values| - 1].0, values[|values| - 1].1)
  }

  function ObjectUpdated(l: Local, id: Id, values: Assignments): Local {
    if id !in l.objects then l
    else l.(objects := l.objects[id := PutAll(l.objects[id], values)],
            objectsChanged := l.objectsChanged + if values == [] then {} else {id})
  }

  const PEER_SECRET: Key := 29

  /** One of the client's own properties; an empty secret is passed over, any other brings a new key. */
  function PropertySet(l: Local, key: Key, value: Value, derive: string -> PublicKey): Local {
    if key == PEER_SECRET && value.AsString() == "" then l
    else l.(key := if key == PEER_SECRET then derive(value.AsString()) else l.key,
            props := Inserted(l.props, key, value),
            propsChanged := l.propsChanged + if IsRemote(key) then {key} else {})
  }

  function PropertiesSet(l: Local, values: Assignments, derive: string -> PublicKey): Local {
    if values == [] then l
    else PropertySet(PropertiesSet(l, values[..|values| - 1], derive), values[|values| - 1].0, values[|values| - 1].1, derive)
  }

  /** `last` is the greatest sort key of all objects, if there are any. */
  ghost predicate IsLastSort(objects: map<Id, LocalObject>, last: Option<ByteString>) {
    match last
    case None => objects == map[]
    case Some(s) =>
      && (exists id :: id in objects && objects[id].Sort() == s)
      && forall id :: id in objects ==> LessEq(objects[id].Sort(), s)
  }

  function NewSort(id: Id, last: Option<ByteString>): ByteString {
    if last.Some? then Sorting.After(last.value) else IdBytes(id)
  }

  function NewObject(id: Id, ty: TypeId, props: Properties, last: Option<ByteString>): LocalObject {
    var sorted := if IsGlobal(ty) then props else Inserted(props, SORT, BytesValue(NewSort(id, last)));
    LocalObject(ty, id, sorted, {})
  }

  function ObjectAdded(l: Local, o: LocalObject): Local {
    l.(objects := l.objects[o.id := o], objectsAdded := l.objectsAdded + {o.id})
  }

  function ObjectRemoved(l: Local, id: Id): Local {
    var left := Get(l.props, ROOM).AsStableId() == StableId(l.key, id);
    l.(props := if left then l.props - {ROOM} else l.props,
       propsChanged := if left then l.propsChanged + {ROOM} else l.propsChanged,
       objects := l.objects - {id},
       objectsChanged := l.objectsChanged - {id},
       objectsAdded := l.objectsAdded - {id},
       objectsRemoved := l.objectsRemoved + {id})
  }

  function ImageAdded(l: Local, image: Image): Local {
    l.(images := l.images[image.id := image], imagesAdded := l.imagesAdded + {image.id})
  }

  predicate Refers(o: LocalObject, key: Key, image: Id) { Get(o.props, key).AsId() == image }

  function Unreferred(o: LocalObject, key: Key, image: Id): LocalObject {
    if Refers(o, key, image) then o.(props := o.props - {key}, changed := o.changed + {key}) else o
  }

  predicate Uses(o: LocalObject, image: Id) { Refers(o, IMAGE_ID, image) || Refers(o, ROOM_BACKGROUND, image) }

  function WithoutImage(o: LocalObject, image: Id): LocalObject {
    Unreferred(Unreferred(o, IMAGE_ID, image), ROOM_BACKGROUND, image)
  }

  /** The objects that used the image no longer do, and say so. */
  function ImageRemoved(l: Local, image: Id): Local {
    l.(images := l.images - {image},
       imagesAdded := l.imagesAdded - {image},
       imagesRemoved := l.imagesRemoved + {image},
       objects := map id | id in l.objects :: WithoutImage(l.objects[id], image),
       objectsChanged := l.objectsChanged + set id | id in l.objects && Uses(l.objects[id], image))
  }

  // ----- What is sent

  datatype Change =
    | PropertyChange(key: Key, value: Value)
    | ObjectChange(id: Id, key: Key, value: Value)
    | ObjectCreation(obj: RemoteObject)
    | ObjectRemoval(id: Id)
    | ImageCreation(image: Image)
    | ImageRemoval(id: Id)

  /** The orders in which the sets are drained. */
  datatype DrainOrder = DrainOrder(
    props: seq<Key>, changed: seq<Id>, keys: map<Id, seq<Key>>, added: seq<Id>, removed: seq<Id>,
    imagesAdded: seq<Id>, imagesRemoved: seq<Id>)

  ghost predicate Covers(order: DrainOrder, l: Local) {
    && Elements(order.props) == l.propsChanged
    && Elements(order.changed) == l.objectsChanged
    && (forall id :: id in l.objects && id in l.objectsChanged ==>
          id in order.keys && Elements(order.keys[id]) == l.objects[id].changed)
    && Elements(order.added) == l.objectsAdded
    && Elements(order.removed) == l.objectsRemoved
    && Elements(order.imagesAdded) == l.imagesAdded
    && Elements(order.imagesRemoved) == l.imagesRemoved
  }

  function PropertyChanges(props: Properties, keys: seq<Key>): seq<Change> {
    if keys == [] then []
    else
      var n := |keys| - 1;
      PropertyChanges(props, keys[..n]) + [PropertyChange(keys[n], Get(props, keys[n]))]
  }

  function KeyChanges(o: LocalObject, id: Id, keys: seq<Key>): seq<Change> {
    if keys == [] then []
    else
      var n := |keys| - 1;
      KeyChanges(o, id, keys[..n]) + [ObjectChange(id, keys[n], Get(o.props, keys[n]))]
  }

  function ObjectChanges(objects: map<Id, LocalObject>, ids: seq<Id>, keys: map<Id, seq<Key>>): seq<Change> {
    if ids == [] then []
    else
      var n := |ids| - 1;
      var rest := ObjectChanges(objects, ids[..n], keys);
      if ids[n] in objects && ids[n] in keys then rest + KeyChanges(objects[ids[n]], ids[n], keys[ids[n]]) else rest
  }

  function ObjectCreations(objects: map<Id, LocalObject>, ids: seq<Id>): seq<Change> {
    if ids == [] then []
    else
      var n := |ids| - 1;
      var rest := ObjectCreations(objects, ids[..n]);
      if ids[n] in objects
      then rest + [ObjectCreation(RemoteObject(objects[ids[n]].ty, ids[n], objects[ids[n]].props))]
      else rest
  }

  function ObjectRemovals(ids: seq<Id>): seq<Change> {
    if ids == [] then [] else ObjectRemovals(ids[..|ids| - 1]) + [ObjectRemoval(ids[|ids| - 1])]
  }

  function ImageCreations(images: map<Id, Image>, ids: seq<Id>): seq<Change> {
    if ids == [] then []
    else
      var n := |ids| - 1;
      var rest := ImageCreations(images, ids[..n]);
      if ids[n] in images then rest + [ImageCreation(images[ids[n]])] else rest
  }

  function ImageRemovals(ids: seq<Id>): seq<Change> {
    if ids == [] then [] else ImageRemovals(ids[..|ids| - 1]) + [ImageRemoval(ids[|ids| - 1])]
  }

  function Drained(l: Local, order: DrainOrder): seq<Change> {
    PropertyChanges(l.props, order.props)
    + ObjectChanges(l.objects, order.changed, order.keys)
    + ObjectCreations(l.objects, order.added)
    + ObjectRemovals(order.removed)
    + ImageCreations(l.images, order.imagesAdded)
    + ImageRemovals(order.imagesRemoved)
  }

  function Settled(o: LocalObject): LocalObject { o.(changed := {}) }

  /** Nothing is left to be sent. */
  function Cleared(l: Local): Local {
    l.(objects := map id | id in l.objects ::
                    if id in l.objectsChanged then Settled(l.objects[id]) else l.objects[id],
       objectsChanged := {}, objectsAdded := {}, objectsRemoved := {},
       imagesAdded := {}, imagesRemoved := {}, propsChanged := {})
  }

  // ----- The server's copy

  datatype Copy = Copy(props: Properties, objects: Objects, images: map<Id, Image>)

  /** What the server does with a change. */
  function Applied1(c: Copy, m: Change): Copy {
    match m
    case PropertyChange(key, value) => c.(props := Inserted(c.props, key, value))
    case ObjectChange(id, key, value) =>
      if id !in c.objects then c
      else c.(objects := c.objects[id := c.objects[id].(props := Inserted(c.objects[id].props, key, value))])
    case ObjectCreation(obj) => c.(objects := c.objects[obj.id := obj])
    case ObjectRemoval(id) => c.(objects := c.objects - {id})
    case ImageCreation(image) => c.(images := c.images[image.id := image])
    case ImageRemoval(id) => c.(images := c.images - {id})
  }

  function Applied(c: Copy, ms: seq<Change>): Copy {
    if ms == [] then c else Applied1(Applied(c, ms[..|ms| - 1]), ms[|ms| - 1])
  }

  /** What connecting hands over, whatever is still marked as unsent. */
  function Snapshot(l: Local): Copy {
    Copy(
      map key | key in l.props && IsRemote(key) && !l.props[key].IsEmpty() :: l.props[key],
      map id | id in l.objects :: l.objects[id].Remote(),
      l.images)
  }

  /** What others may see of the client's own property. */
  function Shown(l: Local, key: Key): Value {
    if IsRemote(key) then Get(l.props, key) else Empty
  }

  /** An object of the copy is the local one. */
  ghost predicate SameObject(r: RemoteObject, o: LocalObject, id: Id) {
    r.ty == o.ty && r.id == id && SameProperties(r.props, o.props)
  }

  /** The server has exactly the local objects, images and remote properties. */
  ghost predicate Matches(c: Copy, l: Local) {
    && (forall key :: Get(c.props, key) == Shown(l, key))
    && c.objects.Keys == l.objects.Keys
    && (forall id :: id in l.objects ==> SameObject(c.objects[id], l.objects[id], id))
    && c.images == l.images
  }
}
