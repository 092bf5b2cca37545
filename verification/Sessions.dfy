/** Whole sessions of a client: editing, connecting, draining and losing the connection. */
module Sessions {
  import opened Options
  import opened Bytes
  import opened Values
  import opened Identifiers
  import opened LocalState
  import opened DirtySets
  import Sorting

  // ----- Operations keep what is marked

  lemma {:induction false} PutAllMarks(o: LocalObject, values: Assignments, id: Id)
    requires ObjectWellMarked(o, id)
    ensures var p := PutAll(o, values);
            && ObjectWellMarked(p, id) && p.ty == o.ty && p.changed >= o.changed
            && (values == [] ==> p == o)
            && forall key :: key !in p.changed ==> Get(p.props, key) == Get(o.props, key)
  {
    if values != [] { PutAllMarks(o, values[..|values| - 1], id); }
  }

  lemma UpdateMarks(l: Local, id: Id, values: Assignments)
    requires WellMarked(l)
    ensures WellMarked(ObjectUpdated(l, id, values))
    ensures RemovalsGone(l) ==> RemovalsGone(ObjectUpdated(l, id, values))
    ensures forall c :: Near(c, l) ==> Near(c, ObjectUpdated(l, id, values))
  {
    if id in l.objects {
      PutAllMarks(l.objects[id], values, id);
      assert ObjectUpdated(l, id, values).objects.Keys == l.objects.Keys;
    }
  }

  lemma PropertyMarks(l: Local, key: Key, value: Value, derive: string -> PublicKey)
    requires WellMarked(l)
    ensures WellMarked(PropertySet(l, key, value, derive))
    ensures RemovalsGone(l) ==> RemovalsGone(PropertySet(l, key, value, derive))
    ensures forall c :: Near(c, l) ==> Near(c, PropertySet(l, key, value, derive))
  {
  }

  lemma {:induction false} PropertiesMark(l: Local, values: Assignments, derive: string -> PublicKey)
    requires WellMarked(l)
    ensures WellMarked(PropertiesSet(l, values, derive))
    ensures RemovalsGone(l) ==> RemovalsGone(PropertiesSet(l, values, derive))
    ensures forall c :: Near(c, l) ==> Near(c, PropertiesSet(l, values, derive))
    decreases |values|
  {
    hide WellMarked, RemovalsGone, Near, PropertySet;
    if values != [] {
      var n := |values| - 1;
      PropertiesMark(l, values[..n], derive);
      PropertyMarks(PropertiesSet(l, values[..n], derive), values[n].0, values[n].1, derive);
    }
  }

  lemma RemoveObjectMarks(l: Local, id: Id)
    requires WellMarked(l)
    ensures WellMarked(ObjectRemoved(l, id))
    ensures RemovalsGone(l) ==> RemovalsGone(ObjectRemoved(l, id))
    ensures forall c :: Near(c, l) ==> Near(c, ObjectRemoved(l, id))
  {
  }

  lemma WithoutImageMarks(o: LocalObject, image: Id, id: Id)
    requires ObjectWellMarked(o, id)
    ensures var p := WithoutImage(o, image);
            && ObjectWellMarked(p, id) && p.ty == o.ty && p.changed >= o.changed
            && (!Uses(o, image) ==> p == o)
            && (image != 0 ==> !Uses(p, image))
            && forall key :: key !in p.changed ==> Get(p.props, key) == Get(o.props, key)
  {
  }

  lemma RemoveImageMarks(l: Local, image: Id)
    requires WellMarked(l)
    ensures WellMarked(ImageRemoved(l, image))
    ensures RemovalsGone(l) ==> RemovalsGone(ImageRemoved(l, image))
    ensures forall c :: Near(c, l) ==> Near(c, ImageRemoved(l, image))
  {
    hide WithoutImage;
    var m := ImageRemoved(l, image);
    assert m.objects.Keys == l.objects.Keys;
    forall id | id in l.objects
      ensures ObjectWellMarked(m.objects[id], id)
      ensures id !in m.objectsChanged ==> m.objects[id].changed == {}
      ensures forall r :: NearObject(r, l.objects[id], id) ==> NearObject(r, m.objects[id], id)
    {
      WithoutImageMarks(l.objects[id], image, id);
    }
  }

  /** Creation keeps the marks right exactly when the identifier is not waiting to be removed. */
  lemma CreateObjectMarks(l: Local, o: LocalObject)
    requires WellMarked(l) && RemovalsGone(l)
    requires o.changed == {}
    ensures WellMarked(ObjectAdded(l, o))
    ensures RemovalsGone(ObjectAdded(l, o)) <==> o.id !in l.objectsRemoved
    ensures forall c :: Near(c, l) ==> Near(c, ObjectAdded(l, o))
  {
    assert RemovalsGone(ObjectAdded(l, o)) ==> o.id in ObjectAdded(l, o).objects.Keys;
  }

  lemma InsertImageMarks(l: Local, image: Image)
    requires WellMarked(l) && RemovalsGone(l)
    ensures WellMarked(ImageAdded(l, image))
    ensures RemovalsGone(ImageAdded(l, image)) <==> image.id !in l.imagesRemoved
    ensures forall c :: Near(c, l) ==> Near(c, ImageAdded(l, image))
  {
    assert RemovalsGone(ImageAdded(l, image)) ==> image.id in ImageAdded(l, image).images.Keys;
  }

  // ----- The two creations that can fail to arrive

  /** After a creation one pass of the drain still arrives at the local state, unless the identifier waits to be removed. */
  lemma CreateObjectExact(c: Copy, l: Local, o: LocalObject, order: DrainOrder)
    requires WellMarked(l) && RemovalsGone(l) && Near(c, l)
    requires o.changed == {} && Covers(order, ObjectAdded(l, o))
    ensures Matches(Applied(c, Drained(ObjectAdded(l, o), order)), ObjectAdded(l, o)) <==> o.id !in l.objectsRemoved
  {
    hide WellMarked, RemovalsGone, Near, Matches, Applied, Drained, Covers;
    CreateObjectMarks(l, o);
    DrainExact(c, ObjectAdded(l, o), order);
  }

  lemma InsertImageExact(c: Copy, l: Local, image: Image, order: DrainOrder)
    requires WellMarked(l) && RemovalsGone(l) && Near(c, l)
    requires Covers(order, ImageAdded(l, image))
    ensures Matches(Applied(c, Drained(ImageAdded(l, image), order)), ImageAdded(l, image)) <==> image.id !in l.imagesRemoved
  {
    hide WellMarked, RemovalsGone, Near, Matches, Applied, Drained, Covers;
    InsertImageMarks(l, image);
    DrainExact(c, ImageAdded(l, image), order);
  }

  /** A new object that is not global is sorted strictly above every other. */
  lemma NewObjectLast(objects: map<Id, LocalObject>, last: Option<ByteString>, id: Id, ty: TypeId, props: Properties)
    requires IsLastSort(objects, last) && !IsGlobal(ty)
    ensures forall j :: j in objects ==> Less(objects[j].Sort(), NewObject(id, ty, props, last).Sort())
    ensures NewObject(id, ty, props, last).Sort() == NewSort(id, last) != []
  {
    hide Sorting.After;
    if last.Some? {
      Sorting.AfterAbove(last.value);
      forall j | j in objects
        ensures Less(objects[j].Sort(), NewSort(id, last))
      {
        if objects[j].Sort() != last.value { LessTransitive(objects[j].Sort(), last.value, NewSort(id, last)); }
      }
    }
  }

  // ----- Runs

  /** `drawn` are the identifiers that are used but not yet given to an object or image. */
  datatype Session = Session(local: Local, used: set<Id>, drawn: set<Id>, copy: Option<Copy>)

  datatype Op =
    | Draw(id: Id)
    | UpdateObject(id: Id, values: Assignments)
    | UpdateProperties(values: Assignments)
    | CreateObject(id: Id, ty: TypeId, props: Properties, last: Option<ByteString>)
    | RemoveObject(id: Id)
    | InsertImage(image: Image)
    | RemoveImage(id: Id)
    | Connect
    | Disconnect
    | Drain(order: DrainOrder)

  /** What the code sees to: fresh identifiers, each used for one thing, and drains while connected. */
  ghost predicate Enabled(s: Session, op: Op) {
    match op
    case Draw(id) => id != 0 && id !in s.used
    case CreateObject(id, _, _, last) => id in s.drawn && IsLastSort(s.local.objects, last)
    case InsertImage(image) => image.id in s.drawn
    case Drain(order) => s.copy.Some? && Covers(order, s.local)
    case _ => true
  }

  /** What it leaves to the caller: only to remove what has been created, or the zero identifier. */
  ghost predicate Careful(s: Session, op: Op) {
    (op.RemoveObject? || op.RemoveImage?) && op.id != 0 ==> op.id in s.used && op.id !in s.drawn
  }

  function Edited(l: Local, op: Op, derive: string -> PublicKey): Local {
    match op
    case UpdateObject(id, values) => ObjectUpdated(l, id, values)
    case UpdateProperties(values) => PropertiesSet(l, values, derive)
    case CreateObject(id, ty, props, last) => ObjectAdded(l, NewObject(id, ty, props, last))
    case RemoveObject(id) => ObjectRemoved(l, id)
    case InsertImage(image) => ImageAdded(l, image)
    case RemoveImage(id) => ImageRemoved(l, id)
    case Drain(_) => Cleared(l)
    case _ => l
  }

  function Performed(s: Session, op: Op, derive: string -> PublicKey): Session {
    Session(
      Edited(s.local, op, derive),
      if op.Draw? then s.used + {op.id} else s.used,
      match op
      case Draw(id) => s.drawn + {id}
      case CreateObject(id, _, _, _) => s.drawn - {id}
      case InsertImage(image) => s.drawn - {image.id}
      case _ => s.drawn,
      match op
      case Connect => Some(Snapshot(s.local))
      case Disconnect => None
      case Drain(order) => if s.copy.Some? then Some(Applied(s.copy.value, Drained(s.local, order))) else None
      case _ => s.copy)
  }

  /** As loaded from the database: nothing marked, every identifier used up. */
  ghost predicate Starts(s: Session) {
    && WellMarked(s.local)
    && s.local.objectsChanged == {} && s.local.objectsAdded == {} && s.local.objectsRemoved == {}
    && s.local.imagesAdded == {} && s.local.imagesRemoved == {} && s.local.propsChanged == {}
    && s.used == s.local.objects.Keys + s.local.images.Keys - {0} && s.drawn == {}
    && s.copy == None
  }

  ghost predicate Sound(s: Session) {
    && WellMarked(s.local) && RemovalsGone(s.local)
    && (s.copy.Some? ==> Near(s.copy.value, s.local))
    && Accounted(s)
  }

  /** Whatever is present or waits to be removed is not drawn any more. */
  ghost predicate Accounted(s: Session) {
    && s.drawn <= s.used && 0 !in s.used
    && Mentioned(s.local) <= s.used - s.drawn + {0}
  }

  ghost function Mentioned(l: Local): set<Id> {
    l.objects.Keys + l.objectsRemoved + l.images.Keys + l.imagesRemoved
  }

  lemma SnapshotMatches(l: Local)
    requires WellMarked(l)
    ensures Matches(Snapshot(l), l)
  {
  }

  /** A snapshot may be taken whatever is marked. */
  lemma SnapshotNear(l: Local)
    requires WellMarked(l)
    ensures Near(Snapshot(l), l)
  {
    SnapshotMatches(l);
  }

  lemma ClearedNear(c: Copy, l: Local)
    requires WellMarked(l) && RemovalsGone(l) && Matches(c, l)
    ensures WellMarked(Cleared(l)) && RemovalsGone(Cleared(l)) && Near(c, Cleared(l)) && Matches(c, Cleared(l))
  {
    assert Cleared(l).objects.Keys == l.objects.Keys;
  }

  lemma Edits(s: Session, op: Op, derive: string -> PublicKey)
    requires Sound(s) && Enabled(s, op) && !op.Drain?
    ensures WellMarked(Edited(s.local, op, derive)) && RemovalsGone(Edited(s.local, op, derive))
    ensures forall c :: Near(c, s.local) ==> Near(c, Edited(s.local, op, derive))
  {
    hide WellMarked, RemovalsGone, Near, ObjectUpdated, PropertiesSet, ObjectRemoved, ImageAdded, ImageRemoved, Inserted;
    var l := s.local;
    match op
    case UpdateObject(id, values) => UpdateMarks(l, id, values);
    case UpdateProperties(values) => PropertiesMark(l, values, derive);
    case CreateObject(id, ty, props, last) =>
      assert id in s.drawn;
      CreateObjectMarks(l, NewObject(id, ty, props, last));
    case RemoveObject(id) => RemoveObjectMarks(l, id);
    case InsertImage(image) =>
      assert image.id in s.drawn;
      InsertImageMarks(l, image);
    case RemoveImage(id) => RemoveImageMarks(l, id);
    case _ =>
  }

  lemma {:induction false} PropertiesMention(l: Local, values: Assignments, derive: string -> PublicKey)
    ensures Mentioned(PropertiesSet(l, values, derive)) == Mentioned(l)
    decreases |values|
  {
    if values != [] { PropertiesMention(l, values[..|values| - 1], derive); }
  }

  lemma StepAccounted(s: Session, op: Op, derive: string -> PublicKey)
    requires Accounted(s) && Enabled(s, op) && Careful(s, op)
    ensures Accounted(Performed(s, op, derive))
  {
    var l := s.local;
    match op
    case UpdateProperties(values) => PropertiesMention(l, values, derive);
    case RemoveImage(id) => assert ImageRemoved(l, id).objects.Keys == l.objects.Keys;
    case Drain(_) => assert Cleared(l).objects.Keys == l.objects.Keys;
    case _ =>
  }

  lemma StepSound(s: Session, op: Op, derive: string -> PublicKey)
    requires Sound(s) && Enabled(s, op) && Careful(s, op)
    ensures Sound(Performed(s, op, derive))
    ensures op.Drain? ==> Matches(Performed(s, op, derive).copy.value, Performed(s, op, derive).local)
  {
    hide WellMarked, RemovalsGone, Near, Accounted, Matches, Applied, Drained, Snapshot, Cleared, Covers;
    StepAccounted(s, op, derive);
    match op
    case Drain(order) =>
      DrainExact(s.copy.value, s.local, order);
      ClearedNear(Applied(s.copy.value, Drained(s.local, order)), s.local);
    case Connect => SnapshotNear(s.local);
    case _ => Edits(s, op, derive);
  }

  /** A run: every operation is one the code performs, and if asked, no removal names what it should not. */
  ghost predicate RunsTo(s: Session, ops: seq<Op>, derive: string -> PublicKey, careful: bool)
    decreases |ops|
  {
    if ops == [] then Starts(s)
    else
      var n := |ops| - 1;
      exists before: Session :: RunsTo(before, ops[..n], derive, careful) && Enabled(before, ops[n])
                                && (careful ==> Careful(before, ops[n])) && s == Performed(before, ops[n], derive)
  }

  ghost predicate Runs(s: Session, ops: seq<Op>, derive: string -> PublicKey) { RunsTo(s, ops, derive, true) }

  lemma {:induction false} RunSound(s: Session, ops: seq<Op>, derive: string -> PublicKey)
    requires Runs(s, ops, derive)
    ensures Sound(s)
    ensures ops != [] && ops[|ops| - 1].Drain? ==> s.copy.Some? && Matches(s.copy.value, s.local)
    decreases |ops|
  {
    hide WellMarked, Near, Matches, Performed;
    if ops == [] {
      StartSound(s);
    } else {
      var n := |ops| - 1;
      var before: Session :| RunsTo(before, ops[..n], derive, true) && Enabled(before, ops[n])
                             && Careful(before, ops[n]) && s == Performed(before, ops[n], derive);
      RunSound(before, ops[..n], derive);
      StepSound(before, ops[n], derive);
      if ops[n].Drain? { DrainConnected(before, ops[n], derive); }
    }
  }

  lemma DrainConnected(s: Session, op: Op, derive: string -> PublicKey)
    requires Enabled(s, op) && op.Drain?
    ensures Performed(s, op, derive).copy.Some?
  {
  }

  lemma StartSound(s: Session)
    requires Starts(s)
    ensures Sound(s)
  {
  }

  /**
   * While connected, draining whatever is marked, in any order, onto the server's copy
   * gives exactly the local objects, images and remote properties.
   */
  lemma AlwaysDrains(s: Session, ops: seq<Op>, derive: string -> PublicKey, order: DrainOrder)
    requires Runs(s, ops, derive) && s.copy.Some? && Covers(order, s.local)
    ensures Matches(Applied(s.copy.value, Drained(s.local, order)), s.local)
  {
    hide Matches, Applied, Drained, Runs, Covers;
    RunSound(s, ops, derive);
    DrainExact(s.copy.value, s.local, order);
  }

  // ----- A removal that names too much

  lemma RunStep(s: Session, ops: seq<Op>, op: Op, derive: string -> PublicKey)
    requires RunsTo(s, ops, derive, false) && Enabled(s, op)
    ensures RunsTo(Performed(s, op, derive), ops + [op], derive, false)
  {
    hide Performed, Enabled;
    assert (ops + [op])[..|ops|] == ops;
  }

  const EMPTY := Local(1, map[], {}, {}, {}, map[], {}, {}, map[], {})

  /** A connected session in which an identifier that nothing has yet is removed, and is then drawn. */
  lemma RemovedTooEarly(id: Id, removal: Op, derive: string -> PublicKey) returns (s: Session, ops: seq<Op>)
    requires id != 0 && (removal == RemoveObject(id) || removal == RemoveImage(id))
    ensures RunsTo(s, ops, derive, false)
    ensures s.local == (if removal.RemoveObject? then EMPTY.(objectsRemoved := {id}) else EMPTY.(imagesRemoved := {id}))
    ensures s.drawn == {id} && s.copy == Some(Copy(map[], map[], map[]))
  {
    var s0 := Session(EMPTY, {}, {}, None);
    assert RunsTo(s0, [], derive, false);
    hide RunsTo, Edited, Snapshot;
    NothingEdited(id, removal, derive);
    RunStep(s0, [], Connect, derive);
    var s1 := Performed(s0, Connect, derive);
    RunStep(s1, [] + [Connect], removal, derive);
    var s2 := Performed(s1, removal, derive);
    RunStep(s2, [] + [Connect] + [removal], Draw(id), derive);
    s := Performed(s2, Draw(id), derive);
    ops := [] + [Connect] + [removal] + [Draw(id)];
  }

  lemma NothingEdited(id: Id, removal: Op, derive: string -> PublicKey)
    requires id != 0 && (removal == RemoveObject(id) || removal == RemoveImage(id))
    ensures Edited(EMPTY, removal, derive)
            == if removal.RemoveObject? then EMPTY.(objectsRemoved := {id}) else EMPTY.(imagesRemoved := {id})
    ensures Edited(EMPTY, Connect, derive) == EMPTY && Snapshot(EMPTY) == Copy(map[], map[], map[])
    ensures forall l: Local :: Edited(l, Draw(id), derive) == l
  {
  }

  /** An object that is created next never reaches the server. */
  lemma LostObjectReached(id: Id, derive: string -> PublicKey) returns (s: Session, ops: seq<Op>, order: DrainOrder)
    requires id != 0
    ensures RunsTo(s, ops, derive, false) && s.copy.Some?
    ensures Covers(order, s.local) && !Matches(Applied(s.copy.value, Drained(s.local, order)), s.local)
  {
    hide Applied, Drained, RunsTo, Matches;
    var s0, ops0 := RemovedTooEarly(id, RemoveObject(id), derive);
    var op := CreateObject(id, 0, map[], None);
    assert s0.local.objects == map[];
    RunStep(s0, ops0, op, derive);
    s, ops := Performed(s0, op, derive), ops0 + [op];
    order := DrainOrder([], [], map[], [id], [id], [], []);
    CreateObjectExact(s0.copy.value, s0.local, NewObject(id, 0, map[], None), order);
  }

  /** Nor does an image. */
  lemma LostImageReached(id: Id, derive: string -> PublicKey) returns (s: Session, ops: seq<Op>, order: DrainOrder)
    requires id != 0
    ensures RunsTo(s, ops, derive, false) && s.copy.Some?
    ensures Covers(order, s.local) && !Matches(Applied(s.copy.value, Drained(s.local, order)), s.local)
  {
    hide Applied, Drained, RunsTo, Matches;
    var s0, ops0 := RemovedTooEarly(id, RemoveImage(id), derive);
    var image := Image(id, 0, 0, 1, 1, []);
    RunStep(s0, ops0, InsertImage(image), derive);
    s, ops := Performed(s0, InsertImage(image), derive), ops0 + [InsertImage(image)];
    order := DrainOrder([], [], map[], [], [], [id], [id]);
    InsertImageExact(s0.copy.value, s0.local, image, order);
  }
}
