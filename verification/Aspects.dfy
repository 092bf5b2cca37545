/** The ways in which a client's view of a peer agrees with the server, and what each message does to them. */
module Aspects {
  import opened Options
  import opened Values
  import opened Protocol
  import opened Identifiers
  import opened Server
  import opened Effects

  /** Key and properties; exactly the global objects; at least the other objects, for two peers in one room. */
  datatype Aspect = Identity | Globals | Locals(room: StableId)

  ghost predicate Holds(a: Aspect, known: Option<Info>, p: Peer) {
    && known.Some?
    && match a
       case Identity => known.value.key == p.key && known.value.props == p.props
       case Globals => GlobalPart(known.value.objects) == GlobalPart(p.objects)
       case Locals(_) => forall id :: id in LocalPart(p.objects) ==>
                           id in known.value.objects && known.value.objects[id] == p.objects[id]
  }

  /** The pairs an aspect speaks about: authenticated peers, in the room if there is one. */
  predicate Concerned(a: Aspect, q: Peer, p: Peer) {
    && q.Authenticated() && p.Authenticated()
    && (a.Locals? ==> q.Room() == a.room && p.Room() == a.room)
  }

  lemma AnnouncedHolds(a: Aspect, p: Peer, order: seq<Id>)
    requires Keyed(p.objects) && Enumerates(order, p.objects.Keys) && !a.Locals?
    ensures Holds(a, Some(Announced(p, order)), p)
  {
    InsertListed(map[], p.objects, order, true);
    SelectionWhole(p.objects, order);
    assert GlobalPart(map[] + GlobalPart(p.objects)) == GlobalPart(p.objects);
  }

  lemma JoinedObjects(base: Objects, p: Peer, order: seq<Id>)
    requires Keyed(p.objects) && Enumerates(order, p.objects.Keys)
    ensures InsertAll(base, LocalsOf(p, order)) == base + LocalPart(p.objects)
  {
    InsertListed(base, p.objects, order, false);
    SelectionWhole(p.objects, order);
  }

  /** Being told of a peer's local objects keeps every aspect and establishes the local one. */
  lemma JoinHolds(a: Aspect, known: Option<Info>, p: Peer, order: seq<Id>)
    requires Keyed(p.objects) && Enumerates(order, p.objects.Keys)
    requires known.Some? && (a.Locals? || Holds(a, known, p))
    ensures Holds(a, React(known, PeerJoin(p.id, LocalsOf(p, order))), p)
  {
    var base := known.value.objects;
    JoinedObjects(base, p, order);
    if a.Globals? {
      GlobalsUnderLocals(base, p.objects);
    }
  }

  lemma GlobalsUnderLocals(base: Objects, objects: Objects)
    requires GlobalPart(base) == GlobalPart(objects)
    ensures GlobalPart(base + LocalPart(objects)) == GlobalPart(base)
  {
    var both := base + LocalPart(objects);
    forall id
      ensures id in GlobalPart(both) <==> id in GlobalPart(base)
      ensures id in GlobalPart(both) ==> both[id] == base[id]
    {
      assert id in LocalPart(objects) ==> id !in GlobalPart(objects);
    }
  }

  lemma LeaveHolds(a: Aspect, known: Option<Info>, p: Peer)
    requires Holds(a, known, p) && !a.Locals?
    ensures Holds(a, React(known, PeerLeave(p.id)), p)
  {
    var base := known.value.objects;
    assert GlobalPart(GlobalPart(base)) == GlobalPart(base);
  }

  lemma UpdatedHolds(a: Aspect, known: Option<Info>, p: Peer, key: Key, value: Value)
    requires Holds(a, known, p)
    ensures Holds(a, React(known, PeerUpdated(p.id, key, value)), p.(props := Inserted(p.props, key, value)))
  {
  }

  /** The case that hides a global object from those out of the room: its id comes back as a local one. */
  predicate Recreates(p: Peer, o: RemoteObject) {
    o.id in p.objects && IsGlobal(p.objects[o.id].ty) && !IsGlobal(o.ty)
  }

  lemma CreatedHolds(a: Aspect, known: Option<Info>, p: Peer, o: RemoteObject)
    requires Holds(a, known, p)
    ensures Holds(a, React(known, ObjectCreated(p.id, o)), p.(objects := p.objects[o.id := o]))
  {
    var objects, base := p.objects, known.value.objects;
    if a.Globals? {
      GlobalPartInsert(objects, o);
      GlobalPartInsert(base, o);
    }
  }

  lemma GlobalPartInsert(objects: Objects, o: RemoteObject)
    ensures GlobalPart(objects[o.id := o])
            == if IsGlobal(o.ty) then GlobalPart(objects)[o.id := o] else GlobalPart(objects) - {o.id}
  {
  }

  /** An unseen local object changes nothing, unless it replaces a global one. */
  lemma UnseenCreationHolds(a: Aspect, known: Option<Info>, p: Peer, o: RemoteObject)
    requires Holds(a, known, p) && !a.Locals? && !IsGlobal(o.ty)
    ensures a.Globals? ==> (Holds(a, known, p.(objects := p.objects[o.id := o])) <==> !Recreates(p, o))
    ensures a.Identity? ==> Holds(a, known, p.(objects := p.objects[o.id := o]))
  {
    var objects := p.objects;
    GlobalPartInsert(objects, o);
    if Recreates(p, o) {
      assert o.id in GlobalPart(objects);
      assert o.id !in GlobalPart(objects) - {o.id};
    } else {
      assert o.id !in GlobalPart(objects);
      assert GlobalPart(objects) - {o.id} == GlobalPart(objects);
    }
  }

  function Revised(objects: Objects, id: Id, key: Key, value: Value): Objects
    requires id in objects
  {
    objects[id := objects[id].(props := Inserted(objects[id].props, key, value))]
  }

  lemma ObjectUpdatedHolds(a: Aspect, known: Option<Info>, p: Peer, id: Id, key: Key, value: Value)
    requires Holds(a, known, p) && id in p.objects
    ensures Holds(a, React(known, ObjectUpdated(p.id, id, key, value)), p.(objects := Revised(p.objects, id, key, value)))
  {
    var objects, base := p.objects, known.value.objects;
    if a.Globals? {
      GlobalPartRevised(objects, id, key, value);
      assert id in GlobalPart(base) <==> id in GlobalPart(objects);
      if id in base { GlobalPartRevised(base, id, key, value); }
    }
  }

  lemma GlobalPartRevised(objects: Objects, id: Id, key: Key, value: Value)
    requires id in objects
    ensures GlobalPart(Revised(objects, id, key, value))
            == if IsGlobal(objects[id].ty) then Revised(GlobalPart(objects), id, key, value) else GlobalPart(objects)
  {
  }

  /** An update of a local object changes nothing for those who do not see it. */
  lemma UnseenUpdateHolds(a: Aspect, known: Option<Info>, p: Peer, id: Id, key: Key, value: Value)
    requires Holds(a, known, p) && !a.Locals? && id in p.objects && !IsGlobal(p.objects[id].ty)
    ensures Holds(a, known, p.(objects := Revised(p.objects, id, key, value)))
  {
    GlobalPartRevised(p.objects, id, key, value);
  }

  lemma RemovedHolds(a: Aspect, known: Option<Info>, p: Peer, id: Id)
    requires Holds(a, known, p) && id in p.objects
    ensures Holds(a, React(known, ObjectRemoved(p.id, id)), p.(objects := p.objects - {id}))
  {
    if a.Globals? {
      GlobalPartRemove(p.objects, id);
      GlobalPartRemove(known.value.objects, id);
    }
  }

  lemma GlobalPartRemove(objects: Objects, id: Id)
    ensures GlobalPart(objects - {id}) == GlobalPart(objects) - {id}
  {
  }

  lemma UnseenRemovalHolds(a: Aspect, known: Option<Info>, p: Peer, id: Id)
    requires Holds(a, known, p) && !a.Locals? && id in p.objects && !IsGlobal(p.objects[id].ty)
    ensures Holds(a, known, p.(objects := p.objects - {id}))
  {
    GlobalPartRemove(p.objects, id);
    assert id !in GlobalPart(p.objects);
    assert GlobalPart(p.objects) - {id} == GlobalPart(p.objects);
  }
}
