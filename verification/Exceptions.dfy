/** Where the replica properties fail, exactly. */
module Exceptions {
  import opened Options
  import opened Values
  import opened Protocol
  import opened Identifiers
  import opened Server
  import opened Effects
  import opened Aspects
  import opened Rooms
  import opened Replica
  import opened Runs
  import opened Membership
  import opened Strays
  import opened Sharing

  /**
   * A global object that comes back as a local one leaves everybody right about
   * the global objects exactly when every other authenticated peer is listed in the
   * owner's room.
   */
  lemma RecreationExact(s: State, me: Peer, o: RemoteObject, order: Orders)
    requires RoomsKept(s) && Fits(s, me) && Enumerates(order.peers, s.peers.Keys)
    requires me.Authenticated() && MeAgrees(Globals, s, me) && Recreates(me, o)
    ensures var h := ObjectCreating(s, me, o, order);
            MeAgrees(Globals, h.s, h.me) <==> AllInRoom(s, me)
  {
    hide Look, React, SendUpdate, Holds;
    var me1 := me.(objects := me.objects[o.id := o]);
    SendUpdateSeen(s, me1, o.ty, ObjectCreated(me.id, o));
    var h := ObjectCreating(s, me, o, order);
    forall q | q in s.peers && s.peers[q].Authenticated()
      ensures Holds(Globals, Look(h.s.peers[q].out, me.id), me1) <==> Reaches(s, me, o.ty, q)
      ensures Holds(Globals, Look(me1.out, q), s.peers[q])
      ensures h.s.peers[q] == s.peers[q].(out := h.s.peers[q].out)
    {
      assert PairAgrees(Globals, s.peers[q], me) && PairAgrees(Globals, me, s.peers[q]);
      CreatedHolds(Globals, Seen(s, q, me.id), me, o);
      UnseenCreationHolds(Globals, Seen(s, q, me.id), me, o);
    }
    if AllInRoom(s, me) {
      MeAgreesBy(Globals, s, h.s, me, h.me);
    } else {
      var q :| q in s.peers && s.peers[q].Authenticated() && !(me.Room() in s.rooms && q in s.rooms[me.Room()]);
      assert !PairAgrees(Globals, h.s.peers[q], h.me);
    }
  }

  // ----- Opening a room

  /** Nobody who has chosen a room that is not there knows local objects of another who has. */
  lemma ApartKnowNothing(known: Option<Info>, p: Peer, a: Aspect)
    requires a.Locals? && Tidy(known, p, false) && Holds(a, known, p)
    ensures LocalPart(p.objects) == map[]
  {
    assert LocalPart(p.objects).Keys <= LocalPart(known.value.objects).Keys;
  }

  /** What is known of a peer's local objects after it has created a room is what was known before. */
  lemma RoomTidy(known: Option<Info>, p: Peer, o: RemoteObject)
    requires Tidy(known, p, false) && IsGlobal(o.ty)
    ensures Tidy(React(known, ObjectCreated(p.id, o)), p.(objects := p.objects[o.id := o]), false)
  {
  }

  /** The others, of whom nothing new is heard. */
  lemma OpenedOthers(s: State, t: State, me: PeerId, room: StableId)
    requires OthersTidy(s) && OnlyAbout(s, t, me) && OwnIds(s.peers) && me !in s.peers
    requires room !in s.rooms && OthersAgree(Locals(room), t) && room in t.rooms
    ensures NothingToShare(room, s.peers)
  {
    hide Look, Holds, Tidy;
    forall p, q | p in s.peers && q in s.peers && p != q && Concerned(Locals(room), s.peers[p], s.peers[q])
      ensures LocalPart(s.peers[p].objects) == map[]
    {
      assert PairTidy(s, s.peers[q], s.peers[p]);
      assert t.peers[p] == s.peers[p].(out := t.peers[p].out);
      assert t.peers[q] == s.peers[q].(out := t.peers[q].out);
      assert PairAgrees(Locals(room), t.peers[q], t.peers[p]);
      HoldsObjects(Locals(room), Look(s.peers[q].out, p), t.peers[p], s.peers[p]);
      ApartKnowNothing(Look(s.peers[q].out, p), s.peers[p], Locals(room));
    }
  }

  lemma HoldsObjects(a: Aspect, known: Option<Info>, p: Peer, p': Peer)
    requires a.Locals? && p'.objects == p.objects && Holds(a, known, p)
    ensures Holds(a, known, p')
  {
  }

  /** The peer that creates the room, which it may have chosen too. */
  lemma OpenedBy(s: State, me: Peer, o: RemoteObject, order: Orders, room: StableId)
    requires RoomsKept(s) && Fits(s, me) && Enumerates(order.peers, s.peers.Keys) && MeTidy(s, me)
    requires room !in s.rooms && room in ObjectCreating(s, me, o, order).s.rooms
    requires var h := ObjectCreating(s, me, o, order); MeAgrees(Locals(room), h.s, h.me)
    ensures var me1 := me.(objects := me.objects[o.id := o]);
            forall q :: q in s.peers && Concerned(Locals(room), s.peers[q], me1) ==>
              LocalPart(me1.objects) == map[] && LocalPart(s.peers[q].objects) == map[]
  {
    hide Look, React, Holds, Tidy, SendUpdate;
    var a := Locals(room);
    var me1 := me.(objects := me.objects[o.id := o]);
    var s1 := if o.ty == ROOM_TYPE then CreateRoom(s, me1, o.id, order.peers) else s;
    if o.ty == ROOM_TYPE { CreateRoomLists(s, me1, o.id, order.peers); }
    SendUpdateSeen(s1, me1, o.ty, ObjectCreated(me.id, o));
    var h := ObjectCreating(s, me, o, order);
    assert h.s.rooms == s1.rooms && o.ty == ROOM_TYPE;
    forall q | q in s.peers && Concerned(a, s.peers[q], me1)
      ensures LocalPart(me1.objects) == map[] && LocalPart(s.peers[q].objects) == map[]
    {
      assert PairTidy(s, s.peers[q], me) && PairTidy(s, me, s.peers[q]);
      assert h.s.peers[q] == s.peers[q].(out := h.s.peers[q].out);
      assert PairAgrees(a, h.s.peers[q], me1) && PairAgrees(a, me1, h.s.peers[q]);
      RoomTidy(Seen(s, q, me.id), me, o);
      ApartKnowNothing(Seen(h.s, q, me.id), me1, a);
      HoldsObjects(a, Look(me.out, q), h.s.peers[q], s.peers[q]);
      ApartKnowNothing(Look(me.out, q), s.peers[q], a);
    }
  }

  /**
   * An event that opens a room tells nobody about anyone's local objects: those who have chosen it
   * share them afterwards exactly when no two of them had any. Of a peer that opens a room by
   * connecting only the others matter, as it then joins.
   */
  lemma RoomOpensExact(room: StableId, s: State, me: Peer, e: Event, order: Orders)
    requires SoundWith(s, me) && OrdersFit(s, me, e, order)
    requires OthersTidy(s) && MeTidy(s, me) && Opens(room, s, me, e, order)
    ensures var h := Handle(s, me, e, order).value;
            OthersAgree(Locals(room), h.s) && MeAgrees(Locals(room), h.s, h.me)
            <==> NothingToShare(room, Choosers(s, me, e))
  {
    hide Look, Handle, Updating, Connecting, ObjectCreating, NoStrangers, KeysDistinct, OrdersFit;
    hide OthersTidy, MeTidy, NothingToShare;
    hide Enrolled, RoomsKept, OnlyAbout, OthersAgree, MeAgrees;
    SoundAgrees(s, me);
    OpensBy(room, s, me, e, order);
    HandleKeepsRooms(s, me, e, order);
    var h := Handle(s, me, e, order).value;
    if NothingToShare(room, Choosers(s, me, e)) {
      NotYetActive(room, s, me);
      HandleAgrees(Locals(room), s, me, e, order);
    }
    if OthersAgree(Locals(room), h.s) && MeAgrees(Locals(room), h.s, h.me) {
      OpenedOthers(s, h.s, me.id, room);
      if e.ObjectCreate? {
        CreatingIs(s, me, e, order);
        OpenedBy(s, me, e.obj, order, room);
        WithChooser(room, s.peers, me.(objects := me.objects[e.obj.id := e.obj]));
      }
    }
  }

  lemma NotYetActive(room: StableId, s: State, me: Peer)
    requires room !in s.rooms
    ensures OthersAgree(Locals(room), s) && MeAgrees(Locals(room), s, me)
  {
  }

  lemma CreatingIs(s: State, me: Peer, e: Event, order: Orders)
    requires e.ObjectCreate? && Handle(s, me, e, order).Some?
    ensures Handle(s, me, e, order).value == ObjectCreating(s, me, e.obj, order)
    ensures OrdersFit(s, me, e, order) ==> Enumerates(order.peers, s.peers.Keys)
  {
  }

  lemma WithChooser(room: StableId, peers: map<PeerId, Peer>, me: Peer)
    requires NothingToShare(room, peers) && me.id !in peers
    requires forall q :: q in peers && Concerned(Locals(room), peers[q], me) ==>
               LocalPart(me.objects) == map[] && LocalPart(peers[q].objects) == map[]
    ensures NothingToShare(room, peers[me.id := me])
  {
    var all := peers[me.id := me];
    forall p, q | p in all && q in all && p != q && Concerned(Locals(room), all[p], all[q])
      ensures LocalPart(all[p].objects) == map[]
    {
      if p == me.id {
        assert Concerned(Locals(room), peers[q], me);
      } else if q == me.id {
        assert Concerned(Locals(room), peers[p], me);
      }
    }
  }

  // ----- Closing a room

  /** The other peers that shared a room still know of each other what they shared. */
  lemma ClosedOthers(s: State, t: State, me: PeerId, room: StableId)
    requires OthersTidy(t) && OnlyAbout(s, t, me) && OwnIds(s.peers) && me !in s.peers
    requires room in s.rooms && room !in t.rooms && OthersAgree(Locals(room), s)
    ensures NothingToShare(room, s.peers)
  {
    hide Look, Holds, Tidy;
    forall p, q | p in s.peers && q in s.peers && p != q && Concerned(Locals(room), s.peers[p], s.peers[q])
      ensures LocalPart(s.peers[p].objects) == map[]
    {
      assert PairAgrees(Locals(room), s.peers[q], s.peers[p]);
      assert t.peers[p] == s.peers[p].(out := t.peers[p].out);
      assert t.peers[q] == s.peers[q].(out := t.peers[q].out);
      assert PairTidy(t, t.peers[q], t.peers[p]);
      SameTidy(Look(s.peers[q].out, p), t.peers[p], s.peers[p], false);
      ApartKnowNothing(Look(s.peers[q].out, p), s.peers[p], Locals(room));
    }
  }

  lemma ClosedBy(s: State, me: Peer, id: Id, room: StableId)
    requires RoomsKept(s) && Fits(s, me) && MeAgrees(Locals(room), s, me)
    requires room in s.rooms && room !in ObjectRemoving(s, me, id).s.rooms
    requires var h := ObjectRemoving(s, me, id); MeTidy(h.s, h.me)
    ensures forall q :: q in s.peers && Concerned(Locals(room), s.peers[q], me) ==>
              LocalPart(me.objects) == map[] && LocalPart(s.peers[q].objects) == map[]
  {
    hide Look, React, Holds, Tidy, SendUpdate;
    var a := Locals(room);
    if id in me.objects {
      var h := ObjectRemoving(s, me, id);
      var ty := me.objects[id].ty;
      var s1 := if ty == ROOM_TYPE then s.(rooms := s.rooms - {StableId(me.key, id)}) else s;
      SendUpdateSeen(s1, h.me, ty, ObjectRemoved(me.id, id));
      SendRooms(s1, h.me, ty, ObjectRemoved(me.id, id));
      assert ty == ROOM_TYPE;
      forall q | q in s.peers && Concerned(a, s.peers[q], me)
        ensures LocalPart(me.objects) == map[] && LocalPart(s.peers[q].objects) == map[]
      {
        assert PairAgrees(a, s.peers[q], me) && PairAgrees(a, me, s.peers[q]);
        assert h.s.peers[q] == s.peers[q].(out := h.s.peers[q].out);
        assert PairTidy(h.s, h.s.peers[q], h.me) && PairTidy(h.s, h.me, h.s.peers[q]);
        RemovedRoomHolds(a, Seen(s, q, me.id), me, id);
        ApartKnowNothing(Seen(h.s, q, me.id), h.me, a);
        assert LocalPart(h.me.objects) == LocalPart(me.objects) by { SameLocals(me.objects, id); }
        SameTidy(Look(me.out, q), h.s.peers[q], s.peers[q], false);
        ApartKnowNothing(Look(me.out, q), s.peers[q], a);
      }
    }
  }

  lemma RemovedRoomHolds(a: Aspect, known: Option<Info>, p: Peer, id: Id)
    requires a.Locals? && Holds(a, known, p)
    ensures Holds(a, React(known, ObjectRemoved(p.id, id)), p.(objects := p.objects - {id}))
  {
  }

  lemma SameLocals(objects: Objects, id: Id)
    requires id in objects && IsGlobal(objects[id].ty)
    ensures LocalPart(objects - {id}) == LocalPart(objects)
  {
  }

  /**
   * Removing a room sends nobody away: its peers keep what they know of each other, which is stale
   * from then on unless no two of them had anything to show.
   */
  lemma RoomClosesExact(room: StableId, s: State, me: Peer, id: Id, order: Orders)
    requires SoundWith(s, me) && OrdersFit(s, me, ObjectRemove(id), order) && Anonymous(s) && Exact(s)
    requires OthersTidy(s) && MeTidy(s, me) && OthersAgree(Locals(room), s) && MeAgrees(Locals(room), s, me)
    requires Closes(room, s, me, ObjectRemove(id), order)
    ensures var h := Handle(s, me, ObjectRemove(id), order).value;
            OthersTidy(h.s) && MeTidy(h.s, h.me) <==> NothingToShare(room, s.peers[me.id := me])
  {
    hide Look, Handle, ObjectRemoving, NoStrangers, KeysDistinct, OrdersFit;
    hide OthersTidy, MeTidy, NothingToShare, Anonymous, Exact;
    hide Enrolled, RoomsKept, OnlyAbout, OthersAgree, MeAgrees;
    var e := ObjectRemove(id);
    HandleKeepsRooms(s, me, e, order);
    RemovingIs(s, me, id, order);
    var h := Handle(s, me, e, order).value;
    if NothingToShare(room, s.peers[me.id := me]) {
      forall other | Closes(other, s, me, e, order)
        ensures NothingToShare(other, s.peers[me.id := me])
      {
        OneCloses(s, me, id, room, other);
      }
      HandleTidy(s, me, e, order);
    }
    if OthersTidy(h.s) && MeTidy(h.s, h.me) {
      ClosedOthers(s, h.s, me.id, room);
      ClosedBy(s, me, id, room);
      WithChooser(room, s.peers, me);
    }
  }

  lemma RemovingIs(s: State, me: Peer, id: Id, order: Orders)
    requires Handle(s, me, ObjectRemove(id), order).Some?
    ensures Handle(s, me, ObjectRemove(id), order).value == ObjectRemoving(s, me, id)
  {
  }

  lemma OneCloses(s: State, me: Peer, id: Id, room: StableId, other: StableId)
    requires room in s.rooms && room !in ObjectRemoving(s, me, id).s.rooms
    requires other in s.rooms && other !in ObjectRemoving(s, me, id).s.rooms
    ensures room == other
  {
    hide SendUpdate;
    if id in me.objects {
      var h := ObjectRemoving(s, me, id);
      var ty := me.objects[id].ty;
      var s1 := if ty == ROOM_TYPE then s.(rooms := s.rooms - {StableId(me.key, id)}) else s;
      SendRooms(s1, h.me, ty, ObjectRemoved(me.id, id));
    }
  }
}
