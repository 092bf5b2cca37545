/** Every client's folded view agrees with the server, event by event. */
module Replica {
  import opened Options
  import opened Values
  import opened Protocol
  import opened Identifiers
  import opened Server
  import opened Effects
  import opened Aspects
  import opened Rooms

  /** What is said about a room only counts while the room exists. */
  predicate Active(a: Aspect, s: State) { a.Locals? ==> a.room in s.rooms }

  ghost predicate PairAgrees(a: Aspect, q: Peer, p: Peer) {
    Concerned(a, q, p) ==> Holds(a, Look(q.out, p.id), p)
  }

  ghost predicate OthersAgree(a: Aspect, s: State) {
    Active(a, s) ==> forall q, p :: q in s.peers && p in s.peers && q != p ==> PairAgrees(a, s.peers[q], s.peers[p])
  }

  ghost predicate MeAgrees(a: Aspect, s: State, me: Peer) {
    Active(a, s) ==> forall q :: q in s.peers ==> PairAgrees(a, s.peers[q], me) && PairAgrees(a, me, s.peers[q])
  }

  /** Of the authenticated peers that have chosen the room, any two have nothing to show each other there. */
  ghost predicate NothingToShare(room: StableId, peers: map<PeerId, Peer>) {
    forall p, q :: p in peers && q in peers && p != q && Concerned(Locals(room), peers[p], peers[q]) ==>
      LocalPart(peers[p].objects) == map[]
  }

  /** Everybody else is listed in the peer's room. */
  ghost predicate AllInRoom(s: State, me: Peer) {
    forall q :: q in s.peers && s.peers[q].Authenticated() ==> me.Room() in s.rooms && q in s.rooms[me.Room()]
  }

  /** Messages about the handled peer leave what others know of each other alone. */
  lemma OthersKept(a: Aspect, s: State, t: State, me: PeerId)
    requires OthersAgree(a, s) && OnlyAbout(s, t, me) && OwnIds(s.peers) && me !in s.peers
    requires Active(a, t) ==> Active(a, s)
    ensures OthersAgree(a, t)
  {
    hide Look;
    if Active(a, t) {
      forall q, p | q in t.peers && p in t.peers && q != p
        ensures PairAgrees(a, t.peers[q], t.peers[p])
      {
        assert PairAgrees(a, s.peers[q], s.peers[p]);
        assert t.peers[p] == s.peers[p].(out := t.peers[p].out);
        assert t.peers[q] == s.peers[q].(out := t.peers[q].out);
      }
    }
  }

  /** When a room opens, those with nothing to show in it agree as soon as they know each other. */
  lemma OthersOpen(a: Aspect, s: State, t: State, me: PeerId)
    requires OthersAgree(Identity, s) && OnlyAbout(s, t, me) && OwnIds(s.peers) && me !in s.peers
    requires a.Locals? && NothingToShare(a.room, s.peers)
    ensures OthersAgree(a, t)
  {
    hide Look;
    OthersKept(Identity, s, t, me);
    forall q, p | q in t.peers && p in t.peers && q != p
      ensures PairAgrees(a, t.peers[q], t.peers[p])
    {
      assert PairAgrees(Identity, t.peers[q], t.peers[p]);
      assert t.peers[p] == s.peers[p].(out := t.peers[p].out);
      assert t.peers[q] == s.peers[q].(out := t.peers[q].out);
      assert Concerned(a, t.peers[q], t.peers[p]) ==> Concerned(Locals(a.room), s.peers[p], s.peers[q]);
    }
  }

  /** The handled peer's pairs, side by side: what others see of it, and what it sees of them. */
  lemma MeAgreesBy(a: Aspect, s: State, t: State, me: Peer, me': Peer)
    requires OnlyAbout(s, t, me.id) && OwnIds(s.peers) && me'.id == me.id && me.id !in s.peers
    requires Active(a, t) ==>
      forall q :: q in s.peers && Concerned(a, s.peers[q], me') ==>
        Holds(a, Look(t.peers[q].out, me.id), me') && Holds(a, Look(me'.out, q), s.peers[q])
    ensures MeAgrees(a, t, me')
  {
    hide Look;
    if Active(a, t) {
      forall q | q in t.peers
        ensures PairAgrees(a, t.peers[q], me') && PairAgrees(a, me', t.peers[q])
      {
        assert t.peers[q] == s.peers[q].(out := t.peers[q].out);
      }
    }
  }

  lemma JoinAgrees(a: Aspect, s: State, me: Peer, room: StableId, order: Orders)
    requires RoomsKept(s) && Fits(s, me)
    requires MeAgrees(Identity, s, me) && (if a.Locals? then me.Room() == room else MeAgrees(a, s, me))
    requires Enumerates(order.own, me.objects.Keys)
    requires forall p :: p in s.peers ==> Enumerates(Ordered(order, p), s.peers[p].objects.Keys)
    ensures var h := JoinRoom(s, me, room, order); MeAgrees(a, h.s, h.me)
  {
    hide Look, React, LocalsOf;
    if room in s.rooms {
      var members := s.rooms[room];
      var h := JoinRoom(s, me, room, order);
      JoinMembersSeen(s, me, members, order);
      forall q | q in s.peers && Active(a, h.s) && Concerned(a, s.peers[q], h.me)
        ensures Holds(a, Look(h.s.peers[q].out, me.id), h.me) && Holds(a, Look(h.me.out, q), s.peers[q])
      {
        assert PairAgrees(Identity, s.peers[q], me) && PairAgrees(Identity, me, s.peers[q]);
        assert !a.Locals? ==> PairAgrees(a, s.peers[q], me) && PairAgrees(a, me, s.peers[q]);
        assert Enrolled(s, s.peers[q]);
        if q in members {
          JoinHolds(a, Seen(s, q, me.id), me, order.own);
          JoinHolds(a, Look(me.out, q), s.peers[q], Ordered(order, q));
        }
      }
      MeAgreesBy(a, s, h.s, me, h.me);
    }
  }

  lemma LeaveAgrees(a: Aspect, s: State, me: Peer, room: StableId)
    requires RoomsKept(s) && Fits(s, me) && !a.Locals? && MeAgrees(a, s, me)
    ensures var h := LeaveRoom(s, me, room); MeAgrees(a, h.s, h.me)
  {
    hide Look, React;
    if room in s.rooms {
      WithoutIs(s.rooms[room], me.id);
      var members := Without(s.rooms[room], me.id);
      var s1 := s.(rooms := s.rooms[room := members]);
      LeaveMembersSeen(s1, me, members);
      var h := LeaveRoom(s, me, room);
      forall q | q in s.peers && Concerned(a, s.peers[q], h.me)
        ensures Holds(a, Look(h.s.peers[q].out, me.id), h.me) && Holds(a, Look(h.me.out, q), s.peers[q])
      {
        assert PairAgrees(a, s.peers[q], me) && PairAgrees(a, me, s.peers[q]);
        if q in members {
          LeaveHolds(a, Seen(s, q, me.id), me);
          LeaveHolds(a, Look(me.out, q), s.peers[q]);
        }
      }
      MeAgreesBy(a, s, h.s, me, h.me);
    }
  }

  lemma IntroducedAgrees(a: Aspect, s: State, me: Peer, e: Event, order: Orders)
    requires e.Connect? && RoomsKept(s) && Fits(s, me) && OrdersFit(s, me, e, order) && !a.Locals?
    ensures var h := Introduced(s, me, e, order); MeAgrees(a, h.s, h.me)
  {
    hide Look, Introduced;
    IntroducedKeeps(s, me, e, order);
    InsertAllKeyed(me.objects, e.objects);
    var h := Introduced(s, me, e, order);
    forall q | q in s.peers && Concerned(a, s.peers[q], h.me)
      ensures Holds(a, Look(h.s.peers[q].out, me.id), h.me) && Holds(a, Look(h.me.out, q), s.peers[q])
    {
      AnnouncedHolds(a, h.me, order.own);
      AnnouncedHolds(a, s.peers[q], Ordered(order, q));
    }
    MeAgreesBy(a, s, h.s, me, h.me);
  }

  /** Connecting brings every aspect about, whatever was known before. */
  lemma ConnectingAgrees(a: Aspect, s: State, me: Peer, e: Event, order: Orders)
    requires e.Connect? && RoomsKept(s) && Fits(s, me) && OrdersFit(s, me, e, order)
    ensures var h := Connecting(s, me, e, order); MeAgrees(a, h.s, h.me)
  {
    hide Look, Connected, TakeObjects;
    IntroducedKeeps(s, me, e, order);
    IntroducedAgrees(Identity, s, me, e, order);
    if !a.Locals? { IntroducedAgrees(a, s, me, e, order); }
    var h := Introduced(s, me, e, order);
    if a.Locals? && h.me.Room() != a.room {
      JoinRoomKeeps(h.s, h.me, h.me.Room(), order);
      NotInRoom(a, h.s, JoinRoom(h.s, h.me, h.me.Room(), order), h.me);
    } else {
      JoinAgrees(a, h.s, h.me, h.me.Room(), order);
    }
  }

  lemma NotInRoom(a: Aspect, s: State, h: Handled, me: Peer)
    requires a.Locals? && me.Room() != a.room && h.me == me.(out := h.me.out)
    ensures MeAgrees(a, h.s, h.me)
  {
  }

  lemma UpdatedAgrees(a: Aspect, s: State, me: Peer, key: Key, value: Value)
    requires RoomsKept(s) && Fits(s, me) && MeAgrees(a, s, me) && (key == ROOM ==> !a.Locals?)
    ensures MeAgrees(a, SendToAll(s, me.id, PeerUpdated(me.id, key, value)), me.(props := Inserted(me.props, key, value)))
  {
    hide Look, React, SendToAll;
    PeerUpdatedKeeps(s, me, key, value);
    RoomAfterUpdate(me, key, value);
    var t := SendToAll(s, me.id, PeerUpdated(me.id, key, value));
    var me1 := me.(props := Inserted(me.props, key, value));
    forall q | q in s.peers && Active(a, t) && Concerned(a, s.peers[q], me1)
      ensures Holds(a, Look(t.peers[q].out, me.id), me1) && Holds(a, Look(me1.out, q), s.peers[q])
    {
      assert PairAgrees(a, s.peers[q], me) && PairAgrees(a, me, s.peers[q]);
      UpdatedHolds(a, Seen(s, q, me.id), me, key, value);
    }
    MeAgreesBy(a, s, t, me, me1);
  }

  lemma PeerUpdatingAgrees(a: Aspect, s: State, me: Peer, key: Key, value: Value, order: Orders)
    requires RoomsKept(s) && Fits(s, me) && OrdersFit(s, me, PeerUpdate(key, value), order)
    requires MeAgrees(Identity, s, me) && MeAgrees(a, s, me)
    ensures var h := PeerUpdating(s, me, key, value, order); MeAgrees(a, h.s, h.me)
  {
    hide Look, SendToAll, LeaveRoom, JoinRoom;
    PeerUpdatedKeeps(s, me, key, value);
    RoomAfterUpdate(me, key, value);
    var s1 := SendToAll(s, me.id, PeerUpdated(me.id, key, value));
    var me1 := me.(props := Inserted(me.props, key, value));
    UpdatedAgrees(Identity, s, me, key, value);
    if key != ROOM || !a.Locals? { UpdatedAgrees(a, s, me, key, value); }
    if key == ROOM {
      LeaveRoomKeeps(s1, me1, me.Room());
      LeaveAgrees(Identity, s1, me1, me.Room());
      if !a.Locals? { LeaveAgrees(a, s1, me1, me.Room()); }
      var left := LeaveRoom(s1, me1, me.Room());
      OnlyAboutTransitive(s, s1, left.s, me.id);
      FitsAfter(s, left.s, left.me);
      ObjectsKept(s, left.s, me.id);
      if a.Locals? && left.me.Room() != a.room {
        JoinRoomKeeps(left.s, left.me, value.AsStableId(), order);
        NotInRoom(a, left.s, JoinRoom(left.s, left.me, value.AsStableId(), order), left.me);
      } else {
        JoinAgrees(a, left.s, left.me, value.AsStableId(), order);
      }
    }
  }

  lemma ObjectsKept(s: State, t: State, me: PeerId)
    requires OnlyAbout(s, t, me)
    ensures forall q :: q in s.peers ==> t.peers[q].objects == s.peers[q].objects
  {
  }

  /** A room peer is among those an update of the handled peer's local objects reaches. */
  lemma RoomReached(a: Aspect, s: State, me: Peer, ty: TypeId, q: PeerId)
    requires RoomsKept(s) && OwnIds(s.peers) && q in s.peers
    requires a.Locals? && Active(a, s) && Concerned(a, s.peers[q], me)
    ensures Reaches(s, me, ty, q)
  {
    assert Enrolled(s, s.peers[q]);
  }

  lemma ObjectCreatingAgrees(a: Aspect, s: State, me: Peer, o: RemoteObject, order: Orders)
    requires RoomsKept(s) && Fits(s, me) && Enumerates(order.peers, s.peers.Keys)
    requires MeAgrees(Identity, s, me) && MeAgrees(a, s, me)
    requires a.Globals? && Recreates(me, o) ==> AllInRoom(s, me)
    requires Active(a, ObjectCreating(s, me, o, order).s) ==> Active(a, s) || CreationOpens(a, s, me, o)
    ensures var h := ObjectCreating(s, me, o, order); MeAgrees(a, h.s, h.me)
  {
    hide Look, React, SendUpdate, CreateRoom, NothingToShare, AllInRoom, Recreates, GlobalPart, LocalPart;
    var me1 := me.(objects := me.objects[o.id := o]);
    var s1 := if o.ty == ROOM_TYPE then CreateRoom(s, me1, o.id, order.peers) else s;
    if o.ty == ROOM_TYPE {
      CreateRoomKeeps(s, me1, o.id, order.peers);
      CreateRoomLists(s, me1, o.id, order.peers);
    }
    SendUpdateSeen(s1, me1, o.ty, ObjectCreated(me.id, o));
    var h := ObjectCreating(s, me, o, order);
    assert h.s.rooms == s1.rooms;
    forall q | q in s.peers && Active(a, h.s) && Concerned(a, s.peers[q], me1)
      ensures Holds(a, Look(h.s.peers[q].out, me.id), me1) && Holds(a, Look(me1.out, q), s.peers[q])
    {
      if Active(a, s) {
        assert PairAgrees(a, s.peers[q], me) && PairAgrees(a, me, s.peers[q]);
        CreationPair(a, s, s1, me, o, q);
      } else {
        assert PairAgrees(Identity, s.peers[q], me) && PairAgrees(Identity, me, s.peers[q]);
        OpenPair(a, s, me, o, q);
        SomeAfter(Seen(s, q, me.id), ObjectCreated(me.id, o));
      }
    }
    MeAgreesBy(a, s, h.s, me, h.me);
  }

  /** The creation opens a room in which those who have chosen it have nothing to show. */
  ghost predicate CreationOpens(a: Aspect, s: State, me: Peer, o: RemoteObject) {
    a.Locals? && NothingToShare(a.room, s.peers[me.id := me.(objects := me.objects[o.id := o])])
  }

  lemma OpenPair(a: Aspect, s: State, me: Peer, o: RemoteObject, q: PeerId)
    requires CreationOpens(a, s, me, o) && q in s.peers && me.id !in s.peers
    requires Concerned(a, s.peers[q], me)
    ensures LocalPart(me.objects[o.id := o]) == map[] && LocalPart(s.peers[q].objects) == map[]
  {
    var me1 := me.(objects := me.objects[o.id := o]);
    var all := s.peers[me.id := me1];
    assert Concerned(Locals(a.room), all[q], all[me.id]) && Concerned(Locals(a.room), all[me.id], all[q]);
  }

  lemma SomeAfter(known: Option<Info>, m: Msg)
    requires known.Some? && m.ObjectCreated?
    ensures React(known, m).Some?
  {
  }

  lemma CreationPair(a: Aspect, s: State, s1: State, me: Peer, o: RemoteObject, q: PeerId)
    requires q in s.peers && s1 == s.(rooms := s1.rooms) && (o.ty != ROOM_TYPE ==> s1 == s)
    requires RoomsKept(s1) && OwnIds(s.peers)
    requires Concerned(a, s.peers[q], me) && Active(a, s1) && Holds(a, Seen(s, q, me.id), me)
    requires a.Globals? && Recreates(me, o) ==> AllInRoom(s, me)
    ensures var me1 := me.(objects := me.objects[o.id := o]);
            Holds(a, if Reaches(s1, me1, o.ty, q) then React(Seen(s, q, me.id), ObjectCreated(me.id, o)) else Seen(s, q, me.id),
                  me1)
  {
    hide Look, React;
    var me1 := me.(objects := me.objects[o.id := o]);
    if Reaches(s1, me1, o.ty, q) {
      CreatedHolds(a, Seen(s, q, me.id), me, o);
    } else {
      if a.Locals? { RoomReached(a, s1, me1, o.ty, q); }
      UnseenCreationHolds(a, Seen(s, q, me.id), me, o);
    }
  }

  lemma ObjectUpdatingAgrees(a: Aspect, s: State, me: Peer, id: Id, key: Key, value: Value)
    requires RoomsKept(s) && Fits(s, me) && MeAgrees(a, s, me)
    ensures var h := ObjectUpdating(s, me, id, key, value); MeAgrees(a, h.s, h.me)
  {
    hide Look, React, SendUpdate;
    if id in me.objects {
      var h := ObjectUpdating(s, me, id, key, value);
      var ty := me.objects[id].ty;
      SendUpdateSeen(s, h.me, ty, ObjectUpdated(me.id, id, key, value));
      forall q | q in s.peers && Active(a, h.s) && Concerned(a, s.peers[q], h.me)
        ensures Holds(a, Look(h.s.peers[q].out, me.id), h.me) && Holds(a, Look(h.me.out, q), s.peers[q])
      {
        assert PairAgrees(a, s.peers[q], me) && PairAgrees(a, me, s.peers[q]);
        if Reaches(s, h.me, ty, q) {
          ObjectUpdatedHolds(a, Seen(s, q, me.id), me, id, key, value);
        } else {
          if a.Locals? { RoomReached(a, s, h.me, ty, q); }
          UnseenUpdateHolds(a, Seen(s, q, me.id), me, id, key, value);
        }
      }
      MeAgreesBy(a, s, h.s, me, h.me);
    }
  }

  lemma ObjectRemovingAgrees(a: Aspect, s: State, me: Peer, id: Id)
    requires RoomsKept(s) && Fits(s, me) && MeAgrees(a, s, me) && me.Authenticated()
    ensures var h := ObjectRemoving(s, me, id); MeAgrees(a, h.s, h.me)
  {
    hide Look, React, SendUpdate;
    if id in me.objects {
      var h := ObjectRemoving(s, me, id);
      var ty := me.objects[id].ty;
      var s1 := if ty == ROOM_TYPE then s.(rooms := s.rooms - {StableId(me.key, id)}) else s;
      EnrolledAfter(s, s1, me.id);
      SendUpdateSeen(s1, h.me, ty, ObjectRemoved(me.id, id));
      forall q | q in s.peers && Active(a, h.s) && Concerned(a, s.peers[q], h.me)
        ensures Holds(a, Look(h.s.peers[q].out, me.id), h.me) && Holds(a, Look(h.me.out, q), s.peers[q])
      {
        assert PairAgrees(a, s.peers[q], me) && PairAgrees(a, me, s.peers[q]);
        if Reaches(s1, h.me, ty, q) {
          RemovedHolds(a, Seen(s, q, me.id), me, id);
        } else {
          if a.Locals? { RoomReached(a, s1, h.me, ty, q); }
          UnseenRemovalHolds(a, Seen(s, q, me.id), me, id);
        }
      }
      MeAgreesBy(a, s, h.s, me, h.me);
    }
  }

  lemma RepliesAgree(a: Aspect, s: State, me: Peer, m: Msg, challenge: Option<nat>)
    requires MeAgrees(a, s, me) && (m.Pong? || m.Challenge?)
    ensures MeAgrees(a, s, me.Push(m).(challenge := challenge))
  {
    var me' := me.Push(m).(challenge := challenge);
    if Active(a, s) {
      forall q | q in s.peers
        ensures PairAgrees(a, s.peers[q], me') && PairAgrees(a, me', s.peers[q])
      {
        assert PairAgrees(a, s.peers[q], me) && PairAgrees(a, me, s.peers[q]);
        LookPush(me.out, m, s.peers[q].id);
      }
    }
  }

  /** The event brings the room into being. */
  ghost predicate Opens(room: StableId, s: State, me: Peer, e: Event, order: Orders) {
    && room !in s.rooms
    && Handle(s, me, e, order).Some? && room in Handle(s, me, e, order).value.s.rooms
  }

  /** The others and, if it is among those that have chosen a room it opens, the handled peer. */
  function Choosers(s: State, me: Peer, e: Event): map<PeerId, Peer> {
    if e.ObjectCreate? then s.peers[me.id := me.(objects := me.objects[e.obj.id := e.obj])] else s.peers
  }

  /**
   * The two ways an event can spoil an aspect: hiding a global object from somebody, and opening a
   * room for peers that have something to show each other. A peer that opens a room by connecting
   * then joins it, so that its own pairs are in no danger.
   */
  ghost predicate Harmless(a: Aspect, s: State, me: Peer, e: Event, order: Orders) {
    match a
    case Identity => true
    case Globals => e.ObjectCreate? && Recreates(me, e.obj) ==> AllInRoom(s, me)
    case Locals(room) => Opens(room, s, me, e, order) ==> NothingToShare(room, Choosers(s, me, e))
  }

  /** Opening a room is left to creations and connects. */
  lemma OpensBy(room: StableId, s: State, me: Peer, e: Event, order: Orders)
    requires RoomsKept(s) && Fits(s, me) && Enrolled(s, me) && Opens(room, s, me, e, order)
    ensures e.ObjectCreate? || e.Connect?
  {
    match e {
      case PeerUpdate(key, value) =>
        hide PeerUpdating;
        PeerUpdatingKeeps(s, me, key, value, order);
      case ObjectUpdate(id, key, value) =>
        hide SendUpdate;
        if id in me.objects {
          var h := ObjectUpdating(s, me, id, key, value);
          SendUpdateKeeps(s, h.me, h.me.objects[id].ty, ObjectUpdated(me.id, id, key, value));
        }
      case ObjectRemove(id) =>
        hide SendUpdate;
        if id in me.objects {
          var h := ObjectRemoving(s, me, id);
          var ty := me.objects[id].ty;
          var s1 := if ty == ROOM_TYPE then s.(rooms := s.rooms - {StableId(me.key, id)}) else s;
          SendRooms(s1, h.me, ty, ObjectRemoved(me.id, id));
        }
      case _ =>
    }
  }

  // ----- Events

  lemma UpdatingAgrees(a: Aspect, s: State, me: Peer, e: Event, order: Orders)
    requires RoomsKept(s) && Fits(s, me) && Enrolled(s, me) && OrdersFit(s, me, e, order)
    requires IsUpdate(e) && me.Authenticated() && Harmless(a, s, me, e, order)
    requires MeAgrees(Identity, s, me) && MeAgrees(a, s, me)
    ensures var h := Updating(s, me, e, order); MeAgrees(a, h.s, h.me)
  {
    hide RoomsKept, Fits, Enrolled, MeAgrees, PeerUpdating, ObjectCreating, ObjectUpdating, ObjectRemoving;
    hide Recreates, NothingToShare, AllInRoom;
    match e {
      case PeerUpdate(key, value) => PeerUpdatingAgrees(a, s, me, key, value, order);
      case ObjectCreate(o) => ObjectCreatingAgrees(a, s, me, o, order);
      case ObjectUpdate(id, key, value) => ObjectUpdatingAgrees(a, s, me, id, key, value);
      case ObjectRemove(id) => ObjectRemovingAgrees(a, s, me, id);
    }
  }

  /** What the handled peer and the others know of each other. */
  lemma HandleMeAgrees(a: Aspect, s: State, me: Peer, e: Event, order: Orders)
    requires RoomsKept(s) && Fits(s, me) && Enrolled(s, me) && OrdersFit(s, me, e, order)
    requires Handle(s, me, e, order).Some? && Harmless(a, s, me, e, order)
    requires MeAgrees(Identity, s, me) && MeAgrees(a, s, me)
    ensures var h := Handle(s, me, e, order).value; MeAgrees(a, h.s, h.me)
  {
    hide RoomsKept, Fits, Enrolled, MeAgrees, OrdersFit, Harmless, Connecting, Updating, MayConnect;
    match e {
      case Connect(_, _, _, _) => ConnectingAgrees(a, s, me, e, order);
      case Ping(payload) => RepliesAgree(a, s, me, Pong(payload), me.challenge);
      case Hello(nonce) => RepliesAgree(a, s, me, Challenge(nonce), Some(nonce));
      case _ => UpdatingAgrees(a, s, me, e, order);
    }
  }

  /** What the others know of each other. */
  lemma HandleOthersAgree(a: Aspect, s: State, me: Peer, e: Event, order: Orders)
    requires RoomsKept(s) && Fits(s, me) && Enrolled(s, me) && OrdersFit(s, me, e, order)
    requires Handle(s, me, e, order).Some? && Harmless(a, s, me, e, order)
    requires OthersAgree(Identity, s) && OthersAgree(a, s)
    ensures OthersAgree(a, Handle(s, me, e, order).value.s)
  {
    hide RoomsKept, Enrolled, OthersAgree, OnlyAbout, Handle, OrdersFit;
    HandleKeepsRooms(s, me, e, order);
    var t := Handle(s, me, e, order).value.s;
    if Active(a, t) && !Active(a, s) {
      OpensBy(a.room, s, me, e, order);
      OthersChoosing(a.room, s, me, e);
      OthersOpen(a, s, t, me.id);
    } else {
      OthersKept(a, s, t, me.id);
    }
  }

  lemma OthersChoosing(room: StableId, s: State, me: Peer, e: Event)
    requires NothingToShare(room, Choosers(s, me, e)) && me.id !in s.peers
    ensures NothingToShare(room, s.peers)
  {
    forall p, q | p in s.peers && q in s.peers && p != q && Concerned(Locals(room), s.peers[p], s.peers[q])
      ensures LocalPart(s.peers[p].objects) == map[]
    {
      var all := Choosers(s, me, e);
      assert all[p] == s.peers[p] && all[q] == s.peers[q];
    }
  }

  /** Every harmless event that is not an error keeps every aspect between all pairs. */
  lemma HandleAgrees(a: Aspect, s: State, me: Peer, e: Event, order: Orders)
    requires RoomsKept(s) && Fits(s, me) && Enrolled(s, me) && OrdersFit(s, me, e, order)
    requires Handle(s, me, e, order).Some? && Harmless(a, s, me, e, order)
    requires OthersAgree(Identity, s) && MeAgrees(Identity, s, me)
    requires OthersAgree(a, s) && MeAgrees(a, s, me)
    ensures var h := Handle(s, me, e, order).value; OthersAgree(a, h.s) && MeAgrees(a, h.s, h.me)
  {
    hide *;
    HandleMeAgrees(a, s, me, e, order);
    HandleOthersAgree(a, s, me, e, order);
  }
}
