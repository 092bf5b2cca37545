/** Room membership through every event of the server. */
module Rooms {
  import opened Options
  import opened Values
  import opened Protocol
  import opened Identifiers
  import opened Server
  import opened Effects

  /** `p` is listed in the room it has chosen, if that room exists. */
  predicate Enrolled(s: State, p: Peer) {
    p.Authenticated() && p.Room() in s.rooms ==> p.id in s.rooms[p.Room()]
  }

  ghost predicate ListsDistinct(s: State) {
    forall room :: room in s.rooms ==> Distinct(s.rooms[room])
  }

  /** The zero room exists, no list repeats a peer, and every peer but the handled one is enrolled. */
  ghost predicate RoomsKept(s: State) {
    && ZERO_ROOM in s.rooms
    && ListsDistinct(s)
    && forall q :: q in s.peers ==> Enrolled(s, s.peers[q])
  }

  /** What every operation may rely on about the handled peer and the others. */
  ghost predicate Fits(s: State, me: Peer) {
    && me.id !in s.peers
    && OwnIds(s.peers)
    && Keyed(me.objects)
    && forall q :: q in s.peers ==> Keyed(s.peers[q].objects)
  }

  // ----- Creating

  lemma {:induction false} HoldersAre(peers: map<PeerId, Peer>, order: seq<PeerId>, room: StableId)
    requires Distinct(order)
    ensures Distinct(Holders(peers, order, room))
    ensures forall q :: q in Holders(peers, order, room) <==> q in order && q in peers && peers[q].Room() == room
    decreases |order|
  {
    if order != [] {
      HoldersAre(peers, order[1..], room);
      assert order[0] !in order[1..];
    }
  }

  /** A created room lists exactly the peers that have chosen it, each once. */
  lemma CreateRoomLists(s: State, me: Peer, obj: Id, order: seq<PeerId>)
    requires me.id !in s.peers && Enumerates(order, s.peers.Keys)
    ensures var room := StableId(me.key, obj);
            var t := CreateRoom(s, me, obj, order);
            && t == s.(rooms := t.rooms)
            && t.rooms.Keys == s.rooms.Keys + {room}
            && (forall r :: r in s.rooms && r != room ==> t.rooms[r] == s.rooms[r])
            && Distinct(t.rooms[room])
            && forall q :: q in t.rooms[room] <==>
                 if q == me.id then me.Room() == room else q in s.peers && s.peers[q].Room() == room
  {
    HoldersAre(s.peers, order, StableId(me.key, obj));
    forall q
      ensures q in order <==> q in s.peers
    {
      assert q in Elements(order) <==> q in s.peers.Keys;
    }
  }

  lemma CreateRoomKeeps(s: State, me: Peer, obj: Id, order: seq<PeerId>)
    requires RoomsKept(s) && Fits(s, me) && Enumerates(order, s.peers.Keys)
    ensures RoomsKept(CreateRoom(s, me, obj, order))
    ensures Enrolled(s, me) ==> Enrolled(CreateRoom(s, me, obj, order), me)
  {
    CreateRoomLists(s, me, obj, order);
  }

  lemma {:induction false} TakeObjectsKeeps(s: State, me: Peer, objects: seq<RemoteObject>, order: seq<PeerId>)
    requires RoomsKept(s) && Fits(s, me) && Enumerates(order, s.peers.Keys)
    ensures var h := TakeObjects(s, me, objects, order);
            && RoomsKept(h.s) && Fits(h.s, h.me)
            && h.s == s.(rooms := h.s.rooms) && s.rooms.Keys <= h.s.rooms.Keys
            && h.me == me.(objects := InsertAll(me.objects, objects))
    decreases |objects|
  {
    if objects != [] {
      var o := objects[0];
      var s1 := if o.ty == ROOM_TYPE then CreateRoom(s, me, o.id, order) else s;
      if o.ty == ROOM_TYPE {
        CreateRoomKeeps(s, me, o.id, order);
        CreateRoomLists(s, me, o.id, order);
      }
      TakeObjectsKeeps(s1, me.(objects := me.objects[o.id := o]), objects[1..], order);
    }
  }

  // ----- Joining

  /** After joining, the peer is enrolled and all others still are. */
  lemma JoinRoomKeeps(s: State, me: Peer, room: StableId, order: Orders)
    requires RoomsKept(s) && Fits(s, me)
    ensures var h := JoinRoom(s, me, room, order);
            && RoomsKept(h.s)
            && (room in h.s.rooms ==> me.id in h.s.rooms[room])
            && h.s.rooms.Keys == s.rooms.Keys
            && OnlyAbout(s, h.s, me.id) && h.me == me.(out := h.me.out)
  {
    if room in s.rooms {
      var members := s.rooms[room];
      JoinMembersSeen(s, me, members, order);
      var h := JoinRoom(s, me, room, order);
      if me.id !in members {
        assert Distinct(members + [me.id]);
      }
      EnrolledAfter(s, h.s, me.id);
    }
  }

  /** Enrolment survives as long as no list loses anyone but the handled peer. */
  lemma EnrolledAfter(s: State, t: State, me: PeerId)
    requires RoomsKept(s) && OnlyAbout(s, t, me) && me !in s.peers && OwnIds(s.peers)
    requires ListsDistinct(t) && t.rooms.Keys <= s.rooms.Keys && ZERO_ROOM in t.rooms
    requires forall room, q :: room in t.rooms && q != me && q in s.rooms[room] ==> q in t.rooms[room]
    ensures RoomsKept(t)
  {
    forall q | q in t.peers
      ensures Enrolled(t, t.peers[q])
    {
      assert t.peers[q] == s.peers[q].(out := t.peers[q].out);
      assert Enrolled(s, s.peers[q]);
      assert t.peers[q].Room() == s.peers[q].Room();
    }
  }

  // ----- Leaving

  lemma {:induction false} WithoutIs(members: Members, leaving: PeerId)
    ensures forall q :: q in Without(members, leaving) <==> q in members && q != leaving
    ensures Distinct(members) ==> Distinct(Without(members, leaving))
    decreases |members|
  {
    if members != [] {
      WithoutIs(members[1..], leaving);
      if Distinct(members) { assert members[0] !in members[1..]; }
    }
  }

  lemma LeaveRoomKeeps(s: State, me: Peer, room: StableId)
    requires RoomsKept(s) && Fits(s, me)
    ensures var h := LeaveRoom(s, me, room);
            && RoomsKept(h.s) && h.s.rooms.Keys == s.rooms.Keys
            && (forall r, q :: r in s.rooms ==>
                  (q in h.s.rooms[r] <==> q in s.rooms[r] && (r == room ==> q != me.id)))
            && OnlyAbout(s, h.s, me.id) && h.me == me.(out := h.me.out)
  {
    if room in s.rooms {
      WithoutIs(s.rooms[room], me.id);
      var members := Without(s.rooms[room], me.id);
      var s1 := s.(rooms := s.rooms[room := members]);
      LeaveMembersSeen(s1, me, members);
      var h := LeaveRoom(s, me, room);
      EnrolledAfter(s, h.s, me.id);
    }
  }

  // ----- Events

  lemma {:induction false} MembersRooms(s: State, me: PeerId, members: Members, m: Msg)
    ensures SendToMembers(s, me, members, m).rooms == s.rooms
    decreases |members|
  {
    if members != [] { MembersRooms(if members[0] == me then s else Send(s, members[0], m), me, members[1..], m); }
  }

  lemma SendRooms(s: State, me: Peer, ty: TypeId, m: Msg)
    ensures SendUpdate(s, me, ty, m).rooms == s.rooms
  {
    if me.Room() in s.rooms { MembersRooms(s, me.id, s.rooms[me.Room()], m); }
  }

  lemma SendUpdateKeeps(s: State, me: Peer, ty: TypeId, m: Msg)
    requires RoomsKept(s) && Fits(s, me) && m.About(me.id)
    ensures RoomsKept(SendUpdate(s, me, ty, m))
    ensures OnlyAbout(s, SendUpdate(s, me, ty, m), me.id)
    ensures SendUpdate(s, me, ty, m).rooms == s.rooms
  {
    SendUpdateSeen(s, me, ty, m);
    EnrolledAfter(s, SendUpdate(s, me, ty, m), me.id);
  }

  /** The orders of an event fit the maps it iterates over. */
  ghost predicate OrdersFit(s: State, me: Peer, e: Event, order: Orders) {
    && Enumerates(order.peers, s.peers.Keys)
    && (forall p :: p in s.peers ==> Enumerates(Ordered(order, p), s.peers[p].objects.Keys))
    && Enumerates(order.own, if e.Connect? then InsertAll(me.objects, e.objects).Keys else me.objects.Keys)
  }

  lemma {:induction false} InsertAllKeyed(objects: Objects, list: seq<RemoteObject>)
    requires Keyed(objects)
    ensures Keyed(InsertAll(objects, list))
    decreases |list|
  {
    if list != [] { InsertAllKeyed(objects[list[0].id := list[0]], list[1..]); }
  }

  /** A connecting peer before it joins its room: the others have been told, the rooms are created. */
  function Introduced(s: State, me: Peer, e: Event, order: Orders): Handled
    requires e.Connect?
  {
    var h := TakeObjects(s, me.(key := e.key, props := e.props, challenge := None), e.objects, order.peers);
    Connected(h.s, h.me.(out := h.me.out + EarlyObjects(h.s.peers, order.peers, order)), order)
  }

  lemma IntroducedKeeps(s: State, me: Peer, e: Event, order: Orders)
    requires e.Connect? && RoomsKept(s) && Fits(s, me) && OrdersFit(s, me, e, order)
    ensures var h := Introduced(s, me, e, order);
            && RoomsKept(h.s) && Fits(h.s, h.me) && s.rooms.Keys <= h.s.rooms.Keys
            && OnlyAbout(s, h.s, me.id)
            && h.me == me.(key := e.key, props := e.props, challenge := None,
                           objects := InsertAll(me.objects, e.objects), out := h.me.out)
            && (forall q :: q in s.peers ==> Seen(h.s, q, me.id) == Some(Announced(h.me, order.own)))
            && (forall p :: Look(h.me.out, p)
                  == if p in s.peers then Some(Announced(s.peers[p], Ordered(order, p))) else Look(me.out, p))
  {
    var me0 := me.(key := e.key, props := e.props, challenge := None);
    TakeObjectsKeeps(s, me0, e.objects, order.peers);
    var t := TakeObjects(s, me0, e.objects, order.peers);
    var early := t.me.(out := t.me.out + EarlyObjects(t.s.peers, order.peers, order));
    var news := Announcement(early, order.own);
    var h := Introduced(s, me, e, order);
    SendEachQueues(t.s, me.id, news);
    forall q, p | q in s.peers
      ensures Look(h.s.peers[q].out, p) == if p == me.id then Some(Announced(h.me, order.own)) else Look(s.peers[q].out, p)
    {
      LookAnnouncement(s.peers[q].out, early, order.own, p);
    }
    forall p
      ensures Look(h.me.out, p)
              == if p in s.peers then Some(Announced(s.peers[p], Ordered(order, p))) else Look(me.out, p)
    {
      LookIntroductions(early.out, s.peers, order.peers, order, p);
      assert p in order.peers <==> p in Elements(order.peers);
      if p !in s.peers { LookEarlyObjects(me.out, s.peers, order.peers, order, p); }
    }
    EnrolledAfter(t.s, h.s, me.id);
  }

  lemma ConnectingKeeps(s: State, me: Peer, e: Event, order: Orders)
    requires e.Connect? && RoomsKept(s) && Fits(s, me) && OrdersFit(s, me, e, order)
    ensures var h := Connecting(s, me, e, order);
            && RoomsKept(h.s) && Enrolled(h.s, h.me) && Fits(h.s, h.me)
            && OnlyAbout(s, h.s, me.id) && h.me.id == me.id
  {
    IntroducedKeeps(s, me, e, order);
    var h := Introduced(s, me, e, order);
    JoinRoomKeeps(h.s, h.me, h.me.Room(), order);
    OnlyAboutTransitive(s, h.s, Connecting(s, me, e, order).s, me.id);
    FitsAfter(s, Connecting(s, me, e, order).s, h.me);
  }

  lemma FitsAfter(s: State, t: State, me: Peer)
    requires OnlyAbout(s, t, me.id) && OwnIds(s.peers) && me.id !in s.peers && Keyed(me.objects)
    requires forall q :: q in s.peers ==> Keyed(s.peers[q].objects)
    ensures Fits(t, me)
  {
    forall q | q in t.peers
      ensures t.peers[q].id == q && Keyed(t.peers[q].objects)
    {
      assert t.peers[q] == s.peers[q].(out := t.peers[q].out);
    }
  }

  /** A peer update before the room change it may bring. */
  lemma PeerUpdatedKeeps(s: State, me: Peer, key: Key, value: Value)
    requires RoomsKept(s) && Fits(s, me)
    ensures var t := SendToAll(s, me.id, PeerUpdated(me.id, key, value));
            && RoomsKept(t) && Fits(t, me.(props := Inserted(me.props, key, value))) && t.rooms == s.rooms
            && OnlyAbout(s, t, me.id)
            && forall q :: q in s.peers ==> Seen(t, q, me.id) == React(Seen(s, q, me.id), PeerUpdated(me.id, key, value))
  {
    SendToAllSeen(s, me.id, PeerUpdated(me.id, key, value));
    var t := SendToAll(s, me.id, PeerUpdated(me.id, key, value));
    EnrolledAfter(s, t, me.id);
    FitsAfter(s, t, me.(props := Inserted(me.props, key, value)));
  }

  /** The room a peer has after its room property is replaced is the room it then joins. */
  lemma RoomAfterUpdate(me: Peer, key: Key, value: Value)
    ensures me.(props := Inserted(me.props, key, value)).Room() == if key == ROOM then value.AsStableId() else me.Room()
  {
  }

  lemma PeerUpdatingKeeps(s: State, me: Peer, key: Key, value: Value, order: Orders)
    requires RoomsKept(s) && Fits(s, me) && Enrolled(s, me)
    ensures var h := PeerUpdating(s, me, key, value, order);
            && RoomsKept(h.s) && Enrolled(h.s, h.me) && Fits(h.s, h.me) && OnlyAbout(s, h.s, me.id)
            && h.s.rooms.Keys == s.rooms.Keys && h.me.id == me.id
  {
    PeerUpdatedKeeps(s, me, key, value);
    RoomAfterUpdate(me, key, value);
    var me1 := me.(props := Inserted(me.props, key, value));
    var s1 := SendToAll(s, me.id, PeerUpdated(me.id, key, value));
    if key == ROOM {
      LeaveRoomKeeps(s1, me1, me.Room());
      var left := LeaveRoom(s1, me1, me.Room());
      OnlyAboutTransitive(s, s1, left.s, me.id);
      FitsAfter(s, left.s, left.me);
      JoinRoomKeeps(left.s, left.me, value.AsStableId(), order);
      var h := JoinRoom(left.s, left.me, value.AsStableId(), order);
      OnlyAboutTransitive(s, left.s, h.s, me.id);
      FitsAfter(s, h.s, h.me);
    }
  }

  lemma ObjectCreatingKeeps(s: State, me: Peer, o: RemoteObject, order: Orders)
    requires RoomsKept(s) && Fits(s, me) && Enrolled(s, me) && Enumerates(order.peers, s.peers.Keys)
    ensures var h := ObjectCreating(s, me, o, order);
            && RoomsKept(h.s) && Enrolled(h.s, h.me) && Fits(h.s, h.me) && OnlyAbout(s, h.s, me.id)
  {
    var me1 := me.(objects := me.objects[o.id := o]);
    var s1 := if o.ty == ROOM_TYPE then CreateRoom(s, me1, o.id, order.peers) else s;
    assert Fits(s, me1);
    if o.ty == ROOM_TYPE {
      CreateRoomKeeps(s, me1, o.id, order.peers);
      CreateRoomLists(s, me1, o.id, order.peers);
    }
    SendUpdateKeeps(s1, me1, o.ty, ObjectCreated(me.id, o));
    FitsAfter(s, ObjectCreating(s, me, o, order).s, me1);
  }

  lemma ObjectUpdatingKeeps(s: State, me: Peer, id: Id, key: Key, value: Value)
    requires RoomsKept(s) && Fits(s, me) && Enrolled(s, me)
    ensures var h := ObjectUpdating(s, me, id, key, value);
            && RoomsKept(h.s) && Enrolled(h.s, h.me) && Fits(h.s, h.me) && OnlyAbout(s, h.s, me.id)
  {
    if id in me.objects {
      var h := ObjectUpdating(s, me, id, key, value);
      SendUpdateKeeps(s, h.me, h.me.objects[id].ty, ObjectUpdated(me.id, id, key, value));
      FitsAfter(s, h.s, h.me);
    }
  }

  lemma ObjectRemovingKeeps(s: State, me: Peer, id: Id)
    requires RoomsKept(s) && Fits(s, me) && Enrolled(s, me) && me.Authenticated()
    ensures var h := ObjectRemoving(s, me, id);
            && RoomsKept(h.s) && Enrolled(h.s, h.me) && Fits(h.s, h.me) && OnlyAbout(s, h.s, me.id)
  {
    if id in me.objects {
      var h := ObjectRemoving(s, me, id);
      var ty := me.objects[id].ty;
      var s1 := if ty == ROOM_TYPE then s.(rooms := s.rooms - {StableId(me.key, id)}) else s;
      EnrolledAfter(s, s1, me.id);
      SendUpdateKeeps(s1, h.me, ty, ObjectRemoved(me.id, id));
      FitsAfter(s, h.s, h.me);
    }
  }

  /** Every event that is not an error keeps rooms and enrolment, the handled peer's included. */
  lemma HandleKeepsRooms(s: State, me: Peer, e: Event, order: Orders)
    requires RoomsKept(s) && Fits(s, me) && Enrolled(s, me) && OrdersFit(s, me, e, order)
    requires Handle(s, me, e, order).Some?
    ensures var h := Handle(s, me, e, order).value;
            && RoomsKept(h.s) && Enrolled(h.s, h.me) && Fits(h.s, h.me) && OnlyAbout(s, h.s, me.id)
            && h.me.id == me.id
  {
    match e {
      case Connect(_, _, _, _) => ConnectingKeeps(s, me, e, order);
      case PeerUpdate(key, value) => PeerUpdatingKeeps(s, me, key, value, order);
      case ObjectCreate(o) => ObjectCreatingKeeps(s, me, o, order);
      case ObjectUpdate(id, key, value) => ObjectUpdatingKeeps(s, me, id, key, value);
      case ObjectRemove(id) => ObjectRemovingKeeps(s, me, id);
      case _ =>
    }
  }
}
