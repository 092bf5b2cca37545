/** When the lists of the rooms name no connected peer that is elsewhere. */
module Membership {
  import opened Options
  import opened Values
  import opened Protocol
  import opened Identifiers
  import opened Server
  import opened Effects
  import opened Rooms
  import opened Aspects
  import opened Replica
  import opened Runs
  import opened Words
  import Hash

  predicate Belongs(p: Peer, room: StableId) { p.Authenticated() && p.Room() == room }

  /** Every connected peer in a list belongs there. */
  ghost predicate Exact(s: State) {
    forall room, q :: room in s.rooms && q in s.rooms[room] && q in s.peers ==> Belongs(s.peers[q], room)
  }

  ghost predicate MeExact(s: State, me: Peer) {
    forall room :: room in s.rooms && me.id in s.rooms[room] ==> Belongs(me, room)
  }

  lemma ExactAfter(s: State, t: State, me: PeerId)
    requires Exact(s) && OnlyAbout(s, t, me) && me !in s.peers
    requires forall room, q :: room in t.rooms && q in t.rooms[room] && q != me ==> room in s.rooms && q in s.rooms[room]
    ensures Exact(t)
  {
    forall room, q | room in t.rooms && q in t.rooms[room] && q in t.peers
      ensures Belongs(t.peers[q], room)
    {
      assert Belongs(s.peers[q], room);
      assert t.peers[q] == s.peers[q].(out := t.peers[q].out);
    }
  }

  /** The objects a peer connects with create this room. */
  predicate CreatesRoom(key: PublicKey, objects: seq<RemoteObject>, room: StableId) {
    exists i :: 0 <= i < |objects| && objects[i].ty == ROOM_TYPE && StableId(key, objects[i].id) == room
  }

  lemma {:induction false} TakeObjectsLists(s: State, me: Peer, objects: seq<RemoteObject>, order: seq<PeerId>)
    requires RoomsKept(s) && Fits(s, me) && Enumerates(order, s.peers.Keys)
    ensures var h := TakeObjects(s, me, objects, order);
            forall room :: room in h.s.rooms ==>
              if CreatesRoom(me.key, objects, room) then
                forall q :: q in h.s.rooms[room] <==>
                  if q == me.id then me.Room() == room else q in s.peers && s.peers[q].Room() == room
              else room in s.rooms && h.s.rooms[room] == s.rooms[room]
    decreases |objects|
  {
    hide CreateRoom;
    if objects != [] {
      var o := objects[0];
      var s1 := if o.ty == ROOM_TYPE then CreateRoom(s, me, o.id, order) else s;
      if o.ty == ROOM_TYPE {
        CreateRoomKeeps(s, me, o.id, order);
        CreateRoomLists(s, me, o.id, order);
      }
      var me1 := me.(objects := me.objects[o.id := o]);
      TakeObjectsLists(s1, me1, objects[1..], order);
      forall room
        ensures CreatesRoom(me.key, objects, room)
                <==> (o.ty == ROOM_TYPE && StableId(me.key, o.id) == room) || CreatesRoom(me.key, objects[1..], room)
      {
        CreatesRoomFirst(me.key, objects, room);
      }
    }
  }

  lemma CreatesRoomFirst(key: PublicKey, objects: seq<RemoteObject>, room: StableId)
    requires objects != []
    ensures CreatesRoom(key, objects, room)
            <==> (objects[0].ty == ROOM_TYPE && StableId(key, objects[0].id) == room) || CreatesRoom(key, objects[1..], room)
  {
    if CreatesRoom(key, objects[1..], room) {
      var i :| 0 <= i < |objects[1..]| && objects[1..][i].ty == ROOM_TYPE && StableId(key, objects[1..][i].id) == room;
      assert objects[i + 1].ty == ROOM_TYPE;
    }
    if CreatesRoom(key, objects, room) {
      var i :| 0 <= i < |objects| && objects[i].ty == ROOM_TYPE && StableId(key, objects[i].id) == room;
      if i > 0 { assert objects[1..][i - 1].ty == ROOM_TYPE; }
    }
  }

  /** A peer that has not connected has chosen no room. */
  ghost predicate Anonymous(s: State) {
    forall q :: q in s.peers && !s.peers[q].Authenticated() ==> s.peers[q].Room() == ZERO_ROOM
  }

  /** Who a room lists when a peer has connected but not joined: the created rooms are listed anew. */
  predicate ListedBefore(s: State, me: PeerId, e: Event, room: StableId, q: PeerId)
    requires e.Connect?
  {
    if CreatesRoom(e.key, e.objects, room) then
      if q == me then room == Get(e.props, ROOM).AsStableId() else q in s.peers && s.peers[q].Room() == room
    else room in s.rooms && q in s.rooms[room]
  }

  /** The lists after connecting: the created rooms anew, and the peer added to the room it joins. */
  lemma ConnectingLists(s: State, me: Peer, e: Event, order: Orders)
    requires e.Connect? && RoomsKept(s) && Fits(s, me) && OrdersFit(s, me, e, order)
    ensures var h := Connecting(s, me, e, order);
            var chosen := Get(e.props, ROOM).AsStableId();
            && h.me.key == e.key && h.me.Room() == chosen && h.me.id == me.id
            && s.rooms.Keys <= h.s.rooms.Keys
            && forall room, q :: room in h.s.rooms ==>
                 (q in h.s.rooms[room] <==> (q == me.id && room == chosen) || ListedBefore(s, me.id, e, room, q))
  {
    hide Look, Introduced, JoinRoom, CreatesRoom;
    IntroducedKeeps(s, me, e, order);
    IntroducedLists(s, me, e, order);
    var h := Introduced(s, me, e, order);
    JoinLists(h.s, h.me, h.me.Room(), order);
    ConnectingJoins(s, me, e, order);
  }

  lemma ConnectingJoins(s: State, me: Peer, e: Event, order: Orders)
    requires e.Connect?
    ensures var h := Introduced(s, me, e, order);
            Connecting(s, me, e, order) == JoinRoom(h.s, h.me, h.me.Room(), order)
  {
  }

  lemma IntroducedLists(s: State, me: Peer, e: Event, order: Orders)
    requires e.Connect? && RoomsKept(s) && Fits(s, me) && OrdersFit(s, me, e, order)
    ensures var h := Introduced(s, me, e, order);
            var chosen := Get(e.props, ROOM).AsStableId();
            && h.me.Room() == chosen
            && s.rooms.Keys <= h.s.rooms.Keys
            && forall room, q :: room in h.s.rooms ==>
                 (q in h.s.rooms[room] <==> ListedBefore(s, me.id, e, room, q))
  {
    hide Look, TakeObjects, Connected, CreatesRoom;
    var me0 := me.(key := e.key, props := e.props, challenge := None);
    TakeObjectsKeeps(s, me0, e.objects, order.peers);
    TakeObjectsLists(s, me0, e.objects, order.peers);
    var t := TakeObjects(s, me0, e.objects, order.peers);
    IntroducedKeeps(s, me, e, order);
    ConnectedRooms(t.s, t.me.(out := t.me.out + EarlyObjects(t.s.peers, order.peers, order)), order);
  }

  /** The rooms there are after taking the objects in. */
  lemma {:induction false} TakeObjectsRooms(s: State, me: Peer, objects: seq<RemoteObject>, order: seq<PeerId>)
    ensures forall room :: room in TakeObjects(s, me, objects, order).s.rooms
                           <==> room in s.rooms || CreatesRoom(me.key, objects, room)
    decreases |objects|
  {
    hide CreatesRoom;
    if objects == [] {
      NoneCreated(me.key);
    } else {
      var o := objects[0];
      var s1 := if o.ty == ROOM_TYPE then CreateRoom(s, me, o.id, order) else s;
      TakeObjectsRooms(s1, me.(objects := me.objects[o.id := o]), objects[1..], order);
      forall room
        ensures CreatesRoom(me.key, objects, room)
                <==> (o.ty == ROOM_TYPE && StableId(me.key, o.id) == room) || CreatesRoom(me.key, objects[1..], room)
      {
        CreatesRoomFirst(me.key, objects, room);
      }
    }
  }

  lemma NoneCreated(key: PublicKey)
    ensures forall room :: !CreatesRoom(key, [], room)
  {
  }

  /** The record a connect leaves, and the rooms. */
  lemma ConnectingRecord(s: State, me: Peer, e: Event, order: Orders)
    requires e.Connect? && RoomsKept(s) && Fits(s, me) && OrdersFit(s, me, e, order)
    ensures var h := Connecting(s, me, e, order);
            && h.me == me.(key := e.key, props := e.props, challenge := None,
                           objects := InsertAll(me.objects, e.objects), out := h.me.out)
            && (forall room :: room in h.s.rooms <==> room in s.rooms || CreatesRoom(e.key, e.objects, room))
  {
    hide Look, Introduced, JoinRoom, TakeObjects, Connected, CreatesRoom;
    IntroducedKeeps(s, me, e, order);
    var h := Introduced(s, me, e, order);
    JoinRoomKeeps(h.s, h.me, h.me.Room(), order);
    ConnectingJoins(s, me, e, order);
    IntroducedRooms(s, me, e, order);
  }

  lemma IntroducedRooms(s: State, me: Peer, e: Event, order: Orders)
    requires e.Connect? && RoomsKept(s) && Fits(s, me) && OrdersFit(s, me, e, order)
    ensures forall room :: room in Introduced(s, me, e, order).s.rooms
                           <==> room in s.rooms || CreatesRoom(e.key, e.objects, room)
  {
    hide Look, TakeObjects, Connected, CreatesRoom;
    var me0 := me.(key := e.key, props := e.props, challenge := None);
    TakeObjectsKeeps(s, me0, e.objects, order.peers);
    TakeObjectsRooms(s, me0, e.objects, order.peers);
    var t := TakeObjects(s, me0, e.objects, order.peers);
    ConnectedRooms(t.s, t.me.(out := t.me.out + EarlyObjects(t.s.peers, order.peers, order)), order);
  }

  /** Connecting leaves the others' memberships exact even before the room is joined. */
  lemma IntroducedExact(s: State, me: Peer, e: Event, order: Orders)
    requires e.Connect? && RoomsKept(s) && Fits(s, me) && OrdersFit(s, me, e, order)
    requires e.key != 0 && Anonymous(s) && Exact(s)
    ensures Exact(Introduced(s, me, e, order).s)
  {
    hide Look, Introduced, CreatesRoom;
    var h := Introduced(s, me, e, order);
    IntroducedLists(s, me, e, order);
    IntroducedKeeps(s, me, e, order);
    forall room, q | room in h.s.rooms && q in h.s.rooms[room] && q in h.s.peers
      ensures Belongs(h.s.peers[q], room)
    {
      assert h.s.peers[q] == s.peers[q].(out := h.s.peers[q].out);
      if CreatesRoom(e.key, e.objects, room) {
        CreatedNotZero(e.key, e.objects, room);
      } else {
        assert Belongs(s.peers[q], room);
      }
    }
  }

  lemma JoinLists(s: State, me: Peer, room: StableId, order: Orders)
    requires RoomsKept(s) && Fits(s, me)
    ensures var h := JoinRoom(s, me, room, order);
            && h.me == me.(out := h.me.out)
            && h.s.rooms.Keys == s.rooms.Keys
            && forall r, q :: r in s.rooms ==> (q in h.s.rooms[r] <==> q in s.rooms[r] || (q == me.id && r == room))
  {
    hide Look, JoinMembers;
    if room in s.rooms { JoinMembersSeen(s, me, s.rooms[room], order); }
  }

  lemma ConnectedRooms(s: State, me: Peer, order: Orders)
    requires me.id !in s.peers
    ensures Connected(s, me, order).s.rooms == s.rooms
  {
    SendEachQueues(s, me.id, Announcement(me, order.own));
  }

  /**
   * Connecting for the first time, or again with the same room, or leaving only a room that is
   * gone or made anew on the way.
   */
  predicate KeepsPlace(s: State, me: Peer, e: Event)
    requires e.Connect?
  {
    || !me.Authenticated()
    || me.Room() == Get(e.props, ROOM).AsStableId()
    || me.Room() !in s.rooms
    || CreatesRoom(e.key, e.objects, me.Room())
  }

  /** Connecting keeps the others' memberships exact, and its own exactly when it keeps its place. */
  lemma ConnectingExact(s: State, me: Peer, e: Event, order: Orders)
    requires e.Connect? && RoomsKept(s) && Fits(s, me) && Enrolled(s, me) && OrdersFit(s, me, e, order)
    requires e.key != 0 && Anonymous(s) && Exact(s) && MeExact(s, me)
    ensures var h := Connecting(s, me, e, order);
            && Exact(h.s)
            && (MeExact(h.s, h.me) <==> KeepsPlace(s, me, e))
  {
    hide Look, Connecting, CreatesRoom;
    var h := Connecting(s, me, e, order);
    ConnectingLists(s, me, e, order);
    ConnectingKeeps(s, me, e, order);
    forall room | CreatesRoom(e.key, e.objects, room)
      ensures room != ZERO_ROOM
    {
      CreatedNotZero(e.key, e.objects, room);
    }
    forall room, q | room in h.s.rooms && q in h.s.rooms[room] && q in h.s.peers
      ensures Belongs(h.s.peers[q], room)
    {
      assert h.s.peers[q] == s.peers[q].(out := h.s.peers[q].out);
      assert room in s.rooms && q in s.rooms[room] ==> Belongs(s.peers[q], room);
    }
    if me.Authenticated() && me.Room() in s.rooms {
      assert me.id in h.s.rooms[me.Room()] <==> me.Room() == h.me.Room() || !CreatesRoom(e.key, e.objects, me.Room());
    }
    forall room | room in h.s.rooms && me.id in h.s.rooms[room]
      ensures room == h.me.Room() || (room in s.rooms && Belongs(me, room) && !CreatesRoom(e.key, e.objects, room))
    {
    }
  }

  lemma CreatedNotZero(key: PublicKey, objects: seq<RemoteObject>, room: StableId)
    requires key != 0 && CreatesRoom(key, objects, room)
    ensures room != ZERO_ROOM
  {
  }

  lemma PeerUpdatingExact(s: State, me: Peer, key: Key, value: Value, order: Orders)
    requires RoomsKept(s) && Fits(s, me) && me.Authenticated() && Exact(s) && MeExact(s, me)
    ensures var h := PeerUpdating(s, me, key, value, order); Exact(h.s) && MeExact(h.s, h.me)
  {
    hide Look, SendToAll, LeaveRoom, JoinRoom;
    PeerUpdatedKeeps(s, me, key, value);
    RoomAfterUpdate(me, key, value);
    var me1 := me.(props := Inserted(me.props, key, value));
    var s1 := SendToAll(s, me.id, PeerUpdated(me.id, key, value));
    ExactAfter(s, s1, me.id);
    if key == ROOM {
      LeaveRoomKeeps(s1, me1, me.Room());
      var left := LeaveRoom(s1, me1, me.Room());
      ExactAfter(s1, left.s, me.id);
      FitsAfter(s1, left.s, left.me);
      JoinRoomKeeps(left.s, left.me, value.AsStableId(), order);
      JoinLists(left.s, left.me, value.AsStableId(), order);
      var h := JoinRoom(left.s, left.me, value.AsStableId(), order);
      ExactAfter(left.s, h.s, me.id);
    }
  }

  lemma ObjectCreatingExact(s: State, me: Peer, o: RemoteObject, order: Orders)
    requires RoomsKept(s) && Fits(s, me) && Enrolled(s, me) && Enumerates(order.peers, s.peers.Keys)
    requires me.Authenticated() && Anonymous(s) && Exact(s) && MeExact(s, me)
    ensures var h := ObjectCreating(s, me, o, order); Exact(h.s) && MeExact(h.s, h.me)
  {
    hide Look, SendUpdate;
    var me1 := me.(objects := me.objects[o.id := o]);
    var s1 := if o.ty == ROOM_TYPE then CreateRoom(s, me1, o.id, order.peers) else s;
    if o.ty == ROOM_TYPE {
      CreateRoomKeeps(s, me1, o.id, order.peers);
      CreateRoomLists(s, me1, o.id, order.peers);
    }
    assert Exact(s1) && MeExact(s1, me1);
    SendUpdateKeeps(s1, me1, o.ty, ObjectCreated(me.id, o));
    ExactAfter(s1, ObjectCreating(s, me, o, order).s, me.id);
  }

  lemma ObjectUpdatingExact(s: State, me: Peer, id: Id, key: Key, value: Value)
    requires RoomsKept(s) && Fits(s, me) && Exact(s) && MeExact(s, me)
    ensures var h := ObjectUpdating(s, me, id, key, value); Exact(h.s) && MeExact(h.s, h.me)
  {
    hide Look, SendUpdate;
    if id in me.objects {
      var h := ObjectUpdating(s, me, id, key, value);
      SendUpdateKeeps(s, h.me, h.me.objects[id].ty, ObjectUpdated(me.id, id, key, value));
      ExactAfter(s, h.s, me.id);
    }
  }

  lemma ObjectRemovingExact(s: State, me: Peer, id: Id)
    requires RoomsKept(s) && Fits(s, me) && me.Authenticated() && Exact(s) && MeExact(s, me)
    ensures var h := ObjectRemoving(s, me, id); Exact(h.s) && MeExact(h.s, h.me)
  {
    hide Look, SendUpdate;
    if id in me.objects {
      var h := ObjectRemoving(s, me, id);
      var ty := me.objects[id].ty;
      var s1 := if ty == ROOM_TYPE then s.(rooms := s.rooms - {StableId(me.key, id)}) else s;
      EnrolledAfter(s, s1, me.id);
      SendUpdateKeeps(s1, h.me, ty, ObjectRemoved(me.id, id));
      ExactAfter(s1, h.s, me.id);
    }
  }

  lemma UpdatingExact(s: State, me: Peer, e: Event, order: Orders)
    requires RoomsKept(s) && Fits(s, me) && Enrolled(s, me) && OrdersFit(s, me, e, order) && IsUpdate(e)
    requires me.Authenticated() && Anonymous(s) && Exact(s) && MeExact(s, me)
    ensures var h := Updating(s, me, e, order); Exact(h.s) && MeExact(h.s, h.me)
  {
    hide RoomsKept, Fits, Enrolled, Exact, MeExact, PeerUpdating, ObjectCreating, ObjectUpdating, ObjectRemoving;
    match e {
      case PeerUpdate(key, value) => PeerUpdatingExact(s, me, key, value, order);
      case ObjectCreate(o) => ObjectCreatingExact(s, me, o, order);
      case ObjectUpdate(id, key, value) => ObjectUpdatingExact(s, me, id, key, value);
      case ObjectRemove(id) => ObjectRemovingExact(s, me, id);
    }
  }

  // ----- Runs in which every peer is where it is listed

  /** Connects keep the peer's place. */
  ghost predicate InputsOrderly(s: State, me: Peer, inputs: seq<Input>)
    decreases |inputs|
  {
    inputs != [] ==>
      var r := Handle(s, me, inputs[0].event, inputs[0].order);
      r.Some? ==>
        && (inputs[0].event.Connect? ==> KeepsPlace(s, me, inputs[0].event))
        && InputsOrderly(r.value.s, r.value.me, inputs[1..])
  }

  /** The id that is about to be issued again is still listed from its last use. */
  ghost predicate ReissuesListed(s: State) {
    s.ids.free != [] && exists room :: room in s.rooms && s.ids.free[0] in s.rooms[room]
  }

  ghost predicate StepOrderly(s: State, step: Step) {
    match step
    case Accept => !ReissuesListed(s)
    case Popped(_) => true
    case Dispatch(id, inputs, _) => id in s.peers ==> InputsOrderly(s.(peers := s.peers - {id}), s.peers[id], inputs)
  }

  /** Such a history ends here. */
  ghost predicate ReachableOrderly(s: State) {
    exists states, steps :: History(states, steps) && Orderly(states, steps) && s == states[|steps|]
  }

  ghost predicate Orderly(states: seq<State>, steps: seq<Step>) {
    |steps| <= |states| && forall i :: 0 <= i < |steps| ==> StepOrderly(states[i], steps[i])
  }

  /** The lists name only ids that have been issued. */
  ghost predicate ListedIssued(s: State) {
    forall room, q :: room in s.rooms && q in s.rooms[room] ==> q in Issued(s.ids.seed, s.ids.last)
  }

  /** Membership is exact, and nobody is listed who was never connected. */
  ghost predicate Settled(s: State) { Exact(s) && Anonymous(s) && ListedIssued(s) }

  ghost predicate MeSettled(s: State, me: Peer) {
    MeExact(s, me) && (!me.Authenticated() ==> me.Room() == ZERO_ROOM)
  }

  lemma AnonymousAfter(s: State, t: State, me: PeerId)
    requires Anonymous(s) && OnlyAbout(s, t, me)
    ensures Anonymous(t)
  {
    forall q | q in t.peers && !t.peers[q].Authenticated()
      ensures t.peers[q].Room() == ZERO_ROOM
    {
      assert t.peers[q] == s.peers[q].(out := t.peers[q].out);
    }
  }

  lemma PeerUpdatingLists(s: State, me: Peer, key: Key, value: Value, order: Orders)
    requires RoomsKept(s) && Fits(s, me)
    ensures var h := PeerUpdating(s, me, key, value, order);
            forall room, q :: room in h.s.rooms && q in h.s.rooms[room] ==>
              q == me.id || (room in s.rooms && q in s.rooms[room])
  {
    hide Look, SendToAll, LeaveRoom, JoinRoom;
    PeerUpdatedKeeps(s, me, key, value);
    var s1 := SendToAll(s, me.id, PeerUpdated(me.id, key, value));
    var me1 := me.(props := Inserted(me.props, key, value));
    LeaveRoomKeeps(s1, me1, me.Room());
    var left := LeaveRoom(s1, me1, me.Room());
    FitsAfter(s1, left.s, left.me);
    JoinLists(left.s, left.me, value.AsStableId(), order);
  }

  /** Whoever an event lists was listed before or is connected. */
  lemma HandleLists(s: State, me: Peer, e: Event, order: Orders)
    requires RoomsKept(s) && Fits(s, me) && OrdersFit(s, me, e, order) && Handle(s, me, e, order).Some?
    ensures var h := Handle(s, me, e, order).value;
            forall room, q :: room in h.s.rooms && q in h.s.rooms[room] ==>
              q in s.peers || q == me.id || (room in s.rooms && q in s.rooms[room])
  {
    hide Look;
    match e {
      case Connect(_, _, _, _) =>
        hide Connecting, CreatesRoom;
        ConnectingLists(s, me, e, order);
      case PeerUpdate(key, value) =>
        hide PeerUpdating;
        PeerUpdatingLists(s, me, key, value, order);
      case ObjectCreate(o) =>
        hide SendUpdate;
        var me1 := me.(objects := me.objects[o.id := o]);
        var s1 := if o.ty == ROOM_TYPE then CreateRoom(s, me1, o.id, order.peers) else s;
        if o.ty == ROOM_TYPE {
          CreateRoomKeeps(s, me1, o.id, order.peers);
          CreateRoomLists(s, me1, o.id, order.peers);
        }
        SendUpdateKeeps(s1, me1, o.ty, ObjectCreated(me.id, o));
      case ObjectUpdate(id, key, value) =>
        hide SendUpdate;
        if id in me.objects {
          var h := ObjectUpdating(s, me, id, key, value);
          SendUpdateKeeps(s, h.me, h.me.objects[id].ty, ObjectUpdated(me.id, id, key, value));
        }
      case ObjectRemove(id) =>
        hide SendUpdate;
        if id in me.objects {
          var h := ObjectRemoving(s, me, id);
          var ty := me.objects[id].ty;
          var s1 := if ty == ROOM_TYPE then s.(rooms := s.rooms - {StableId(me.key, id)}) else s;
          SendRooms(s1, h.me, ty, ObjectRemoved(me.id, id));
        }
      case _ =>
    }
  }

  lemma HandleSettled(s: State, me: Peer, e: Event, order: Orders)
    requires SoundWith(s, me) && OrdersFit(s, me, e, order) && Handle(s, me, e, order).Some?
    requires Settled(s) && MeSettled(s, me) && (e.Connect? ==> KeepsPlace(s, me, e))
    ensures var h := Handle(s, me, e, order).value; Settled(h.s) && MeSettled(h.s, h.me)
  {
    hide Look, Connecting, Updating, RoomsKept, Fits, Enrolled, Exact, MeExact, Anonymous, OnlyAbout;
    hide KeysDistinct, OthersAgree, MeAgrees, Issued;
    var h := Handle(s, me, e, order).value;
    HandleKeepsRooms(s, me, e, order);
    AnonymousAfter(s, h.s, me.id);
    HandleLists(s, me, e, order);
    KeyAfter(s, me, e, order);
    match e {
      case Connect(_, _, _, _) => ConnectingExact(s, me, e, order);
      case Ping(payload) => SameRoom(s, me, h.me);
      case Hello(nonce) => SameRoom(s, me, h.me);
      case _ => UpdatingExact(s, me, e, order);
    }
    assert h.s.ids == s.ids by { SameIds(s, h.s, me.id); }
    forall room, q | room in h.s.rooms && q in h.s.rooms[room]
      ensures q in Issued(h.s.ids.seed, h.s.ids.last)
    {
      if !(room in s.rooms && q in s.rooms[room]) { assert q in s.peers.Keys + {me.id}; }
    }
  }

  lemma SameRoom(s: State, me: Peer, me': Peer)
    requires MeExact(s, me) && me'.id == me.id && me'.key == me.key && me'.props == me.props
    ensures MeExact(s, me')
  {
  }

  lemma SameIds(s: State, t: State, me: PeerId)
    requires OnlyAbout(s, t, me)
    ensures t.ids == s.ids
  {
  }

  lemma {:induction false} HandleAllSettled(s: State, me: Peer, inputs: seq<Input>, failing: bool)
    requires SoundWith(s, me) && InputsFit(s, me, inputs) && InputsOrderly(s, me, inputs)
    requires Settled(s) && MeSettled(s, me)
    ensures Settled(HandleAll(s, me, inputs, failing))
    decreases |inputs|
  {
    hide SoundWith, Settled, MeSettled, Handle, OrdersFit;
    DropSettled(s, me);
    InsertSettled(s, me);
    if inputs != [] {
      var r := Handle(s, me, inputs[0].event, inputs[0].order);
      if r.Some? {
        HandleSettled(s, me, inputs[0].event, inputs[0].order);
        SoundAgrees(s, me);
        assert Harmless(Identity, s, me, inputs[0].event, inputs[0].order);
        HandleSound(Identity, s, me, inputs[0].event, inputs[0].order);
        HandleAllSettled(r.value.s, r.value.me, inputs[1..], failing);
      }
    }
  }

  lemma InsertSettled(s: State, me: Peer)
    requires SoundWith(s, me) && Settled(s) && MeSettled(s, me)
    ensures Settled(Insert(s, me))
  {
    hide Look, Allocator.Partition, RoomsKept, Enrolled, KeysDistinct, OthersAgree, MeAgrees, Issued;
    var t := Insert(s, me);
    forall room, q | room in t.rooms && q in t.rooms[room] && q in t.peers
      ensures Belongs(t.peers[q], room)
    {
      if q != me.id { assert Belongs(s.peers[q], room); }
    }
  }

  lemma DropSettled(s: State, me: Peer)
    requires SoundWith(s, me) && Settled(s) && MeSettled(s, me)
    ensures Settled(Drop(s, me))
  {
    hide Look, Allocator.Partition, RoomsKept, Enrolled, KeysDistinct, OthersAgree, MeAgrees, Issued;
    var s1 := s.(ids := s.ids.Free(me.id));
    var t := Drop(s, me);
    SendToAllSeen(s1, me.id, PeerDisconnected(me.id));
    assert OnlyAbout(s1, t, me.id);
    AnonymousAfter(s1, t, me.id);
    ExactAfter(s1, t, me.id);
  }

  function Entered(s: State, id: PeerId, ids: Allocator): State {
    s.(ids := ids, peers := s.peers[id := NewPeer(id)], poll := s.poll + {id})
  }

  lemma AcceptingIs(s: State)
    ensures s.ids.free != [] ==> Accepting(s) == Entered(s, s.ids.free[0], s.ids.(free := s.ids.free[1..]))
    ensures s.ids.free == [] && s.ids.last + 1 < WORD ==>
              Accepting(s) == Entered(s, Hash.Map(s.ids.last + 1, s.ids.seed), s.ids.(last := s.ids.last + 1))
    ensures s.ids.free == [] && s.ids.last + 1 == WORD ==> Accepting(s) == s
  {
    hide Hash.Map;
  }

  /** Accepting keeps memberships exact exactly when the issued id is listed nowhere. */
  lemma AcceptExact(s: State)
    requires Settled(s)
    ensures Exact(Accepting(s)) <==> !ReissuesListed(s)
    ensures Exact(Accepting(s)) ==> Settled(Accepting(s))
  {
    hide Issued, Accepting, Entered, Hash.Map;
    AcceptingIs(s);
    if s.ids.free != [] {
      EnterExact(s, s.ids.free[0], s.ids.(free := s.ids.free[1..]));
    } else if s.ids.last + 1 < WORD {
      IssuedStep(s.ids.seed, s.ids.last);
      EnterExact(s, Hash.Map(s.ids.last + 1, s.ids.seed), s.ids.(last := s.ids.last + 1));
    }
  }

  /** Somebody is connected: all is well exactly when nobody has listed the id. */
  lemma EnterExact(s: State, id: PeerId, ids: Allocator)
    requires Settled(s) && ids.seed == s.ids.seed
    requires Issued(s.ids.seed, s.ids.last) <= Issued(ids.seed, ids.last)
    ensures var t := Entered(s, id, ids);
            && (Exact(t) <==> forall room :: room in s.rooms ==> id !in s.rooms[room])
            && (Exact(t) ==> Settled(t))
  {
    hide Issued;
    var t := Entered(s, id, ids);
    if forall room :: room in s.rooms ==> id !in s.rooms[room] {
      forall room, q | room in t.rooms && q in t.rooms[room] && q in t.peers
        ensures Belongs(t.peers[q], room)
      {
        assert Belongs(s.peers[q], room);
      }
    } else {
      var room :| room in s.rooms && id in s.rooms[room];
      assert !Belongs(t.peers[id], room);
    }
  }

  lemma StepSettled(s: State, step: Step)
    requires Sound(s) && Settled(s) && StepFits(s, step) && StepOrderly(s, step)
    ensures Settled(Next(s, step))
  {
    hide Sound, SoundWith, InputsFit, InputsOrderly, HandleAll, OthersAgree, MeAgrees, Issued, Accepting;
    match step {
      case Accept => AcceptExact(s);
      case Popped(_) =>
      case Dispatch(id, inputs, failing) =>
        if id in s.peers {
          SoundIdentity(s);
          TakeOut(Identity, s, id);
          TakeOutSettled(s, id);
          HandleAllSettled(s.(peers := s.peers - {id}), s.peers[id], inputs, failing);
        }
    }
  }

  lemma TakeOutSettled(s: State, id: PeerId)
    requires Sound(s) && Settled(s) && id in s.peers
    ensures Settled(s.(peers := s.peers - {id})) && MeSettled(s.(peers := s.peers - {id}), s.peers[id])
  {
    hide Look, Issued, RoomsKept, KeysDistinct, OthersAgree, Allocator.Partition;
    assert s.peers[id].id == id;
  }

  lemma FreshSettled(seed: U32)
    ensures Settled(FreshState(seed))
  {
  }

  lemma {:induction false} HistorySettled(states: seq<State>, steps: seq<Step>, i: nat)
    requires History(states, steps) && Orderly(states, steps) && i < |states|
    ensures Settled(states[i])
    decreases i
  {
    hide Sound, Settled, StepFits, StepOrderly, Next;
    if i == 0 {
      var seed: U32 :| states[0] == FreshState(seed);
      FreshSettled(seed);
    } else {
      HistorySettled(states, steps, i - 1);
      HistorySound(states, steps, i - 1);
      StepSettled(states[i - 1], steps[i - 1]);
    }
  }

  /**
   * As long as no id is issued again that is still listed and every connect keeps its place, the
   * connected peers a room lists are exactly the authenticated peers that have chosen it.
   */
  lemma MembersAreHolders(s: State, room: StableId, p: PeerId)
    requires ReachableOrderly(s) && room in s.rooms && p in s.peers
    ensures p in s.rooms[room] <==> s.peers[p].Authenticated() && s.peers[p].Room() == room
  {
    hide Look, StepFits, StepOrderly, Next, Issued, KeysDistinct, OthersAgree, Allocator.Partition;
    var states, steps :| History(states, steps) && Orderly(states, steps) && s == states[|steps|];
    HistorySettled(states, steps, |steps|);
    HistorySound(states, steps, |steps|);
    assert Enrolled(s, s.peers[p]);
    assert p in s.rooms[room] ==> Belongs(s.peers[p], room);
  }
}
