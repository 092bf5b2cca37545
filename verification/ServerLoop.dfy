/** The server's state, changed in place as the source does, against the functions of `Server`. */
module ServerLoop {
  import opened Options
  import opened Words
  import opened Values
  import opened Protocol
  import opened Identifiers
  import opened Server

  function PushedTo(peers: map<PeerId, Peer>, to: set<PeerId>, m: Msg): map<PeerId, Peer> {
    map id | id in peers :: if id in to then peers[id].Push(m) else peers[id]
  }

  lemma PushedToOne(peers: map<PeerId, Peer>, done: set<PeerId>, id: PeerId, m: Msg)
    requires id in peers && id !in done
    ensures id in PushedTo(peers, done, m) && PushedTo(peers, done, m)[id] == peers[id]
    ensures PushedTo(peers, done + {id}, m) == PushedTo(peers, done, m)[id := peers[id].Push(m)]
  {
    hide Peer.Push;
  }

  lemma PushedToAll(s: State, me: PeerId, m: Msg)
    ensures SendToAll(s, me, m)
            == s.(peers := PushedTo(s.peers, s.peers.Keys - {me}, m), poll := s.poll + (s.peers.Keys - {me}))
  {
    hide Peer.Push;
  }

  class Relay {
    const ids: Ids
    var peers: map<PeerId, Peer>
    var rooms: map<StableId, Members>
    var poll: set<PeerId>

    ghost function Value(): State
      reads this, ids
    {
      State(ids.Value(), peers, rooms, poll)
    }

    constructor (seed: U32)
      ensures Value() == FreshState(seed) && fresh(ids)
    {
      ids := new Ids(seed);
      peers, rooms, poll := map[], map[ZERO_ROOM := []], {};
    }

    // ----- Sending

    method SendToAll(me: PeerId, m: Msg)
      modifies this
      ensures Value() == Server.SendToAll(old(Value()), me, m)
    {
      hide Peer.Push;
      ghost var before, polled := peers, poll;
      var todo := peers.Keys - {me};
      ghost var done: set<PeerId> := {};
      assert peers == PushedTo(before, done, m);
      while todo != {}
        invariant done + todo == before.Keys - {me} && done !! todo
        invariant peers == PushedTo(before, done, m)
        invariant poll == polled + done
        invariant rooms == old(rooms)
        decreases todo
      {
        hide PushedTo;
        var id :| id in todo;
        PushedToOne(before, done, id, m);
        peers := peers[id := peers[id].Push(m)];
        poll := poll + {id};
        todo, done := todo - {id}, done + {id};
      }
      PushedToAll(old(Value()), me, m);
    }

    method SendToRoom(me: Peer, m: Msg)
      modifies this
      ensures Value() == Server.SendToRoom(old(Value()), me, m)
    {
      if me.Room() !in rooms {
        return;
      }
      var members := rooms[me.Room()];
      for i := 0 to |members|
        invariant SendToMembers(Value(), me.id, members[i..], m) == Server.SendToRoom(old(Value()), me, m)
      {
        if members[i] == me.id {
          continue;
        }
        if members[i] in peers {
          peers := peers[members[i] := peers[members[i]].Push(m)];
          poll := poll + {members[i]};
        }
      }
    }

    /** Global objects are everyone's business, others only the room's. */
    method SendUpdate(me: Peer, ty: TypeId, m: Msg)
      modifies this
      ensures Value() == Server.SendUpdate(old(Value()), me, ty, m)
    {
      if IsGlobal(ty) {
        SendToAll(me.id, m);
      } else {
        SendToRoom(me, m);
      }
    }

    // ----- Rooms

    method CreateRoom(me: Peer, obj: Id, order: seq<PeerId>)
      modifies this
      ensures Value() == Server.CreateRoom(old(Value()), me, obj, order)
    {
      var room := StableId(me.key, obj);
      var members: Members := [];
      for i := 0 to |order|
        invariant members + Holders(peers, order[i..], room) == Holders(peers, order, room)
      {
        if order[i] in peers && peers[order[i]].Room() == room {
          members := members + [order[i]];
        }
      }
      assert members == Holders(peers, order, room);
      if me.Room() == room {
        members := members + [me.id];
      } else {
        assert members == members + [];
      }
      rooms := rooms[room := members];
    }

    method JoinRoom(me: Peer, room: StableId, order: Orders) returns (me': Peer)
      modifies this
      ensures Handled(Value(), me') == Server.JoinRoom(old(Value()), me, room, order)
    {
      me' := me;
      if room !in rooms {
        return;
      }
      var members := rooms[room];
      for i := 0 to |members|
        invariant rooms == old(rooms) && me'.id == me.id
        invariant JoinMembers(Value(), me', members[i..], order) == JoinMembers(old(Value()), me, members, order)
      {
        var id := members[i];
        if id !in peers {
          continue;
        }
        var other := peers[id];
        var own := SelectObjects(me'.objects, order.own);
        peers := peers[id := other.Push(PeerJoin(me'.id, own))];
        poll := poll + {id};
        var theirs := SelectObjects(other.objects, Ordered(order, id));
        me' := me'.Push(PeerJoin(id, theirs));
        poll := poll + {me'.id};
      }
      if me'.id !in members {
        rooms := rooms[room := members + [me'.id]];
      }
    }

    method LeaveRoom(me: Peer, room: StableId) returns (me': Peer)
      modifies this
      ensures Handled(Value(), me') == Server.LeaveRoom(old(Value()), me, room)
    {
      me' := me;
      if room !in rooms {
        return;
      }
      var members := Without(rooms[room], me.id);
      rooms := rooms[room := members];
      for i := 0 to |members|
        invariant me'.id == me.id
        invariant LeaveMembers(Value(), me', members[i..])
                  == LeaveMembers(old(Value()).(rooms := old(rooms)[room := members]), me, members)
      {
        var id := members[i];
        if id !in peers {
          continue;
        }
        peers := peers[id := peers[id].Push(PeerLeave(me.id))];
        poll := poll + {me.id};
        me' := me'.Push(PeerLeave(id));
      }
    }

    // ----- Connecting

    /** The others are told of a peer and its global objects. */
    method Announce(me: Peer, order: Orders)
      modifies this
      ensures Value() == SendEach(old(Value()), me.id, Announcement(me, order.own))
    {
      hide Server.SendToAll, Announcement;
      var news := Announcement(me, order.own);
      for i := 0 to |news|
        invariant SendEach(Value(), me.id, news[i..]) == SendEach(old(Value()), me.id, news)
      {
        SendToAll(me.id, news[i]);
      }
    }

    /** A peer is told of the others and their global objects. */
    method Introduce(me: Peer, order: Orders) returns (me': Peer)
      modifies `poll
      ensures me' == me.(out := me.out + Introductions(peers, order.peers, order))
      ensures poll == old(poll) + if peers == map[] then {} else {me.id}
    {
      hide Announcement, Peer.Push;
      me' := me;
      for i := 0 to |order.peers|
        invariant me' == me.(out := me'.out)
        invariant me'.out + Introductions(peers, order.peers[i..], order) == me.out + Introductions(peers, order.peers, order)
      {
        var id := order.peers[i];
        if id in peers {
          me' := me'.(out := me'.out + Announcement(peers[id], Ordered(order, id)));
        }
      }
      if peers != map[] {
        poll := poll + {me.id};
      }
    }

    method Connected(me: Peer, order: Orders) returns (me': Peer)
      modifies this
      ensures Handled(Value(), me') == Server.Connected(old(Value()), me, order)
    {
      hide SendEach, Introductions, Announcement;
      Announce(me, order);
      SendEachKeeps(old(Value()), me.id, Announcement(me, order.own));
      IntroductionsKept(old(peers), peers, order.peers, order);
      assert peers == map[] <==> old(peers) == map[] by {
        assert peers.Keys == {} <==> peers == map[];
        assert old(peers).Keys == {} <==> old(peers) == map[];
      }
      me' := Introduce(me, order);
    }

    method TakeObjects(me: Peer, objects: seq<RemoteObject>, order: seq<PeerId>) returns (me': Peer)
      modifies this
      ensures Handled(Value(), me') == Server.TakeObjects(old(Value()), me, objects, order)
    {
      me' := me;
      for i := 0 to |objects|
        invariant Server.TakeObjects(Value(), me', objects[i..], order) == Server.TakeObjects(old(Value()), me, objects, order)
      {
        if objects[i].ty == ROOM_TYPE {
          CreateRoom(me', objects[i].id, order);
        }
        me' := me'.(objects := me'.objects[objects[i].id := objects[i]]);
      }
    }

    /** Even before the introductions, the global objects of the others. */
    method SendEarly(me: Peer, order: Orders) returns (me': Peer)
      ensures me' == me.(out := me.out + EarlyObjects(peers, order.peers, order))
    {
      hide Listed, Created;
      me' := me;
      for i := 0 to |order.peers|
        invariant me' == me.(out := me'.out)
        invariant me'.out + EarlyObjects(peers, order.peers[i..], order) == me.out + EarlyObjects(peers, order.peers, order)
      {
        var id := order.peers[i];
        if id in peers {
          me' := me'.(out := me'.out + Created(id, Listed(peers[id].objects, Ordered(order, id), true)));
        }
      }
    }

    method Connect(me: Peer, e: Event, order: Orders) returns (ok: bool, me': Peer)
      requires e.Connect?
      modifies this
      ensures ok <==> me.challenge.Some? && e.signed && e.key != 0
                      && forall id :: id in old(peers) ==> old(peers)[id].key != e.key
      ensures ok ==> Handled(Value(), me') == Connecting(old(Value()), me, e, order)
      ensures !ok ==> Value() == old(Value()) && me'.id == me.id
    {
      hide Server.TakeObjects, EarlyObjects, Server.Connected, Server.JoinRoom;
      me' := me.(challenge := None);
      if me.challenge.None? || !Verified(e.key, e.signed) || exists id :: id in peers && peers[id].key == e.key {
        return false, me';
      }
      me' := me'.(key := e.key, props := e.props);
      assert me' == me.(key := e.key, props := e.props, challenge := None);
      me' := TakeObjects(me', e.objects, order.peers);
      me' := SendEarly(me', order);
      me' := Connected(me', order);
      me' := JoinRoom(me', me'.Room(), order);
      ok := true;
    }

    // ----- Events

    method Handle(me: Peer, e: Event, order: Orders) returns (ok: bool, me': Peer)
      modifies this
      ensures ok == Server.Handle(old(Value()), me, e, order).Some?
      ensures ok ==> Handled(Value(), me') == Server.Handle(old(Value()), me, e, order).value
      ensures !ok ==> Value() == old(Value()) && me'.id == me.id
    {
      ok, me' := true, me;
      match e {
        case Ping(payload) =>
          me' := me.Push(Pong(payload));
        case Hello(nonce) =>
          if me.challenge.Some? {
            return false, me;
          }
          me' := me.Push(Challenge(nonce)).(challenge := Some(nonce));
        case Connect(_, _, _, _) =>
          ok, me' := Connect(me, e, order);
        case Unsupported =>
          ok := false;
        case _ =>
          if !me.Authenticated() {
            return false, me;
          }
          me' := Update(me, e, order);
      }
    }

    method Update(me: Peer, e: Event, order: Orders) returns (me': Peer)
      requires IsUpdate(e)
      modifies this
      ensures Handled(Value(), me') == Updating(old(Value()), me, e, order)
    {
      me' := me;
      match e {
        case PeerUpdate(key, value) =>
          var old' := Get(me.props, key);
          me' := me.(props := Inserted(me.props, key, value));
          SendToAll(me.id, PeerUpdated(me.id, key, value));
          if key == ROOM {
            me' := LeaveRoom(me', old'.AsStableId());
            me' := JoinRoom(me', value.AsStableId(), order);
          }
        case ObjectCreate(o) =>
          me' := me.(objects := me.objects[o.id := o]);
          if o.ty == ROOM_TYPE {
            CreateRoom(me', o.id, order.peers);
          }
          SendUpdate(me', o.ty, ObjectCreated(me.id, o));
        case ObjectUpdate(id, key, value) =>
          if id in me.objects {
            var o := me.objects[id];
            o := o.(props := Inserted(o.props, key, value));
            me' := me.(objects := me.objects[id := o]);
            SendUpdate(me', o.ty, ObjectUpdated(me.id, id, key, value));
          }
        case ObjectRemove(id) =>
          if id in me.objects {
            var ty := me.objects[id].ty;
            me' := me.(objects := me.objects - {id});
            if ty == ROOM_TYPE {
              rooms := rooms - {StableId(me.key, id)};
            }
            SendUpdate(me', ty, ObjectRemoved(me.id, id));
          }
      }
    }

    // ----- The arms of the loop

    method AcceptPeer()
      modifies this, ids
      ensures Value() == Next(old(Value()), Accept)
    {
      var id := ids.Next();
      if id.None? {
        return;
      }
      peers := peers[id.value := NewPeer(id.value)];
      poll := poll + {id.value};
    }

    method RemovePeer(me: Peer)
      modifies this, ids
      ensures Value() == Drop(old(Value()), me)
    {
      ids.Free(me.id);
      SendToAll(me.id, PeerDisconnected(me.id));
      poll := poll - {me.id};
    }

    /** A peer is taken out, its events are handled, and it is put back or dropped. */
    method DispatchPeer(id: PeerId, inputs: seq<Input>, failing: bool)
      modifies this, ids
      ensures Value() == Next(old(Value()), Dispatch(id, inputs, failing))
    {
      if id !in peers {
        return;
      }
      var me := peers[id];
      peers := peers - {id};
      for i := 0 to |inputs|
        invariant HandleAll(Value(), me, inputs[i..], failing) == Next(old(Value()), Dispatch(id, inputs, failing))
      {
        var ok, me1 := Handle(me, inputs[i].event, inputs[i].order);
        if !ok {
          RemovePeer(me);
          return;
        }
        me := me1;
      }
      if failing {
        RemovePeer(me);
      } else {
        peers := peers[me.id := me];
        poll := poll + {me.id};
      }
    }
  }

  /** The objects that are not global, in iteration order. */
  method SelectObjects(objects: Objects, order: seq<Id>) returns (list: seq<RemoteObject>)
    ensures list == Listed(objects, order, false)
  {
    list := [];
    for i := 0 to |order|
      invariant list + Listed(objects, order[i..], false) == Listed(objects, order, false)
    {
      if order[i] in objects && !IsGlobal(objects[order[i]].ty) {
        list := list + [objects[order[i]]];
      }
    }
  }

  /** Announcing leaves the other peers' records as they were. */
  lemma {:induction false} SendEachKeeps(s: State, me: PeerId, ms: seq<Msg>)
    ensures var t := SendEach(s, me, ms);
            && t.peers.Keys == s.peers.Keys
            && forall q :: q in s.peers ==> t.peers[q] == s.peers[q].(out := t.peers[q].out)
    decreases |ms|
  {
    if ms != [] { SendEachKeeps(SendToAll(s, me, ms[0]), me, ms[1..]); }
  }

  lemma {:induction false} IntroductionsKept(a: map<PeerId, Peer>, b: map<PeerId, Peer>, ids: seq<PeerId>, order: Orders)
    requires b.Keys == a.Keys && forall q :: q in a ==> b[q] == a[q].(out := b[q].out)
    ensures Introductions(a, ids, order) == Introductions(b, ids, order)
    decreases |ids|
  {
    if ids != [] {
      if ids[0] in a { assert b[ids[0]] == a[ids[0]].(out := b[ids[0]].out); }
      IntroductionsKept(a, b, ids[1..], order);
    }
  }
}
