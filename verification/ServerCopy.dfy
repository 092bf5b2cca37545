/** The server's record of a client is the copy that the client's changes are meant for. */
module ServerCopy {
  import opened Options
  import opened Values
  import opened Protocol
  import opened Identifiers
  import opened Server
  import opened LocalState
  import opened DirtySets
  import opened Aspects
  import opened Runs
  import opened Strays
  import opened Sharing

  predicate IsEvent(m: Change) { !m.ImageCreation? && !m.ImageRemoval? }

  function EventOf(m: Change): Event
    requires IsEvent(m)
  {
    match m
    case PropertyChange(key, value) => PeerUpdate(key, value)
    case ObjectChange(id, key, value) => ObjectUpdate(id, key, value)
    case ObjectCreation(obj) => ObjectCreate(obj)
    case ObjectRemoval(id) => ObjectRemove(id)
  }

  function CopyOf(p: Peer): Copy { Copy(p.props, p.objects, map[]) }

  lemma {:induction false} JoinMembersCopy(s: State, me: Peer, members: Members, order: Orders)
    ensures var h := JoinMembers(s, me, members, order); h.me == me.(out := h.me.out)
    decreases |members|
  {
    if members == [] {
    } else if members[0] !in s.peers {
      JoinMembersCopy(s, me, members[1..], order);
    } else {
      var h := JoinOne(s, me, members[0], order);
      JoinMembersCopy(h.s, h.me, members[1..], order);
    }
  }

  lemma {:induction false} LeaveMembersCopy(s: State, me: Peer, members: Members)
    ensures var h := LeaveMembers(s, me, members); h.me == me.(out := h.me.out)
    decreases |members|
  {
    if members == [] {
    } else if members[0] !in s.peers {
      LeaveMembersCopy(s, me, members[1..]);
    } else {
      var h := LeaveOne(s, me, members[0]);
      LeaveMembersCopy(h.s, h.me, members[1..]);
    }
  }

  lemma JoinRoomCopy(s: State, me: Peer, room: StableId, order: Orders)
    ensures var h := JoinRoom(s, me, room, order); h.me == me.(out := h.me.out)
  {
    if room in s.rooms { JoinMembersCopy(s, me, s.rooms[room], order); }
  }

  lemma LeaveRoomCopy(s: State, me: Peer, room: StableId)
    ensures var h := LeaveRoom(s, me, room); h.me == me.(out := h.me.out)
  {
    if room in s.rooms {
      var members := Without(s.rooms[room], me.id);
      LeaveMembersCopy(s.(rooms := s.rooms[room := members]), me, members);
    }
  }

  /** The server takes in a change exactly as the copy is meant to. */
  lemma ServerApplies(s: State, me: Peer, m: Change, order: Orders)
    requires IsEvent(m)
    ensures CopyOf(Updating(s, me, EventOf(m), order).me) == Applied1(CopyOf(me), m)
    ensures var h := Updating(s, me, EventOf(m), order); h.me.id == me.id && h.me.key == me.key
  {
    hide SendToAll, SendUpdate, JoinRoom, LeaveRoom, CreateRoom;
    match m
    case PropertyChange(key, value) =>
      if key == ROOM {
        var me1 := me.(props := Inserted(me.props, key, value));
        var s1 := SendToAll(s, me.id, PeerUpdated(me.id, key, value));
        LeaveRoomCopy(s1, me1, Get(me.props, ROOM).AsStableId());
        var left := LeaveRoom(s1, me1, Get(me.props, ROOM).AsStableId());
        JoinRoomCopy(left.s, left.me, value.AsStableId(), order);
      }
    case _ =>
  }

  function IdsOf(objects: seq<RemoteObject>): set<Id> { set r | r in objects :: r.id }

  lemma {:induction false} TakeObjectsCopy(s: State, me: Peer, objects: seq<RemoteObject>, order: seq<PeerId>)
    ensures var h := TakeObjects(s, me, objects, order);
            && h.me == me.(objects := h.me.objects)
            && h.me.objects.Keys == me.objects.Keys + IdsOf(objects)
            && forall id :: id in h.me.objects ==>
                 if id in IdsOf(objects) then h.me.objects[id] in objects && h.me.objects[id].id == id
                 else id in me.objects && h.me.objects[id] == me.objects[id]
    decreases |objects|
  {
    hide CreateRoom;
    if objects != [] {
      var o := objects[0];
      var s1 := if o.ty == ROOM_TYPE then CreateRoom(s, me, o.id, order) else s;
      TakeObjectsCopy(s1, me.(objects := me.objects[o.id := o]), objects[1..], order);
      assert objects == [o] + objects[1..];
      assert IdsOf(objects) == {o.id} + IdsOf(objects[1..]);
    }
  }

  /** Connecting leaves the server with what was handed over, on top of what an earlier connect had left. */
  lemma ServerTakes(s: State, me: Peer, l: Local, e: Event, order: Orders)
    requires WellMarked(l)
    requires e.Connect? && e.props == Snapshot(l).props
    requires forall r :: r in e.objects <==> r.id in Snapshot(l).objects && Snapshot(l).objects[r.id] == r
    ensures CopyOf(Connecting(s, me, e, order).me) == Copy(Snapshot(l).props, me.objects + Snapshot(l).objects, map[])
  {
    hide TakeObjects, EarlyObjects, JoinRoom;
    var me1 := me.(key := e.key, props := e.props, challenge := None);
    TakeObjectsCopy(s, me1, e.objects, order.peers);
    var h := TakeObjects(s, me1, e.objects, order.peers);
    forall id
      ensures id in IdsOf(e.objects) <==> id in l.objects
    {
      if id in l.objects {
        assert ObjectWellMarked(l.objects[id], id);
        assert Snapshot(l).objects[id] in e.objects;
      }
    }
    assert h.me.objects == me.objects + Snapshot(l).objects;
    var me2 := h.me.(out := h.me.out + EarlyObjects(h.s.peers, order.peers, order));
    assert CopyOf(Connected(h.s, me2, order).me) == CopyOf(me2);
    var h1 := Connected(h.s, me2, order);
    JoinRoomCopy(h1.s, h1.me, h1.me.Room(), order);
  }

  // ----- A whole drain

  /** The changes the relay is told of here; images travel by themselves. */
  function Told(ms: seq<Change>): seq<Change> {
    if ms == [] then []
    else
      var rest := Told(ms[..|ms| - 1]);
      if IsEvent(ms[|ms| - 1]) then rest + [ms[|ms| - 1]] else rest
  }

  lemma {:induction false} ToldApplied(c: Copy, ms: seq<Change>)
    ensures Applied(c, Told(ms)) == Applied(c, ms).(images := c.images)
  {
    if ms != [] {
      var n := |ms| - 1;
      ToldApplied(c, ms[..n]);
      if IsEvent(ms[n]) { AppliedPush(c, Told(ms[..n]), ms[n]); }
    }
  }

  lemma {:induction false} AppliedFirst(c: Copy, ms: seq<Change>)
    requires ms != []
    ensures Applied(c, ms) == Applied(Applied1(c, ms[0]), ms[1..])
  {
    AppliedConcat(c, [ms[0]], ms[1..]);
    AppliedPush(c, [], ms[0]);
    assert ms == [ms[0]] + ms[1..] && [] + [ms[0]] == [ms[0]];
  }

  /** The relay is sent these changes, to be handled in whatever orders. */
  ghost predicate Carries(inputs: seq<Input>, ms: seq<Change>) {
    && |inputs| == |ms|
    && forall i :: 0 <= i < |ms| ==> IsEvent(ms[i]) && inputs[i].event == EventOf(ms[i])
  }

  /** The relay's record after a batch of changes is the copy after them. */
  lemma {:induction false} BatchApplies(s: State, me: Peer, inputs: seq<Input>, ms: seq<Change>)
    requires Carries(inputs, ms) && me.Authenticated()
    ensures var t := HandleAll(s, me, inputs, false);
            && me.id in t.peers && t.peers[me.id].id == me.id && t.peers[me.id].key == me.key
            && CopyOf(t.peers[me.id]) == Applied(CopyOf(me), ms)
    decreases |ms|
  {
    hide Updating, Applied, Applied1, CopyOf;
    if ms == [] {
      NothingApplied(CopyOf(me));
    } else {
      assert IsEvent(ms[0]) && inputs[0].event == EventOf(ms[0]);
      ServerApplies(s, me, ms[0], inputs[0].order);
      var h := Updating(s, me, EventOf(ms[0]), inputs[0].order);
      assert Handle(s, me, inputs[0].event, inputs[0].order) == Some(h);
      BatchApplies(h.s, h.me, inputs[1..], ms[1..]);
      AppliedFirst(CopyOf(me), ms);
    }
  }

  lemma NothingApplied(c: Copy)
    ensures Applied(c, []) == c
  {
  }

  /** The relay's record and the client's own images. */
  function Held(p: Peer, images: map<Id, Image>): Copy { Copy(p.props, p.objects, images) }

  /**
   * A whole drain, dispatched by the relay in one batch, leaves it with exactly the client's objects
   * and remote properties.
   */
  lemma DrainArrives(s: State, me: Peer, images: map<Id, Image>, l: Local, order: DrainOrder, inputs: seq<Input>)
    requires me.Authenticated() && WellMarked(l) && RemovalsGone(l) && Near(Held(me, images), l) && Covers(order, l)
    requires Carries(inputs, Told(Drained(l, order)))
    ensures var t := HandleAll(s, me, inputs, false);
            && me.id in t.peers && t.peers[me.id].id == me.id && t.peers[me.id].key == me.key
            && Matches(Held(t.peers[me.id], l.images), l)
  {
    hide Applied, Told, Drained, Near, WellMarked, RemovalsGone, Covers, HandleAll;
    var ms := Drained(l, order);
    BatchApplies(s, me, inputs, Told(ms));
    ToldApplied(CopyOf(me), ms);
    ImagesApart(Held(me, images), map[], ms);
    DrainExact(Held(me, images), l, order);
  }

  /** Objects and properties do not depend on the images. */
  lemma {:induction false} ImagesApart(c: Copy, images: map<Id, Image>, ms: seq<Change>)
    ensures var d, e := Applied(c, ms), Applied(c.(images := images), ms);
            d.props == e.props && d.objects == e.objects
  {
    if ms != [] { ImagesApart(c, images, ms[..|ms| - 1]); }
  }

  /**
   * When the relay has a client's state, so have the others: its properties, its global objects, and
   * within its room, on the runs on which those are shared, all the rest.
   */
  lemma DrainSeen(s: State, id: PeerId, c: PeerId, l: Local)
    requires Reachable(s) && id in s.peers && c in s.peers && c != id
    requires s.peers[id].Authenticated() && s.peers[c].Authenticated()
    requires Matches(Held(s.peers[id], l.images), l)
    ensures var view := Fold(map[], s.peers[c].out);
            && id in view && (forall key :: Get(view[id].props, key) == Shown(l, key))
            && (ReachableUndisturbed(Globals, s) ==>
                  && GlobalPart(view[id].objects) == GlobalPart(s.peers[id].objects)
                  && forall o :: o in GlobalPart(view[id].objects) ==>
                       o in l.objects && SameObject(view[id].objects[o], l.objects[o], o))
            && (ReachableSharing(s.peers[id].Room(), s) && Together(s, s.peers[c], s.peers[id]) ==>
                  && LocalPart(view[id].objects) == LocalPart(s.peers[id].objects)
                  && forall o :: o in LocalPart(view[id].objects) ==>
                       o in l.objects && SameObject(view[id].objects[o], l.objects[o], o))
  {
    hide Fold, Reachable, ReachableUndisturbed, ReachableSharing;
    PeersReplicated(s, c, id);
    var view := Fold(map[], s.peers[c].out);
    if ReachableUndisturbed(Globals, s) {
      GlobalsReplicated(s, c, id);
      PartsMatch(view[id].objects, s.peers[id].objects, l);
    }
    if ReachableSharing(s.peers[id].Room(), s) && Together(s, s.peers[c], s.peers[id]) {
      SharingIsWell(s.peers[id].Room(), s);
      LocalsMirrored(s, s.peers[id].Room(), c, id);
      PartsMatch(view[id].objects, s.peers[id].objects, l);
    }
  }

  lemma PartsMatch(view: Objects, objects: Objects, l: Local)
    requires objects.Keys == l.objects.Keys && forall o :: o in objects ==> SameObject(objects[o], l.objects[o], o)
    ensures GlobalPart(view) == GlobalPart(objects) ==>
              forall o :: o in GlobalPart(view) ==> o in l.objects && SameObject(view[o], l.objects[o], o)
    ensures LocalPart(view) == LocalPart(objects) ==>
              forall o :: o in LocalPart(view) ==> o in l.objects && SameObject(view[o], l.objects[o], o)
  {
    hide SameObject;
    forall o | GlobalPart(view) == GlobalPart(objects) && o in GlobalPart(view)
      ensures o in l.objects && SameObject(view[o], l.objects[o], o)
    {
      assert view[o] == GlobalPart(view)[o] == GlobalPart(objects)[o] == objects[o];
    }
    forall o | LocalPart(view) == LocalPart(objects) && o in LocalPart(view)
      ensures o in l.objects && SameObject(view[o], l.objects[o], o)
    {
      assert view[o] == LocalPart(view)[o] == LocalPart(objects)[o] == objects[o];
    }
  }
}
