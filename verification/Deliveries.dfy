/** What an event puts into the queues: about whom it tells, and to whom it shows local objects. */
module Deliveries {
  import opened Options
  import opened Values
  import opened Protocol
  import opened Identifiers
  import opened Server
  import opened Effects
  import opened Rooms
  import opened Membership

  /** The message shows one of these objects that are not global, or another one. */
  ghost predicate ShowsLocal(objects: Objects, m: Msg) {
    match m
    case PeerJoin(_, list) => exists o :: o in list && !IsGlobal(o.ty)
    case ObjectCreated(_, o) => !IsGlobal(o.ty)
    case ObjectUpdated(_, id, _, _) => id in objects && !IsGlobal(objects[id].ty)
    case ObjectRemoved(_, id) => id in objects && !IsGlobal(objects[id].ty)
    case _ => false
  }

  /** What a change of `me` may tell `q`: something about `me`, and its local objects only to the audience. */
  ghost predicate Fit(me: PeerId, objects: Objects, audience: Members, q: PeerId, m: Msg) {
    m.About(me) && (ShowsLocal(objects, m) ==> q in audience)
  }

  /** Only queues have changed, and only by messages that fit. */
  ghost predicate Tells(s: State, t: State, me: PeerId, objects: Objects, audience: Members) {
    && t.peers.Keys == s.peers.Keys
    && forall q :: q in s.peers ==>
         && t.peers[q] == s.peers[q].(out := t.peers[q].out)
         && s.peers[q].out <= t.peers[q].out
         && forall i :: |s.peers[q].out| <= i < |t.peers[q].out| ==> Fit(me, objects, audience, q, t.peers[q].out[i])
  }

  /** The handled peer is told of others, and shown the local objects of the audience alone. */
  ghost predicate Hears(me: Peer, me': Peer, audience: Members) {
    && me' == me.(out := me'.out)
    && me.out <= me'.out
    && forall i :: |me.out| <= i < |me'.out| ==>
         var m := me'.out[i];
         !m.Pong? && !m.Challenge? && (ShowsLocal(map[], m) ==> m.peer in audience)
  }

  lemma TellsTransitive(s: State, t: State, u: State, me: PeerId, objects: Objects, audience: Members)
    requires Tells(s, t, me, objects, audience) && Tells(t, u, me, objects, audience)
    ensures Tells(s, u, me, objects, audience)
  {
    hide Fit;
    forall q | q in s.peers
      ensures u.peers[q] == s.peers[q].(out := u.peers[q].out) && s.peers[q].out <= u.peers[q].out
      ensures forall i :: |s.peers[q].out| <= i < |u.peers[q].out| ==> Fit(me, objects, audience, q, u.peers[q].out[i])
    {
      var a, b, c := s.peers[q].out, t.peers[q].out, u.peers[q].out;
      assert u.peers[q] == t.peers[q].(out := c);
      forall i | |a| <= i < |c|
        ensures Fit(me, objects, audience, q, c[i])
      {
        if i < |b| { assert b[i] == c[i]; }
      }
    }
  }

  lemma HearsTransitive(a: Peer, b: Peer, c: Peer, audience: Members)
    requires Hears(a, b, audience) && Hears(b, c, audience)
    ensures Hears(a, c, audience)
  {
    assert c == b.(out := c.out);
    forall i | |a.out| <= i < |c.out|
      ensures !c.out[i].Pong? && !c.out[i].Challenge? && (ShowsLocal(map[], c.out[i]) ==> c.out[i].peer in audience)
    {
      if i < |b.out| { assert b.out[i] == c.out[i]; }
    }
  }

  // ----- Sending

  lemma SendTells(s: State, to: PeerId, m: Msg, me: PeerId, objects: Objects, audience: Members)
    requires Fit(me, objects, audience, to, m)
    ensures Tells(s, Send(s, to, m), me, objects, audience) && Send(s, to, m).rooms == s.rooms
  {
    hide Fit;
  }

  lemma SendToAllTells(s: State, me: PeerId, m: Msg, objects: Objects, audience: Members)
    requires m.About(me) && !ShowsLocal(objects, m)
    ensures Tells(s, SendToAll(s, me, m), me, objects, audience) && SendToAll(s, me, m).rooms == s.rooms
  {
    assert forall q :: Fit(me, objects, audience, q, m);
    hide Fit, ShowsLocal;
    var t := SendToAll(s, me, m);
    forall q | q in s.peers
      ensures t.peers[q] == s.peers[q].(out := t.peers[q].out)
      ensures t.peers[q].out == if q == me then s.peers[q].out else s.peers[q].out + [m]
    {
    }
    hide SendToAll;
  }

  lemma {:induction false} SendEachTells(s: State, me: PeerId, ms: seq<Msg>, objects: Objects, audience: Members)
    requires forall m :: m in ms ==> m.About(me) && !ShowsLocal(objects, m)
    ensures Tells(s, SendEach(s, me, ms), me, objects, audience) && SendEach(s, me, ms).rooms == s.rooms
    decreases |ms|
  {
    hide ShowsLocal, SendToAll;
    if ms != [] {
      SendToAllTells(s, me, ms[0], objects, audience);
      SendEachTells(SendToAll(s, me, ms[0]), me, ms[1..], objects, audience);
      TellsTransitive(s, SendToAll(s, me, ms[0]), SendEach(s, me, ms), me, objects, audience);
    }
  }

  lemma {:induction false} SendToMembersTells(s: State, me: PeerId, members: Members, m: Msg, objects: Objects, audience: Members)
    requires m.About(me) && forall q :: q in members ==> q in audience
    ensures Tells(s, SendToMembers(s, me, members, m), me, objects, audience)
    ensures SendToMembers(s, me, members, m).rooms == s.rooms
    decreases |members|
  {
    hide Send, Tells;
    if members == [] {
      TellsNothing(s, me, objects, audience);
    } else {
      var s1 := if members[0] == me then s else Send(s, members[0], m);
      SendTells(s, members[0], m, me, objects, audience);
      TellsNothing(s, me, objects, audience);
      SendToMembersTells(s1, me, members[1..], m, objects, audience);
      TellsTransitive(s, s1, SendToMembers(s, me, members, m), me, objects, audience);
    }
  }

  lemma TellsNothing(s: State, me: PeerId, objects: Objects, audience: Members)
    ensures Tells(s, s, me, objects, audience)
  {
  }

  /** Those who are shown the local objects of a peer: the list of its room. */
  function Audience(s: State, me: Peer): Members { if me.Room() in s.rooms then s.rooms[me.Room()] else [] }

  lemma SendUpdateTells(s: State, me: Peer, ty: TypeId, m: Msg, objects: Objects)
    requires m.About(me.id) && (IsGlobal(ty) ==> !ShowsLocal(objects, m))
    ensures Tells(s, SendUpdate(s, me, ty, m), me.id, objects, Audience(s, me)) && SendUpdate(s, me, ty, m).rooms == s.rooms
  {
    hide Tells, ShowsLocal;
    TellsNothing(s, me.id, objects, Audience(s, me));
    if IsGlobal(ty) {
      SendToAllTells(s, me.id, m, objects, Audience(s, me));
    } else if me.Room() in s.rooms {
      SendToMembersTells(s, me.id, s.rooms[me.Room()], m, objects, Audience(s, me));
    }
  }

  // ----- Rooms

  lemma {:induction false} JoinMembersTells(
    s: State, me: Peer, members: Members, order: Orders, objects: Objects, audience: Members)
    requires OwnIds(s.peers) && forall q :: q in members ==> q in audience
    ensures var h := JoinMembers(s, me, members, order);
            Tells(s, h.s, me.id, objects, audience) && Hears(me, h.me, audience) && h.s.rooms == s.rooms
    decreases |members|
  {
    hide Tells, Hears, Listed;
    TellsNothing(s, me.id, objects, audience);
    HearsNothing(me, audience);
    if members == [] {
    } else if members[0] !in s.peers {
      JoinMembersTells(s, me, members[1..], order, objects, audience);
    } else {
      var h := JoinOne(s, me, members[0], order);
      JoinOneTells(s, me, members[0], order, objects, audience);
      JoinMembersTells(h.s, h.me, members[1..], order, objects, audience);
      TellsTransitive(s, h.s, JoinMembers(s, me, members, order).s, me.id, objects, audience);
      HearsTransitive(me, h.me, JoinMembers(s, me, members, order).me, audience);
    }
  }

  lemma HearsNothing(me: Peer, audience: Members)
    ensures Hears(me, me, audience)
  {
  }

  lemma HearsOne(me: Peer, m: Msg, audience: Members)
    requires !m.Pong? && !m.Challenge? && (ShowsLocal(map[], m) ==> m.peer in audience)
    ensures Hears(me, me.Push(m), audience)
  {
  }

  lemma JoinOneTells(s: State, me: Peer, id: PeerId, order: Orders, objects: Objects, audience: Members)
    requires OwnIds(s.peers) && id in s.peers && id in audience
    ensures var h := JoinOne(s, me, id, order);
            && Tells(s, h.s, me.id, objects, audience) && Hears(me, h.me, audience) && h.s.rooms == s.rooms
            && OwnIds(h.s.peers)
  {
    hide Listed;
    var m := PeerJoin(me.id, Listed(me.objects, order.own, false));
    SendTells(s, id, m, me.id, objects, audience);
    assert JoinOne(s, me, id, order).s.peers == Send(s, id, m).peers;
    HearsOne(me, PeerJoin(id, Listed(s.peers[id].objects, Ordered(order, id), false)), audience);
  }

  lemma {:induction false} LeaveMembersTells(s: State, me: Peer, members: Members, objects: Objects, audience: Members)
    ensures var h := LeaveMembers(s, me, members);
            Tells(s, h.s, me.id, objects, audience) && Hears(me, h.me, audience) && h.s.rooms == s.rooms
    decreases |members|
  {
    hide Tells, Hears;
    TellsNothing(s, me.id, objects, audience);
    HearsNothing(me, audience);
    if members == [] {
    } else if members[0] !in s.peers {
      LeaveMembersTells(s, me, members[1..], objects, audience);
    } else {
      var h := LeaveOne(s, me, members[0]);
      LeaveOneTells(s, me, members[0], objects, audience);
      LeaveMembersTells(h.s, h.me, members[1..], objects, audience);
      TellsTransitive(s, h.s, LeaveMembers(s, me, members).s, me.id, objects, audience);
      HearsTransitive(me, h.me, LeaveMembers(s, me, members).me, audience);
    }
  }

  lemma LeaveOneTells(s: State, me: Peer, id: PeerId, objects: Objects, audience: Members)
    requires id in s.peers
    ensures var h := LeaveOne(s, me, id);
            Tells(s, h.s, me.id, objects, audience) && Hears(me, h.me, audience) && h.s.rooms == s.rooms
  {
    SendTells(s, id, PeerLeave(me.id), me.id, objects, audience);
    assert LeaveOne(s, me, id).s.peers == Send(s, id, PeerLeave(me.id)).peers;
    HearsOne(me, PeerLeave(id), audience);
  }

  function ListOf(s: State, room: StableId): Members { if room in s.rooms then s.rooms[room] else [] }

  lemma JoinRoomTells(s: State, me: Peer, room: StableId, order: Orders, objects: Objects)
    requires OwnIds(s.peers)
    ensures var h := JoinRoom(s, me, room, order);
            Tells(s, h.s, me.id, objects, ListOf(h.s, room)) && Hears(me, h.me, ListOf(h.s, room))
  {
    hide Tells, Hears, JoinMembers;
    if room !in s.rooms {
      TellsNothing(s, me.id, objects, []);
      HearsNothing(me, []);
    } else {
      var members := s.rooms[room];
      var audience := if me.id in members then members else members + [me.id];
      var joined, h := JoinMembers(s, me, members, order), JoinRoom(s, me, room, order);
      JoinMembersTells(s, me, members, order, objects, audience);
      HearsRoom(me, joined.me, audience);
      assert h.s.rooms[room] == audience;
      SamePeersTell(s, s, joined.s, h.s, me.id, objects, audience);
    }
  }

  lemma SamePeersTell(s: State, s': State, t: State, t': State, me: PeerId, objects: Objects, audience: Members)
    requires Tells(s, t, me, objects, audience) && s.peers == s'.peers && t.peers == t'.peers
    ensures Tells(s', t', me, objects, audience)
  {
  }

  lemma LeaveRoomTells(s: State, me: Peer, room: StableId, objects: Objects, audience: Members)
    ensures var h := LeaveRoom(s, me, room); Tells(s, h.s, me.id, objects, audience) && Hears(me, h.me, audience)
  {
    hide Tells, Hears;
    if room !in s.rooms {
      TellsNothing(s, me.id, objects, audience);
      HearsNothing(me, audience);
    } else {
      var members := Without(s.rooms[room], me.id);
      var s1 := s.(rooms := s.rooms[room := members]);
      LeaveMembersTells(s1, me, members, objects, audience);
      SamePeersTell(s1, s, LeaveMembers(s1, me, members).s, LeaveMembers(s1, me, members).s, me.id, objects, audience);
    }
  }

  // ----- Connecting

  /** The objects listed are those of the kind that is asked for. */
  lemma {:induction false} ListedAre(objects: Objects, order: seq<Id>, wantGlobal: bool)
    ensures forall o :: o in Listed(objects, order, wantGlobal) <==>
              exists i :: 0 <= i < |order| && order[i] in objects && objects[order[i]] == o && IsGlobal(o.ty) == wantGlobal
    decreases |order|
  {
    if order != [] {
      ListedAre(objects, order[1..], wantGlobal);
      forall o
        ensures o in Listed(objects, order, wantGlobal) <==>
                  exists i :: 0 <= i < |order| && order[i] in objects && objects[order[i]] == o && IsGlobal(o.ty) == wantGlobal
      {
        if i :| 0 <= i < |order[1..]| && order[1..][i] in objects && objects[order[1..][i]] == o && IsGlobal(o.ty) == wantGlobal {
          assert order[i + 1] in objects && objects[order[i + 1]] == o;
        }
        if i :| 0 < i < |order| && order[i] in objects && objects[order[i]] == o && IsGlobal(o.ty) == wantGlobal {
          assert order[1..][i - 1] in objects && objects[order[1..][i - 1]] == o;
        }
      }
    }
  }

  lemma {:induction false} CreatedAre(p: PeerId, list: seq<RemoteObject>)
    ensures forall m :: m in Created(p, list) <==> m.ObjectCreated? && m.peer == p && m.obj in list
    decreases |list|
  {
    if list != [] { CreatedAre(p, list[1..]); }
  }

  /** Before it is told of the others, a peer is sent exactly their global objects. */
  lemma {:induction false} EarlyAre(peers: map<PeerId, Peer>, ids: seq<PeerId>, order: Orders)
    ensures forall m :: m in EarlyObjects(peers, ids, order) <==>
              && m.ObjectCreated? && m.peer in ids && m.peer in peers
              && m.obj in Listed(peers[m.peer].objects, Ordered(order, m.peer), true)
    decreases |ids|
  {
    hide Listed;
    if ids != [] {
      EarlyAre(peers, ids[1..], order);
      if ids[0] in peers { CreatedAre(ids[0], Listed(peers[ids[0]].objects, Ordered(order, ids[0]), true)); }
    }
  }

  /** Which are, over whole enumerations, all the global objects there are. */
  lemma EarlyObjectsAre(s: State, order: Orders)
    requires Enumerates(order.peers, s.peers.Keys)
    requires forall p :: p in s.peers ==> Keyed(s.peers[p].objects) && Enumerates(Ordered(order, p), s.peers[p].objects.Keys)
    ensures forall m :: m in EarlyObjects(s.peers, order.peers, order) <==>
              && m.ObjectCreated? && m.peer in s.peers && IsGlobal(m.obj.ty)
              && m.obj.id in s.peers[m.peer].objects && s.peers[m.peer].objects[m.obj.id] == m.obj
  {
    hide Listed;
    EarlyAre(s.peers, order.peers, order);
    assert forall p :: p in s.peers ==> p in Elements(order.peers);
    assert forall p :: p in order.peers ==> p in Elements(order.peers);
    forall p, o | p in s.peers
      ensures o in Listed(s.peers[p].objects, Ordered(order, p), true)
              <==> o.id in s.peers[p].objects && s.peers[p].objects[o.id] == o && IsGlobal(o.ty)
    {
      WholeListing(s.peers[p].objects, Ordered(order, p), o);
    }
  }

  lemma WholeListing(objects: Objects, order: seq<Id>, o: RemoteObject)
    requires Keyed(objects) && Enumerates(order, objects.Keys)
    ensures o in Listed(objects, order, true) <==> o.id in objects && objects[o.id] == o && IsGlobal(o.ty)
  {
    ListedAre(objects, order, true);
    if o.id in objects && objects[o.id] == o && IsGlobal(o.ty) {
      assert o.id in Elements(order);
      var i :| 0 <= i < |order| && order[i] == o.id;
      assert order[i] in objects && objects[order[i]] == o;
    }
  }

  lemma AnnouncementFits(p: Peer, order: seq<Id>, objects: Objects)
    ensures forall m :: m in Announcement(p, order) ==> m.About(p.id) && !ShowsLocal(objects, m)
  {
    ListedAre(p.objects, order, true);
    CreatedAre(p.id, Listed(p.objects, order, true));
  }

  lemma {:induction false} IntroductionsFit(peers: map<PeerId, Peer>, ids: seq<PeerId>, order: Orders)
    ensures forall m :: m in Introductions(peers, ids, order) ==> !m.Pong? && !m.Challenge? && !ShowsLocal(map[], m)
    decreases |ids|
  {
    hide Announcement, ShowsLocal;
    if ids != [] {
      IntroductionsFit(peers, ids[1..], order);
      if ids[0] in peers { AnnouncementFits(peers[ids[0]], Ordered(order, ids[0]), map[]); }
    }
  }

  lemma EarlyFit(peers: map<PeerId, Peer>, ids: seq<PeerId>, order: Orders)
    ensures forall m :: m in EarlyObjects(peers, ids, order) ==> !m.Pong? && !m.Challenge? && !ShowsLocal(map[], m)
  {
    EarlyAre(peers, ids, order);
    forall p | p in peers
      ensures forall o :: o in Listed(peers[p].objects, Ordered(order, p), true) ==> IsGlobal(o.ty)
    {
      ListedAre(peers[p].objects, Ordered(order, p), true);
    }
  }

  lemma HearsAll(me: Peer, ms: seq<Msg>, audience: Members)
    requires forall m :: m in ms ==> !m.Pong? && !m.Challenge? && !ShowsLocal(map[], m)
    ensures Hears(me, me.(out := me.out + ms), audience)
  {
    hide ShowsLocal;
    var after := me.out + ms;
    forall i | |me.out| <= i < |after|
      ensures after[i] in ms
    {
      assert after[i] == ms[i - |me.out|];
    }
  }

  lemma {:induction false} TakeObjectsTells(s: State, me: Peer, objects: seq<RemoteObject>, order: seq<PeerId>)
    ensures var h := TakeObjects(s, me, objects, order);
            h.s.peers == s.peers && h.me == me.(objects := InsertAll(me.objects, objects))
    decreases |objects|
  {
    if objects != [] {
      var o := objects[0];
      TakeObjectsTells(if o.ty == ROOM_TYPE then CreateRoom(s, me, o.id, order) else s,
                       me.(objects := me.objects[o.id := o]), objects[1..], order);
    }
  }

  lemma ConnectedTells(s: State, me: Peer, order: Orders, objects: Objects, audience: Members)
    ensures var h := Connected(s, me, order);
            Tells(s, h.s, me.id, objects, audience) && Hears(me, h.me, audience) && h.s.rooms == s.rooms
  {
    hide Tells, Hears, Announcement, Introductions, SendEach, ShowsLocal;
    AnnouncementFits(me, order.own, objects);
    SendEachTells(s, me.id, Announcement(me, order.own), objects, audience);
    var h := Connected(s, me, order);
    SamePeersTell(s, s, SendEach(s, me.id, Announcement(me, order.own)), h.s, me.id, objects, audience);
    IntroductionsFit(s.peers, order.peers, order);
    HearsAll(me, Introductions(s.peers, order.peers, order), audience);
  }

  /** A connect: the record is what was handed over, and the queues grow by what fits. */
  lemma ConnectingTells(s: State, me: Peer, e: Event, order: Orders, objects: Objects)
    requires e.Connect? && OwnIds(s.peers)
    ensures var h := Connecting(s, me, e, order);
            var taken := me.(key := e.key, props := e.props, challenge := None, objects := InsertAll(me.objects, e.objects));
            Tells(s, h.s, me.id, objects, Audience(h.s, h.me)) && Hears(taken, h.me, Audience(h.s, h.me))
  {
    hide TakeObjects, EarlyObjects, Connected, JoinRoom, Tells, Hears, InsertAll;
    var me0 := me.(key := e.key, props := e.props, challenge := None);
    TakeObjectsTells(s, me0, e.objects, order.peers);
    var h := TakeObjects(s, me0, e.objects, order.peers);
    var me1 := h.me.(out := h.me.out + EarlyObjects(h.s.peers, order.peers, order));
    var h1 := Connected(h.s, me1, order);
    var h2 := JoinRoom(h1.s, h1.me, h1.me.Room(), order);
    var audience := ListOf(h2.s, h1.me.Room());
    EarlyFit(h.s.peers, order.peers, order);
    HearsAll(h.me, EarlyObjects(h.s.peers, order.peers, order), audience);
    ConnectedTells(h.s, me1, order, objects, audience);
    TellsOwnIds(h.s, h1.s, me.id, objects, audience);
    HearsRoom(me1, h1.me, audience);
    JoinRoomTells(h1.s, h1.me, h1.me.Room(), order, objects);
    HearsRoom(h1.me, h2.me, audience);
    SamePeersTell(h.s, s, h1.s, h1.s, me.id, objects, audience);
    TellsTransitive(s, h1.s, h2.s, me.id, objects, audience);
    HearsTransitive(h.me, me1, h1.me, audience);
    HearsTransitive(h.me, h1.me, h2.me, audience);
  }

  lemma TellsOwnIds(s: State, t: State, me: PeerId, objects: Objects, audience: Members)
    requires Tells(s, t, me, objects, audience) && OwnIds(s.peers)
    ensures OwnIds(t.peers)
  {
    forall q | q in t.peers
      ensures t.peers[q].id == q
    {
      assert t.peers[q] == s.peers[q].(out := t.peers[q].out);
    }
  }

  lemma HearsRoom(a: Peer, b: Peer, audience: Members)
    requires Hears(a, b, audience)
    ensures b.Room() == a.Room() && b.id == a.id
  {
    assert b == a.(out := b.out);
  }

  // ----- Updates

  lemma PeerUpdatingTells(s: State, me: Peer, key: Key, value: Value, order: Orders, objects: Objects)
    requires OwnIds(s.peers)
    ensures var h := PeerUpdating(s, me, key, value, order);
            && Tells(s, h.s, me.id, objects, Audience(h.s, h.me))
            && Hears(me.(props := Inserted(me.props, key, value)), h.me, Audience(h.s, h.me))
  {
    hide SendToAll, LeaveRoom, JoinRoom, Tells, Hears;
    var me1 := me.(props := Inserted(me.props, key, value));
    var s1 := SendToAll(s, me.id, PeerUpdated(me.id, key, value));
    var h := PeerUpdating(s, me, key, value, order);
    var audience := Audience(h.s, h.me);
    SendToAllTells(s, me.id, PeerUpdated(me.id, key, value), objects, audience);
    if key != ROOM {
      HearsNothing(me1, audience);
    } else {
      var old' := Get(me.props, ROOM).AsStableId();
      var left := LeaveRoom(s1, me1, old');
      LeaveRoomTells(s1, me1, old', objects, audience);
      TellsOwnIds(s, s1, me.id, objects, audience);
      TellsOwnIds(s1, left.s, me.id, objects, audience);
      HearsRoom(me1, left.me, audience);
      JoinRoomTells(left.s, left.me, value.AsStableId(), order, objects);
      HearsRoom(left.me, h.me, ListOf(h.s, value.AsStableId()));
      assert me1.Room() == value.AsStableId();
      TellsTransitive(s, s1, left.s, me.id, objects, audience);
      TellsTransitive(s, left.s, h.s, me.id, objects, audience);
      HearsTransitive(me1, left.me, h.me, audience);
    }
  }

  lemma UpdatingTells(s: State, me: Peer, e: Event, order: Orders)
    requires IsUpdate(e) && OwnIds(s.peers)
    ensures var h := Updating(s, me, e, order);
            && Tells(s, h.s, me.id, me.objects, Audience(h.s, h.me))
            && Hears(h.me.(out := me.out), h.me, Audience(h.s, h.me))
            && h.me.key == me.key && h.me.challenge == me.challenge
  {
    hide SendUpdate, PeerUpdating, CreateRoom, Tells;
    var h := Updating(s, me, e, order);
    TellsNothing(s, me.id, me.objects, Audience(h.s, h.me));
    match e
    case PeerUpdate(key, value) => PeerUpdatingTells(s, me, key, value, order, me.objects);
    case ObjectCreate(o) =>
      var me1 := me.(objects := me.objects[o.id := o]);
      var s1 := if o.ty == ROOM_TYPE then CreateRoom(s, me1, o.id, order.peers) else s;
      SendUpdateTells(s1, me1, o.ty, ObjectCreated(me.id, o), me.objects);
      assert s1.peers == s.peers by { CreateRoomTells(s, me1, o.id, order.peers); }
      SamePeersTell(s1, s, h.s, h.s, me.id, me.objects, Audience(h.s, h.me));
    case ObjectUpdate(id, key, value) =>
      if id in me.objects {
        var o := me.objects[id].(props := Inserted(me.objects[id].props, key, value));
        SendUpdateTells(s, me.(objects := me.objects[id := o]), o.ty, ObjectUpdated(me.id, id, key, value), me.objects);
      }
    case ObjectRemove(id) =>
      if id in me.objects {
        var ty := me.objects[id].ty;
        var s1 := if ty == ROOM_TYPE then s.(rooms := s.rooms - {StableId(me.key, id)}) else s;
        SendUpdateTells(s1, me.(objects := me.objects - {id}), ty, ObjectRemoved(me.id, id), me.objects);
        SamePeersTell(s1, s, h.s, h.s, me.id, me.objects, Audience(h.s, h.me));
      }
  }

  lemma CreateRoomTells(s: State, me: Peer, obj: Id, order: seq<PeerId>)
    ensures CreateRoom(s, me, obj, order).peers == s.peers
  {
  }
}
