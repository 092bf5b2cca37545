/** What each server operation does to what every peer has been told. */
module Effects {
  import opened Options
  import opened Values
  import opened Protocol
  import opened Identifiers
  import opened Server

  /** What `q` has been told about `p`. */
  function Seen(s: State, q: PeerId, p: PeerId): Option<Info>
    requires q in s.peers
  {
    Look(s.peers[q].out, p)
  }

  /** Only queues changed, and only by messages about `me`. */
  ghost predicate OnlyAbout(s: State, t: State, me: PeerId) {
    && t.peers.Keys == s.peers.Keys
    && t.ids == s.ids
    && forall q :: q in s.peers ==>
         && t.peers[q] == s.peers[q].(out := t.peers[q].out)
         && forall p :: p != me ==> Look(t.peers[q].out, p) == Look(s.peers[q].out, p)
  }

  lemma OnlyAboutTransitive(s: State, t: State, u: State, me: PeerId)
    requires OnlyAbout(s, t, me) && OnlyAbout(t, u, me)
    ensures OnlyAbout(s, u, me)
  {
    forall q | q in s.peers
      ensures u.peers[q] == s.peers[q].(out := u.peers[q].out)
    {
      assert u.peers[q] == t.peers[q].(out := u.peers[q].out);
    }
  }

  // ----- Single messages

  lemma SendSeen(s: State, to: PeerId, m: Msg, me: PeerId)
    requires m.About(me)
    ensures OnlyAbout(s, Send(s, to, m), me)
    ensures forall q :: q in s.peers ==>
              Seen(Send(s, to, m), q, me) == if q == to then React(Seen(s, q, me), m) else Seen(s, q, me)
  {
    if to in s.peers {
      forall p
        ensures Look(s.peers[to].out + [m], p) == if p == me then React(Seen(s, to, me), m) else Seen(s, to, p)
      {
        LookPush(s.peers[to].out, m, p);
      }
    }
  }

  lemma SendToAllSeen(s: State, me: PeerId, m: Msg)
    requires m.About(me) && me !in s.peers
    ensures OnlyAbout(s, SendToAll(s, me, m), me)
    ensures forall q :: q in s.peers ==> Seen(SendToAll(s, me, m), q, me) == React(Seen(s, q, me), m)
  {
    forall q, p | q in s.peers
      ensures Look(s.peers[q].out + [m], p) == if p == me then React(Seen(s, q, me), m) else Seen(s, q, p)
    {
      LookPush(s.peers[q].out, m, p);
    }
  }

  lemma {:induction false} SendToMembersSeen(s: State, me: PeerId, members: Members, m: Msg)
    requires m.About(me) && me !in s.peers && Distinct(members)
    ensures OnlyAbout(s, SendToMembers(s, me, members, m), me)
    ensures SendToMembers(s, me, members, m).rooms == s.rooms
    ensures forall q :: q in s.peers ==>
              Seen(SendToMembers(s, me, members, m), q, me)
              == if q in members then React(Seen(s, q, me), m) else Seen(s, q, me)
    decreases |members|
  {
    if members != [] {
      var s1 := if members[0] == me then s else Send(s, members[0], m);
      SendSeen(s, members[0], m, me);
      SendToMembersSeen(s1, me, members[1..], m);
      OnlyAboutTransitive(s, s1, SendToMembers(s, me, members, m), me);
      assert members[0] !in members[1..];
    }
  }

  /** Who an update of an object of type `ty` reaches. */
  predicate Reaches(s: State, me: Peer, ty: TypeId, q: PeerId) {
    IsGlobal(ty) || (me.Room() in s.rooms && q in s.rooms[me.Room()])
  }

  lemma SendUpdateSeen(s: State, me: Peer, ty: TypeId, m: Msg)
    requires m.About(me.id) && me.id !in s.peers
    requires me.Room() in s.rooms ==> Distinct(s.rooms[me.Room()])
    ensures OnlyAbout(s, SendUpdate(s, me, ty, m), me.id)
    ensures SendUpdate(s, me, ty, m).rooms == s.rooms
    ensures forall q :: q in s.peers ==>
              Seen(SendUpdate(s, me, ty, m), q, me.id)
              == if Reaches(s, me, ty, q) then React(Seen(s, q, me.id), m) else Seen(s, q, me.id)
  {
    if IsGlobal(ty) {
      SendToAllSeen(s, me.id, m);
    } else if me.Room() in s.rooms {
      SendToMembersSeen(s, me.id, s.rooms[me.Room()], m);
    }
  }

  // ----- Joining and leaving

  function LocalsOf(p: Peer, order: seq<Id>): seq<RemoteObject> { Listed(p.objects, order, false) }

  /** One pair of messages: `toOther` reaches `id`, `toMe` the handled peer. */
  lemma ExchangeSeen(s: State, me: Peer, id: PeerId, toOther: Msg, toMe: Msg, poll: set<PeerId>)
    requires id in s.peers && toOther.About(me.id) && toMe.About(id)
    ensures var t := s.(peers := s.peers[id := s.peers[id].Push(toOther)], poll := poll);
            && OnlyAbout(s, t, me.id)
            && (forall q :: q in s.peers ==>
                  Seen(t, q, me.id) == if q == id then React(Seen(s, q, me.id), toOther) else Seen(s, q, me.id))
            && (forall p :: Look(me.Push(toMe).out, p)
                  == if p == id then React(Look(me.out, p), toMe) else Look(me.out, p))
  {
    var t := s.(peers := s.peers[id := s.peers[id].Push(toOther)], poll := poll);
    SendSeen(s, id, toOther, me.id);
    assert t.peers == Send(s, id, toOther).peers;
    forall p
      ensures Look(me.Push(toMe).out, p) == if p == id then React(Look(me.out, p), toMe) else Look(me.out, p)
    {
      LookPush(me.out, toMe, p);
    }
  }

  lemma JoinOneSeen(s: State, me: Peer, id: PeerId, order: Orders)
    requires me.id !in s.peers && id in s.peers
    ensures var h := JoinOne(s, me, id, order);
            && OnlyAbout(s, h.s, me.id) && h.s.rooms == s.rooms
            && h.me == me.(out := h.me.out)
            && (forall q :: q in s.peers ==>
                  Seen(h.s, q, me.id) == if q == id then React(Seen(s, q, me.id), PeerJoin(me.id, LocalsOf(me, order.own)))
                                         else Seen(s, q, me.id))
            && (forall p :: Look(h.me.out, p)
                  == if p == id then React(Look(me.out, p), PeerJoin(p, LocalsOf(s.peers[p], Ordered(order, p))))
                     else Look(me.out, p))
  {
    hide Look, React;
    ExchangeSeen(s, me, id, PeerJoin(me.id, LocalsOf(me, order.own)),
                 PeerJoin(id, LocalsOf(s.peers[id], Ordered(order, id))), JoinOne(s, me, id, order).s.poll);
  }

  lemma {:induction false} JoinMembersSeen(s: State, me: Peer, members: Members, order: Orders)
    requires me.id !in s.peers && Distinct(members)
    ensures var h := JoinMembers(s, me, members, order);
            && OnlyAbout(s, h.s, me.id) && h.s.rooms == s.rooms
            && h.me == me.(out := h.me.out)
            && (forall q :: q in s.peers ==>
                  Seen(h.s, q, me.id) == if q in members then React(Seen(s, q, me.id), PeerJoin(me.id, LocalsOf(me, order.own)))
                                         else Seen(s, q, me.id))
            && (forall p :: Look(h.me.out, p)
                  == if p in members && p in s.peers
                     then React(Look(me.out, p), PeerJoin(p, LocalsOf(s.peers[p], Ordered(order, p))))
                     else Look(me.out, p))
    decreases |members|
  {
    hide Look, React, LocalsOf, JoinOne;
    if members != [] {
      assert members[0] !in members[1..];
      if members[0] !in s.peers {
        JoinMembersSeen(s, me, members[1..], order);
      } else {
        var h := JoinOne(s, me, members[0], order);
        JoinOneSeen(s, me, members[0], order);
        JoinMembersSeen(h.s, h.me, members[1..], order);
        OnlyAboutTransitive(s, h.s, JoinMembers(h.s, h.me, members[1..], order).s, me.id);
        LocalsKept(s, h.s, me, h.me, order);
      }
    }
  }

  lemma LocalsKept(s: State, t: State, me: Peer, me': Peer, order: Orders)
    requires OnlyAbout(s, t, me.id) && me' == me.(out := me'.out)
    ensures LocalsOf(me', order.own) == LocalsOf(me, order.own)
    ensures forall p :: p in s.peers ==> LocalsOf(t.peers[p], Ordered(order, p)) == LocalsOf(s.peers[p], Ordered(order, p))
  {
  }

  lemma LeaveOneSeen(s: State, me: Peer, id: PeerId)
    requires me.id !in s.peers && id in s.peers
    ensures var h := LeaveOne(s, me, id);
            && OnlyAbout(s, h.s, me.id) && h.s.rooms == s.rooms
            && h.me == me.(out := h.me.out)
            && (forall q :: q in s.peers ==>
                  Seen(h.s, q, me.id) == if q == id then React(Seen(s, q, me.id), PeerLeave(me.id)) else Seen(s, q, me.id))
            && (forall p :: Look(h.me.out, p) == if p == id then React(Look(me.out, p), PeerLeave(p)) else Look(me.out, p))
  {
    hide Look, React;
    ExchangeSeen(s, me, id, PeerLeave(me.id), PeerLeave(id), s.poll + {me.id});
  }

  lemma {:induction false} LeaveMembersSeen(s: State, me: Peer, members: Members)
    requires me.id !in s.peers && Distinct(members)
    ensures var h := LeaveMembers(s, me, members);
            && OnlyAbout(s, h.s, me.id) && h.s.rooms == s.rooms
            && h.me == me.(out := h.me.out)
            && (forall q :: q in s.peers ==>
                  Seen(h.s, q, me.id) == if q in members then React(Seen(s, q, me.id), PeerLeave(me.id)) else Seen(s, q, me.id))
            && (forall p :: Look(h.me.out, p)
                  == if p in members && p in s.peers then React(Look(me.out, p), PeerLeave(p)) else Look(me.out, p))
    decreases |members|
  {
    hide Look, React, LeaveOne;
    if members != [] {
      assert members[0] !in members[1..];
      if members[0] !in s.peers {
        LeaveMembersSeen(s, me, members[1..]);
      } else {
        var h := LeaveOne(s, me, members[0]);
        LeaveOneSeen(s, me, members[0]);
        LeaveMembersSeen(h.s, h.me, members[1..]);
        OnlyAboutTransitive(s, h.s, LeaveMembers(h.s, h.me, members[1..]).s, me.id);
      }
    }
  }

  // ----- Announcements

  lemma {:induction false} SendEachQueues(s: State, me: PeerId, ms: seq<Msg>)
    requires me !in s.peers
    ensures var t := SendEach(s, me, ms);
            && t.peers.Keys == s.peers.Keys && t.rooms == s.rooms && t.ids == s.ids
            && forall q :: q in s.peers ==> t.peers[q] == s.peers[q].(out := s.peers[q].out + ms)
    decreases |ms|
  {
    if ms == [] {
      assert forall q :: q in s.peers ==> s.peers[q].out + [] == s.peers[q].out;
    } else {
      SendEachQueues(SendToAll(s, me, ms[0]), me, ms[1..]);
      assert forall q :: q in s.peers ==> s.peers[q].out + [ms[0]] + ms[1..] == s.peers[q].out + ms;
    }
  }

  function Merge(known: Option<Info>, list: seq<RemoteObject>): Option<Info> {
    if known.None? then None else Some(known.value.(objects := InsertAll(known.value.objects, list)))
  }

  lemma {:induction false} LookCreated(ms: seq<Msg>, id: PeerId, list: seq<RemoteObject>, p: PeerId)
    ensures Look(ms + Created(id, list), p) == if p == id then Merge(Look(ms, p), list) else Look(ms, p)
    decreases |list|
  {
    hide Look;
    if list == [] {
      assert ms + [] == ms;
    } else {
      var m := ObjectCreated(id, list[0]);
      LookPush(ms, m, p);
      LookCreated(ms + [m], id, list[1..], p);
      assert ms + Created(id, list) == ms + [m] + Created(id, list[1..]);
      MergeStep(Look(ms, p), list, id);
    }
  }

  lemma MergeStep(known: Option<Info>, list: seq<RemoteObject>, id: PeerId)
    requires list != []
    ensures Merge(React(known, ObjectCreated(id, list[0])), list[1..]) == Merge(known, list)
  {
  }

  /** What an announcement amounts to, whatever was known before. */
  function Announced(p: Peer, order: seq<Id>): Info {
    Info(p.key, InsertAll(map[], Listed(p.objects, order, true)), p.props)
  }

  lemma LookAnnouncement(ms: seq<Msg>, a: Peer, order: seq<Id>, p: PeerId)
    ensures Look(ms + Announcement(a, order), p) == if p == a.id then Some(Announced(a, order)) else Look(ms, p)
  {
    var m := PeerConnected(a.id, a.key, a.props);
    LookPush(ms, m, p);
    LookCreated(ms + [m], a.id, Listed(a.objects, order, true), p);
    assert ms + Announcement(a, order) == ms + [m] + Created(a.id, Listed(a.objects, order, true));
  }

  ghost predicate OwnIds(peers: map<PeerId, Peer>) {
    forall id :: id in peers ==> peers[id].id == id
  }

  lemma {:induction false} LookIntroductions(
    ms: seq<Msg>, peers: map<PeerId, Peer>, ids: seq<PeerId>, order: Orders, p: PeerId)
    requires OwnIds(peers) && Distinct(ids)
    ensures Look(ms + Introductions(peers, ids, order), p)
            == if p in ids && p in peers then Some(Announced(peers[p], Ordered(order, p))) else Look(ms, p)
    decreases |ids|
  {
    hide Look, Announcement, Announced;
    if ids == [] {
      assert ms + [] == ms;
    } else {
      assert ids[0] !in ids[1..];
      var first := if ids[0] in peers then Announcement(peers[ids[0]], Ordered(order, ids[0])) else [];
      if ids[0] in peers {
        LookAnnouncement(ms, peers[ids[0]], Ordered(order, ids[0]), p);
      } else {
        assert ms + [] == ms;
      }
      LookIntroductions(ms + first, peers, ids[1..], order, p);
      assert ms + Introductions(peers, ids, order) == ms + first + Introductions(peers, ids[1..], order);
    }
  }

  lemma {:induction false} LookEarlyObjects(
    ms: seq<Msg>, peers: map<PeerId, Peer>, ids: seq<PeerId>, order: Orders, p: PeerId)
    requires p !in peers
    ensures Look(ms + EarlyObjects(peers, ids, order), p) == Look(ms, p)
    decreases |ids|
  {
    hide Look, Listed, Created;
    if ids == [] {
      assert ms + [] == ms;
    } else {
      var first := if ids[0] in peers then Created(ids[0], Listed(peers[ids[0]].objects, Ordered(order, ids[0]), true)) else [];
      if ids[0] in peers {
        LookCreated(ms, ids[0], Listed(peers[ids[0]].objects, Ordered(order, ids[0]), true), p);
      } else {
        assert ms + [] == ms;
      }
      LookEarlyObjects(ms + first, peers, ids[1..], order, p);
      assert ms + EarlyObjects(peers, ids, order) == ms + first + EarlyObjects(peers, ids[1..], order);
    }
  }

  // ----- Listed objects

  /** Every object is filed under its own id. */
  ghost predicate Keyed(objects: Objects) {
    forall id :: id in objects ==> objects[id].id == id
  }

  function Selection(objects: Objects, order: seq<Id>, wantGlobal: bool): Objects {
    map id | id in objects && id in order && IsGlobal(objects[id].ty) == wantGlobal :: objects[id]
  }

  lemma {:induction false} InsertListed(base: Objects, objects: Objects, order: seq<Id>, wantGlobal: bool)
    requires Keyed(objects)
    ensures InsertAll(base, Listed(objects, order, wantGlobal)) == base + Selection(objects, order, wantGlobal)
    decreases |order|
  {
    if order == [] {
      assert base + Selection(objects, order, wantGlobal) == base;
    } else {
      var id := order[0];
      if id in objects && IsGlobal(objects[id].ty) == wantGlobal {
        InsertListed(base[id := objects[id]], objects, order[1..], wantGlobal);
        SelectionTakes(base, objects, order, wantGlobal);
      } else {
        InsertListed(base, objects, order[1..], wantGlobal);
        assert Selection(objects, order[1..], wantGlobal) == Selection(objects, order, wantGlobal);
      }
    }
  }

  lemma SelectionTakes(base: Objects, objects: Objects, order: seq<Id>, wantGlobal: bool)
    requires order != [] && order[0] in objects && IsGlobal(objects[order[0]].ty) == wantGlobal
    ensures base[order[0] := objects[order[0]]] + Selection(objects, order[1..], wantGlobal)
            == base + Selection(objects, order, wantGlobal)
  {
    var rest, all := Selection(objects, order[1..], wantGlobal), Selection(objects, order, wantGlobal);
    assert forall id :: id in all <==> id == order[0] || id in rest;
  }

  /** Over a whole enumeration the selections are the global and the local part. */
  lemma SelectionWhole(objects: Objects, order: seq<Id>)
    requires Enumerates(order, objects.Keys)
    ensures Selection(objects, order, true) == GlobalPart(objects)
    ensures Selection(objects, order, false) == LocalPart(objects)
  {
    assert forall id :: id in objects ==> id in Elements(order);
  }
}
