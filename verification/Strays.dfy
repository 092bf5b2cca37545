/** What a view holds of another peer's local objects: nothing but what that peer shows now, and only in a shared room. */
module Strays {
  import opened Options
  import opened Values
  import opened Protocol
  import opened Identifiers
  import opened Server
  import opened Effects
  import opened Rooms
  import opened Replica
  import opened Membership

  ghost predicate Within(a: Objects, b: Objects) {
    forall id :: id in a ==> id in b && b[id] == a[id]
  }

  /** No local object is known that the peer does not have; none at all of a peer that is elsewhere. */
  ghost predicate Tidy(known: Option<Info>, p: Peer, together: bool) {
    known.Some? ==> Within(LocalPart(known.value.objects), if together then p.objects else map[])
  }

  /** Both have chosen the same room, and it exists. */
  predicate Together(s: State, q: Peer, p: Peer) { q.Room() == p.Room() && q.Room() in s.rooms }

  ghost predicate PairTidy(s: State, q: Peer, p: Peer) {
    q.Authenticated() && p.Authenticated() ==> Tidy(Look(q.out, p.id), p, Together(s, q, p))
  }

  ghost predicate OthersTidy(s: State) {
    forall q, p :: q in s.peers && p in s.peers && q != p ==> PairTidy(s, s.peers[q], s.peers[p])
  }

  ghost predicate MeTidy(s: State, me: Peer) {
    forall q :: q in s.peers ==> PairTidy(s, s.peers[q], me) && PairTidy(s, me, s.peers[q])
  }

  /** Nobody knows local objects of the handled peer, nor it any of theirs. */
  ghost predicate MeClear(s: State, me: Peer) {
    forall q :: q in s.peers && s.peers[q].Authenticated() ==>
      Tidy(Look(s.peers[q].out, me.id), me, false) && Tidy(Look(me.out, q), s.peers[q], false)
  }

  // ----- Single messages

  lemma AnnouncedTidy(p: Peer, order: seq<Id>, together: bool)
    requires Keyed(p.objects)
    ensures Tidy(Some(Announced(p, order)), p, together)
  {
    InsertListed(map[], p.objects, order, true);
    assert LocalPart(map[] + Selection(p.objects, order, true)) == map[];
  }

  lemma JoinedTidy(known: Option<Info>, p: Peer, order: seq<Id>)
    requires Keyed(p.objects) && Tidy(known, p, true)
    ensures Tidy(React(known, PeerJoin(p.id, LocalsOf(p, order))), p, true)
  {
    if known.Some? { InsertListed(known.value.objects, p.objects, order, false); }
  }

  lemma LeftTidy(known: Option<Info>, p: Peer, id: PeerId)
    ensures Tidy(React(known, PeerLeave(id)), p, false)
  {
  }

  lemma CreatedTidy(known: Option<Info>, p: Peer, o: RemoteObject, together: bool)
    requires Tidy(known, p, together) && (together || IsGlobal(o.ty))
    ensures Tidy(React(known, ObjectCreated(p.id, o)), p.(objects := p.objects[o.id := o]), together)
  {
  }

  lemma UpdatedTidy(known: Option<Info>, p: Peer, id: Id, key: Key, value: Value, together: bool)
    requires Tidy(known, p, together) && id in p.objects && (together || IsGlobal(p.objects[id].ty))
    ensures Tidy(React(known, ObjectUpdated(p.id, id, key, value)),
                 p.(objects := p.objects[id := p.objects[id].(props := Inserted(p.objects[id].props, key, value))]), together)
  {
    if known.Some? && id in known.value.objects && !IsGlobal(known.value.objects[id].ty) {
      assert id in LocalPart(known.value.objects);
    }
  }

  lemma RemovedTidy(known: Option<Info>, p: Peer, id: Id, together: bool)
    requires Tidy(known, p, together)
    ensures Tidy(React(known, ObjectRemoved(p.id, id)), p.(objects := p.objects - {id}), together)
  {
  }

  /** What is not together need not change with the peer's objects. */
  lemma ApartTidy(known: Option<Info>, p: Peer, p': Peer)
    requires Tidy(known, p, false)
    ensures Tidy(known, p', false) && Tidy(known, p', true)
  {
  }

  // ----- The others, and the handled peer

  /** Messages about the handled peer leave what others know of each other tidy, as long as no shared room goes. */
  lemma OthersTidyKept(s: State, t: State, me: PeerId)
    requires OthersTidy(s) && OnlyAbout(s, t, me) && OwnIds(s.peers) && me !in s.peers
    requires forall room :: room in s.rooms && room !in t.rooms ==> NothingToShare(room, s.peers)
    ensures OthersTidy(t)
  {
    hide Look, LocalPart;
    forall q, p | q in t.peers && p in t.peers && q != p
      ensures PairTidy(t, t.peers[q], t.peers[p])
    {
      assert PairTidy(s, s.peers[q], s.peers[p]);
      assert t.peers[p] == s.peers[p].(out := t.peers[p].out);
      assert t.peers[q] == s.peers[q].(out := t.peers[q].out);
      RoomGone(Look(s.peers[q].out, p), s, t, s.peers, q, p);
    }
  }

  /** Where there is nothing to share a pair that was together is tidy even apart. */
  lemma RoomGone(known: Option<Info>, s: State, t: State, peers: map<PeerId, Peer>, q: PeerId, p: PeerId)
    requires q in peers && p in peers && q != p && peers[q].Authenticated() && peers[p].Authenticated()
             ==> Tidy(known, peers[p], Together(s, peers[q], peers[p]))
    requires forall room :: room in s.rooms && room !in t.rooms ==> NothingToShare(room, peers)
    ensures q in peers && p in peers && q != p && peers[q].Authenticated() && peers[p].Authenticated()
            ==> Tidy(known, peers[p], Together(t, peers[q], peers[p]))
  {
    if q in peers && p in peers && q != p && peers[q].Authenticated() && peers[p].Authenticated() {
      if Together(s, peers[q], peers[p]) && !Together(t, peers[q], peers[p]) && known.Some? {
        assert NothingToShare(peers[p].Room(), peers);
        forall id | id in LocalPart(known.value.objects)
          ensures id in LocalPart(peers[p].objects)
        {
        }
      }
    }
  }

  lemma MeTidyBy(s: State, t: State, me: Peer, me': Peer)
    requires OnlyAbout(s, t, me.id) && OwnIds(s.peers) && me'.id == me.id && me.id !in s.peers
    requires me'.Authenticated() ==> forall q :: q in s.peers && s.peers[q].Authenticated() ==>
               && Tidy(Look(t.peers[q].out, me.id), me', Together(t, s.peers[q], me'))
               && Tidy(Look(me'.out, q), s.peers[q], Together(t, me', s.peers[q]))
    ensures MeTidy(t, me')
  {
    hide Look, Tidy;
    forall q | q in t.peers
      ensures PairTidy(t, t.peers[q], me') && PairTidy(t, me', t.peers[q])
    {
      assert t.peers[q] == s.peers[q].(out := t.peers[q].out);
      SameTidy(Look(me'.out, q), s.peers[q], t.peers[q], Together(t, me', s.peers[q]));
    }
  }

  lemma SameTidy(known: Option<Info>, p: Peer, p': Peer, together: bool)
    requires p'.objects == p.objects
    ensures Tidy(known, p, together) <==> Tidy(known, p', together)
  {
  }

  // ----- Joining and leaving

  /** A peer that joins its room with a clear view shares exactly with the members. */
  lemma JoinTidy(s: State, me: Peer, order: Orders)
    requires RoomsKept(s) && Fits(s, me) && Exact(s) && me.Authenticated() && MeClear(s, me)
    ensures var h := JoinRoom(s, me, me.Room(), order); MeTidy(h.s, h.me)
  {
    hide Look, React, LocalsOf, Tidy;
    var room := me.Room();
    var h := JoinRoom(s, me, room, order);
    if room in s.rooms { JoinMembersSeen(s, me, s.rooms[room], order); }
    forall q | q in s.peers && s.peers[q].Authenticated()
      ensures Tidy(Look(h.s.peers[q].out, me.id), h.me, Together(h.s, s.peers[q], h.me))
      ensures Tidy(Look(h.me.out, q), s.peers[q], Together(h.s, h.me, s.peers[q]))
    {
      assert Enrolled(s, s.peers[q]);
      ApartTidy(Look(s.peers[q].out, me.id), me, me);
      ApartTidy(Look(me.out, q), s.peers[q], s.peers[q]);
      if room in s.rooms && q in s.rooms[room] {
        assert Belongs(s.peers[q], room);
        JoinedTidy(Look(s.peers[q].out, me.id), me, order.own);
        JoinedTidy(Look(me.out, q), s.peers[q], Ordered(order, q));
      }
      SameTidy(Look(h.s.peers[q].out, me.id), me, h.me, Together(h.s, s.peers[q], h.me));
    }
    MeTidyBy(s, h.s, me, h.me);
  }

  /** Leaving the room it was in clears its view, and everybody's of it. */
  lemma LeaveClears(s: State, me: Peer, room: StableId)
    requires RoomsKept(s) && Fits(s, me)
    requires forall q :: q in s.peers && s.peers[q].Authenticated() ==>
               && Tidy(Look(s.peers[q].out, me.id), me, s.peers[q].Room() == room && room in s.rooms)
               && Tidy(Look(me.out, q), s.peers[q], s.peers[q].Room() == room && room in s.rooms)
    ensures var h := LeaveRoom(s, me, room); MeClear(h.s, h.me)
  {
    hide Look, React, Tidy;
    var h := LeaveRoom(s, me, room);
    if room in s.rooms {
      WithoutIs(s.rooms[room], me.id);
      LeaveMembersSeen(s.(rooms := s.rooms[room := Without(s.rooms[room], me.id)]), me, Without(s.rooms[room], me.id));
    }
    forall q | q in h.s.peers && h.s.peers[q].Authenticated()
      ensures Tidy(Look(h.s.peers[q].out, me.id), h.me, false) && Tidy(Look(h.me.out, q), h.s.peers[q], false)
    {
      if room in s.rooms { assert h.s.peers[q] == s.peers[q].(out := h.s.peers[q].out); }
      assert Enrolled(s, s.peers[q]);
      LeftTidy(Look(s.peers[q].out, me.id), h.me, me.id);
      LeftTidy(Look(me.out, q), h.s.peers[q], q);
      SameTidy(Look(s.peers[q].out, me.id), me, h.me, false);
      SameTidy(Look(me.out, q), s.peers[q], h.s.peers[q], false);
    }
  }
}
