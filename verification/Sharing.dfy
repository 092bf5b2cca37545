/** Local objects are shared exactly within a room, in every history that treats rooms well. */
module Sharing {
  import opened Options
  import opened Values
  import opened Protocol
  import opened Identifiers
  import opened Server
  import opened Effects
  import opened Aspects
  import opened Rooms
  import opened Replica
  import opened Runs
  import opened Membership
  import opened Strays
  import opened Words
  import Hash

  // ----- Events

  /** The event makes the room disappear. */
  ghost predicate Closes(room: StableId, s: State, me: Peer, e: Event, order: Orders) {
    && room in s.rooms
    && Handle(s, me, e, order).Some? && room !in Handle(s, me, e, order).value.s.rooms
  }

  /** Only rooms are removed whose peers have nothing to show each other. */
  ghost predicate Gentle(s: State, me: Peer, e: Event, order: Orders) {
    forall room :: Closes(room, s, me, e, order) ==> NothingToShare(room, s.peers[me.id := me])
  }

  lemma ConnectingTidy(s: State, me: Peer, e: Event, order: Orders)
    requires e.Connect? && RoomsKept(s) && Fits(s, me) && OrdersFit(s, me, e, order)
    requires e.key != 0 && Anonymous(s) && Exact(s)
    ensures var h := Connecting(s, me, e, order); MeTidy(h.s, h.me)
  {
    hide Look, Introduced, JoinRoom, Tidy, Exact, Anonymous, RoomsKept;
    IntroducedKeeps(s, me, e, order);
    IntroducedExact(s, me, e, order);
    InsertAllKeyed(me.objects, e.objects);
    var h := Introduced(s, me, e, order);
    forall q | q in h.s.peers && h.s.peers[q].Authenticated()
      ensures Tidy(Look(h.s.peers[q].out, me.id), h.me, false) && Tidy(Look(h.me.out, q), h.s.peers[q], false)
    {
      assert h.s.peers[q] == s.peers[q].(out := h.s.peers[q].out);
      AnnouncedTidy(h.me, order.own, false);
      AnnouncedTidy(s.peers[q], Ordered(order, q), false);
      SameTidy(Look(h.me.out, q), s.peers[q], h.s.peers[q], false);
    }
    JoinTidy(h.s, h.me, order);
    ConnectingJoins(s, me, e, order);
  }

  /** A view of the peer is as tidy as before when its properties change. */
  lemma PropertyTidy(s: State, me: Peer, key: Key, value: Value)
    requires RoomsKept(s) && Fits(s, me) && me.Authenticated() && MeTidy(s, me)
    ensures var t := SendToAll(s, me.id, PeerUpdated(me.id, key, value));
            forall q :: q in t.peers && t.peers[q].Authenticated() ==>
              && Tidy(Look(t.peers[q].out, me.id), me, Together(s, s.peers[q], me))
              && Tidy(Look(me.out, q), t.peers[q], Together(s, s.peers[q], me))
  {
    hide Look, SendToAll;
    PeerUpdatedKeeps(s, me, key, value);
    var t := SendToAll(s, me.id, PeerUpdated(me.id, key, value));
    forall q | q in t.peers && t.peers[q].Authenticated()
      ensures Tidy(Look(t.peers[q].out, me.id), me, Together(s, s.peers[q], me))
      ensures Tidy(Look(me.out, q), t.peers[q], Together(s, s.peers[q], me))
    {
      assert t.peers[q] == s.peers[q].(out := t.peers[q].out);
      assert PairTidy(s, s.peers[q], me) && PairTidy(s, me, s.peers[q]);
      assert Seen(t, q, me.id) == React(Seen(s, q, me.id), PeerUpdated(me.id, key, value));
    }
  }

  lemma PeerUpdatingTidy(s: State, me: Peer, key: Key, value: Value, order: Orders)
    requires RoomsKept(s) && Fits(s, me) && me.Authenticated() && Exact(s) && MeTidy(s, me)
    ensures var h := PeerUpdating(s, me, key, value, order); MeTidy(h.s, h.me)
  {
    hide Look, SendToAll, LeaveRoom, JoinRoom, Tidy;
    PeerUpdatedKeeps(s, me, key, value);
    RoomAfterUpdate(me, key, value);
    var s1 := SendToAll(s, me.id, PeerUpdated(me.id, key, value));
    var me1 := me.(props := Inserted(me.props, key, value));
    PropertyTidy(s, me, key, value);
    ExactAfter(s, s1, me.id);
    forall q | q in s1.peers && s1.peers[q].Authenticated()
      ensures Tidy(Look(s1.peers[q].out, me.id), me1, Together(s, s.peers[q], me))
      ensures Together(s, s.peers[q], me) == (s1.peers[q].Room() == me.Room() && me.Room() in s1.rooms)
    {
      assert s1.peers[q] == s.peers[q].(out := s1.peers[q].out);
      SameTidy(Look(s1.peers[q].out, me.id), me, me1, Together(s, s.peers[q], me));
    }
    if key == ROOM {
      LeaveRoomKeeps(s1, me1, me.Room());
      LeaveClears(s1, me1, me.Room());
      var left := LeaveRoom(s1, me1, me.Room());
      ExactAfter(s1, left.s, me.id);
      FitsAfter(s1, left.s, left.me);
      JoinTidy(left.s, left.me, order);
    } else {
      forall q | q in s.peers && s.peers[q].Authenticated()
        ensures Tidy(Look(s1.peers[q].out, me.id), me1, Together(s1, s.peers[q], me1))
        ensures Tidy(Look(me1.out, q), s.peers[q], Together(s1, me1, s.peers[q]))
      {
        assert s1.peers[q] == s.peers[q].(out := s1.peers[q].out);
        SameTidy(Look(me1.out, q), s.peers[q], s1.peers[q], Together(s1, me1, s.peers[q]));
      }
      MeTidyBy(s, s1, me, me1);
    }
  }

  /** An update of a local object reaches exactly those it is shared with. */
  lemma ReachesTogether(s: State, me: Peer, ty: TypeId, q: PeerId)
    requires RoomsKept(s) && OwnIds(s.peers) && Exact(s) && q in s.peers
    requires s.peers[q].Authenticated() && !IsGlobal(ty)
    ensures Reaches(s, me, ty, q) <==> Together(s, s.peers[q], me)
  {
    assert Enrolled(s, s.peers[q]);
    if me.Room() in s.rooms && q in s.rooms[me.Room()] { assert Belongs(s.peers[q], me.Room()); }
  }

  lemma ObjectCreatingTidy(s: State, me: Peer, o: RemoteObject, order: Orders)
    requires RoomsKept(s) && Fits(s, me) && Enumerates(order.peers, s.peers.Keys) && Exact(s) && MeTidy(s, me)
    ensures var h := ObjectCreating(s, me, o, order); MeTidy(h.s, h.me)
  {
    hide Look, React, SendUpdate, Tidy;
    var me1 := me.(objects := me.objects[o.id := o]);
    var s1 := if o.ty == ROOM_TYPE then CreateRoom(s, me1, o.id, order.peers) else s;
    if o.ty == ROOM_TYPE { CreateRoomLists(s, me1, o.id, order.peers); }
    SendUpdateSeen(s1, me1, o.ty, ObjectCreated(me.id, o));
    var h := ObjectCreating(s, me, o, order);
    forall q | me1.Authenticated() && q in s.peers && s.peers[q].Authenticated()
      ensures Tidy(Look(h.s.peers[q].out, me.id), me1, Together(h.s, s.peers[q], me1))
      ensures Tidy(Look(me1.out, q), s.peers[q], Together(h.s, me1, s.peers[q]))
    {
      assert PairTidy(s, s.peers[q], me) && PairTidy(s, me, s.peers[q]);
      GrownTidy(Seen(s, q, me.id), me, Together(s, s.peers[q], me), Together(h.s, s.peers[q], me1));
      GrownTidy(Look(me.out, q), s.peers[q], Together(s, me, s.peers[q]), Together(h.s, me1, s.peers[q]));
      if IsGlobal(o.ty) {
        CreatedTidy(Seen(s, q, me.id), me, o, Together(h.s, s.peers[q], me1));
      } else {
        ReachesTogether(s1, me1, o.ty, q);
        if Together(h.s, s.peers[q], me1) {
          CreatedTidy(Seen(s, q, me.id), me, o, true);
        } else {
          ApartTidy(Seen(s, q, me.id), me, me1);
        }
      }
    }
    MeTidyBy(s, h.s, me, me1);
  }

  /** Coming together is no reason to be untidy. */
  lemma GrownTidy(known: Option<Info>, p: Peer, before: bool, after: bool)
    requires Tidy(known, p, before) && (before ==> after)
    ensures Tidy(known, p, after)
  {
  }

  lemma ObjectUpdatingTidy(s: State, me: Peer, id: Id, key: Key, value: Value)
    requires RoomsKept(s) && Fits(s, me) && Exact(s) && MeTidy(s, me)
    ensures var h := ObjectUpdating(s, me, id, key, value); MeTidy(h.s, h.me)
  {
    hide Look, React, SendUpdate, Tidy;
    if id in me.objects {
      var h := ObjectUpdating(s, me, id, key, value);
      var ty := me.objects[id].ty;
      SendUpdateSeen(s, h.me, ty, ObjectUpdated(me.id, id, key, value));
      forall q | h.me.Authenticated() && q in s.peers && s.peers[q].Authenticated()
        ensures Tidy(Look(h.s.peers[q].out, me.id), h.me, Together(h.s, s.peers[q], h.me))
        ensures Tidy(Look(h.me.out, q), s.peers[q], Together(h.s, h.me, s.peers[q]))
      {
        assert PairTidy(s, s.peers[q], me) && PairTidy(s, me, s.peers[q]);
        if IsGlobal(ty) {
          UpdatedTidy(Seen(s, q, me.id), me, id, key, value, Together(s, s.peers[q], me));
        } else {
          ReachesTogether(s, h.me, ty, q);
          if Together(s, s.peers[q], me) {
            UpdatedTidy(Seen(s, q, me.id), me, id, key, value, true);
          } else {
            ApartTidy(Seen(s, q, me.id), me, h.me);
          }
        }
      }
      MeTidyBy(s, h.s, me, h.me);
    }
  }

  lemma ObjectRemovingTidy(s: State, me: Peer, id: Id)
    requires RoomsKept(s) && Fits(s, me) && Exact(s) && MeTidy(s, me)
    requires forall room :: room in s.rooms && room !in ObjectRemoving(s, me, id).s.rooms ==>
               NothingToShare(room, s.peers[me.id := me])
    ensures var h := ObjectRemoving(s, me, id); MeTidy(h.s, h.me)
  {
    hide Look, React, SendUpdate, Tidy, NothingToShare;
    if id in me.objects {
      var h := ObjectRemoving(s, me, id);
      var ty := me.objects[id].ty;
      var s1 := if ty == ROOM_TYPE then s.(rooms := s.rooms - {StableId(me.key, id)}) else s;
      SendUpdateSeen(s1, h.me, ty, ObjectRemoved(me.id, id));
      SendRooms(s1, h.me, ty, ObjectRemoved(me.id, id));
      var all := s.peers[me.id := me];
      forall q | h.me.Authenticated() && q in s.peers && s.peers[q].Authenticated()
        ensures Tidy(Look(h.s.peers[q].out, me.id), h.me, Together(h.s, s.peers[q], h.me))
        ensures Tidy(Look(h.me.out, q), s.peers[q], Together(h.s, h.me, s.peers[q]))
      {
        assert PairTidy(s, s.peers[q], me) && PairTidy(s, me, s.peers[q]);
        RoomGone(Seen(s, q, me.id), s, h.s, all, q, me.id);
        RoomGone(Look(me.out, q), s, h.s, all, me.id, q);
        RemovedTidy(Seen(s, q, me.id), me, id, Together(h.s, s.peers[q], h.me));
        if !IsGlobal(ty) {
          ReachesTogether(s, h.me, ty, q);
          if !Together(s, s.peers[q], me) { ApartTidy(Seen(s, q, me.id), me, h.me); }
        }
      }
      MeTidyBy(s, h.s, me, h.me);
    }
  }

  lemma RepliesTidy(s: State, me: Peer, m: Msg, challenge: Option<nat>)
    requires MeTidy(s, me) && (m.Pong? || m.Challenge?)
    ensures MeTidy(s, me.Push(m).(challenge := challenge))
  {
    hide Look, Tidy;
    var me' := me.Push(m).(challenge := challenge);
    forall q | q in s.peers
      ensures PairTidy(s, s.peers[q], me') && PairTidy(s, me', s.peers[q])
    {
      assert PairTidy(s, s.peers[q], me) && PairTidy(s, me, s.peers[q]);
      LookPush(me.out, m, s.peers[q].id);
      SameTidy(Look(s.peers[q].out, me.id), me, me', Together(s, s.peers[q], me));
    }
  }

  lemma HandleMeTidy(s: State, me: Peer, e: Event, order: Orders)
    requires RoomsKept(s) && Fits(s, me) && OrdersFit(s, me, e, order) && Handle(s, me, e, order).Some?
    requires Anonymous(s) && Exact(s) && MeTidy(s, me) && Gentle(s, me, e, order)
    ensures var h := Handle(s, me, e, order).value; MeTidy(h.s, h.me)
  {
    hide RoomsKept, Fits, Anonymous, Exact, MeTidy, NothingToShare;
    hide Connecting, PeerUpdating, ObjectCreating, ObjectUpdating, ObjectRemoving;
    match e {
      case Connect(_, _, _, _) => ConnectingTidy(s, me, e, order);
      case Ping(payload) => RepliesTidy(s, me, Pong(payload), me.challenge);
      case Hello(nonce) => RepliesTidy(s, me, Challenge(nonce), Some(nonce));
      case PeerUpdate(key, value) => PeerUpdatingTidy(s, me, key, value, order);
      case ObjectCreate(o) => ObjectCreatingTidy(s, me, o, order);
      case ObjectUpdate(id, key, value) => ObjectUpdatingTidy(s, me, id, key, value);
      case ObjectRemove(id) =>
        forall room | room in s.rooms && room !in ObjectRemoving(s, me, id).s.rooms
          ensures NothingToShare(room, s.peers[me.id := me])
        {
          assert Closes(room, s, me, e, order);
        }
        ObjectRemovingTidy(s, me, id);
    }
  }

  lemma HandleTidy(s: State, me: Peer, e: Event, order: Orders)
    requires RoomsKept(s) && Fits(s, me) && Enrolled(s, me) && OrdersFit(s, me, e, order)
    requires Handle(s, me, e, order).Some? && Anonymous(s) && Exact(s)
    requires OthersTidy(s) && MeTidy(s, me) && Gentle(s, me, e, order)
    ensures var h := Handle(s, me, e, order).value; OthersTidy(h.s) && MeTidy(h.s, h.me)
  {
    hide RoomsKept, Enrolled, Anonymous, Exact, MeTidy, OthersTidy, OrdersFit, OnlyAbout, Handle;
    HandleMeTidy(s, me, e, order);
    HandleKeepsRooms(s, me, e, order);
    var t := Handle(s, me, e, order).value.s;
    forall room | room in s.rooms && room !in t.rooms
      ensures NothingToShare(room, s.peers)
    {
      assert Closes(room, s, me, e, order);
      FewerShare(room, s.peers, me);
    }
    OthersTidyKept(s, t, me.id);
  }

  lemma FewerShare(room: StableId, peers: map<PeerId, Peer>, me: Peer)
    requires NothingToShare(room, peers[me.id := me]) && me.id !in peers
    ensures NothingToShare(room, peers)
  {
    forall p, q | p in peers && q in peers && p != q && Concerned(Locals(room), peers[p], peers[q])
      ensures LocalPart(peers[p].objects) == map[]
    {
      var all := peers[me.id := me];
      assert all[p] == peers[p] && all[q] == peers[q];
    }
  }

  // ----- Histories

  ghost predicate InputsGentle(s: State, me: Peer, inputs: seq<Input>)
    decreases |inputs|
  {
    inputs != [] ==>
      && Gentle(s, me, inputs[0].event, inputs[0].order)
      && var r := Handle(s, me, inputs[0].event, inputs[0].order);
         r.Some? ==> InputsGentle(r.value.s, r.value.me, inputs[1..])
  }

  ghost predicate StepGentle(s: State, step: Step) {
    step.Dispatch? && step.id in s.peers ==>
      InputsGentle(s.(peers := s.peers - {step.id}), s.peers[step.id], step.inputs)
  }

  /** Every peer stays where it is listed, and no room is removed from under peers with something to show. */
  ghost predicate WellRun(states: seq<State>, steps: seq<Step>) {
    && Orderly(states, steps)
    && |steps| <= |states| && forall i :: 0 <= i < |steps| ==> StepGentle(states[i], steps[i])
  }

  ghost predicate ReachableWell(s: State) {
    exists states, steps :: History(states, steps) && WellRun(states, steps) && s == states[|steps|]
  }

  /** And besides, the room was opened only for peers that had nothing to show each other yet. */
  ghost predicate ReachableSharing(room: StableId, s: State) {
    exists states, steps ::
      History(states, steps) && WellRun(states, steps) && Undisturbed(Locals(room), states, steps) && s == states[|steps|]
  }

  lemma {:induction false} HandleAllTidy(s: State, me: Peer, inputs: seq<Input>, failing: bool)
    requires SoundWith(s, me) && InputsFit(s, me, inputs) && InputsOrderly(s, me, inputs) && InputsGentle(s, me, inputs)
    requires Settled(s) && MeSettled(s, me) && OthersTidy(s) && MeTidy(s, me)
    ensures OthersTidy(HandleAll(s, me, inputs, failing))
    decreases |inputs|
  {
    hide SoundWith, Settled, MeSettled, OthersTidy, MeTidy, Handle, OrdersFit, Gentle;
    SoundFits(s, me);
    DropTidy(s, me);
    InsertTidy(s, me);
    if inputs != [] {
      var r := Handle(s, me, inputs[0].event, inputs[0].order);
      if r.Some? {
        SettledExact(s);
        HandleTidy(s, me, inputs[0].event, inputs[0].order);
        HandleSettled(s, me, inputs[0].event, inputs[0].order);
        SoundAgrees(s, me);
        assert Harmless(Identity, s, me, inputs[0].event, inputs[0].order);
        HandleSound(Identity, s, me, inputs[0].event, inputs[0].order);
        HandleAllTidy(r.value.s, r.value.me, inputs[1..], failing);
      }
    }
  }

  lemma SoundFits(s: State, me: Peer)
    requires SoundWith(s, me)
    ensures RoomsKept(s) && Fits(s, me) && Enrolled(s, me)
  {
  }

  lemma SettledExact(s: State)
    requires Settled(s)
    ensures Anonymous(s) && Exact(s)
  {
  }

  lemma DropTidy(s: State, me: Peer)
    requires Fits(s, me) && OthersTidy(s)
    ensures OthersTidy(Drop(s, me))
  {
    hide Look, OthersTidy, Allocator.Free;
    var s1 := s.(ids := s.ids.Free(me.id));
    SendToAllSeen(s1, me.id, PeerDisconnected(me.id));
    SameOthersTidy(s, s1);
    OthersTidyKept(s1, Drop(s, me), me.id);
  }

  lemma SameOthersTidy(s: State, t: State)
    requires OthersTidy(s) && t.peers == s.peers && t.rooms == s.rooms
    ensures OthersTidy(t)
  {
    hide Look, Tidy;
    forall q, p | q in t.peers && p in t.peers && q != p
      ensures PairTidy(t, t.peers[q], t.peers[p])
    {
      assert PairTidy(s, s.peers[q], s.peers[p]);
    }
  }

  lemma InsertTidy(s: State, me: Peer)
    requires Fits(s, me) && OthersTidy(s) && MeTidy(s, me)
    ensures OthersTidy(Insert(s, me))
  {
    hide Look, Tidy;
    var t := Insert(s, me);
    forall q, p | q in t.peers && p in t.peers && q != p
      ensures PairTidy(t, t.peers[q], t.peers[p])
    {
      if q == me.id {
        assert PairTidy(s, me, s.peers[p]);
      } else if p == me.id {
        assert PairTidy(s, s.peers[q], me);
      } else {
        assert PairTidy(s, s.peers[q], s.peers[p]);
      }
    }
  }

  lemma TakeOutTidy(s: State, id: PeerId)
    requires OthersTidy(s) && id in s.peers
    ensures var t := s.(peers := s.peers - {id}); OthersTidy(t) && MeTidy(t, s.peers[id])
  {
    hide Look, Tidy;
    var t := s.(peers := s.peers - {id});
    forall q, p | q in s.peers && p in s.peers && q != p
      ensures PairTidy(t, s.peers[q], s.peers[p])
    {
      assert PairTidy(s, s.peers[q], s.peers[p]);
    }
  }

  lemma EnteredTidy(s: State, id: PeerId, ids: Allocator)
    requires OthersTidy(s)
    ensures OthersTidy(Entered(s, id, ids))
  {
    hide Look, Tidy;
    var t := Entered(s, id, ids);
    forall q, p | q in t.peers && p in t.peers && q != p
      ensures PairTidy(t, t.peers[q], t.peers[p])
    {
      if q != id && p != id { assert PairTidy(s, s.peers[q], s.peers[p]); }
    }
  }

  lemma StepTidy(s: State, step: Step)
    requires Sound(s) && Settled(s) && OthersTidy(s)
    requires StepFits(s, step) && StepOrderly(s, step) && StepGentle(s, step)
    ensures OthersTidy(Next(s, step))
  {
    hide Sound, SoundWith, Settled, MeSettled, InputsFit, InputsOrderly, InputsGentle, HandleAll, OthersTidy, MeTidy;
    hide OthersAgree, MeAgrees, Accepting, Entered;
    match step {
      case Accept =>
        AcceptingIs(s);
        if s.ids.free != [] {
          EnteredTidy(s, s.ids.free[0], s.ids.(free := s.ids.free[1..]));
        } else if s.ids.last + 1 < WORD {
          EnteredTidy(s, Hash.Map(s.ids.last + 1, s.ids.seed), s.ids.(last := s.ids.last + 1));
        }
      case Popped(_) => SameOthersTidy(s, Next(s, step));
      case Dispatch(id, inputs, failing) =>
        if id in s.peers {
          SoundIdentity(s);
          TakeOut(Identity, s, id);
          TakeOutSettled(s, id);
          TakeOutTidy(s, id);
          HandleAllTidy(s.(peers := s.peers - {id}), s.peers[id], inputs, failing);
        } else {
          SameOthersTidy(s, Next(s, step));
        }
    }
  }

  lemma FreshTidy(seed: U32)
    ensures OthersTidy(FreshState(seed))
  {
  }

  lemma {:induction false} HistoryTidy(states: seq<State>, steps: seq<Step>, i: nat)
    requires History(states, steps) && WellRun(states, steps) && i < |states|
    ensures OthersTidy(states[i]) && Settled(states[i])
    decreases i
  {
    hide Sound, Settled, OthersTidy, StepFits, StepOrderly, StepGentle, Next;
    HistorySettled(states, steps, i);
    if i == 0 {
      var seed: U32 :| states[0] == FreshState(seed);
      FreshTidy(seed);
    } else {
      HistoryTidy(states, steps, i - 1);
      HistorySound(states, steps, i - 1);
      StepTidy(states[i - 1], steps[i - 1]);
    }
  }

  lemma WellIsSound(s: State)
    requires ReachableWell(s)
    ensures Reachable(s) && Sound(s) && Settled(s) && OthersTidy(s)
  {
    hide Sound, Settled, OthersTidy, StepFits, StepOrderly, StepGentle, Next, OthersAgree;
    var states, steps :| History(states, steps) && WellRun(states, steps) && s == states[|steps|];
    HistoryTidy(states, steps, |steps|);
    ReachableSound(s);
  }

  // ----- Main results

  /**
   * A client knows no local objects of a peer but those the peer has now, and none of a peer
   * that is not in its room.
   */
  lemma NoStrays(s: State, c: PeerId, p: PeerId)
    requires ReachableWell(s) && c in s.peers && p in s.peers && c != p
    requires s.peers[c].Authenticated() && s.peers[p].Authenticated()
    ensures var view := Fold(map[], s.peers[c].out);
            && p in view
            && if Together(s, s.peers[c], s.peers[p]) then Within(LocalPart(view[p].objects), s.peers[p].objects)
               else LocalPart(view[p].objects) == map[]
  {
    hide Fold, Look, ReachableWell, Reachable, Sound, Settled;
    WellIsSound(s);
    PeersReplicated(s, c, p);
    OwnId(s, p);
    FoldLooks(s.peers[c].out, p);
    assert PairTidy(s, s.peers[c], s.peers[p]);
  }

  /** In a room that opened when nobody had anything to show in it, clients have exactly each other's local objects. */
  lemma LocalsMirrored(s: State, room: StableId, c: PeerId, p: PeerId)
    requires if room == ZERO_ROOM then ReachableWell(s) else room in s.rooms && ReachableSharing(room, s)
    requires c in s.peers && p in s.peers && c != p && s.peers[c].Authenticated() && s.peers[p].Authenticated()
    requires s.peers[c].Room() == s.peers[p].Room() == room
    ensures var view := Fold(map[], s.peers[c].out);
            p in view && LocalPart(view[p].objects) == LocalPart(s.peers[p].objects)
  {
    hide Fold, Look, History, WellRun, Undisturbed, Sound, Settled;
    if room != ZERO_ROOM { SharingIsWell(room, s); }
    WellIsSound(s);
    SoundRooms(s);
    NoStrays(s, c, p);
    LocalsReplicated(s, room, c, p);
    var view := Fold(map[], s.peers[c].out);
    SamePart(view[p].objects, s.peers[p].objects);
  }

  lemma SharingIsWell(room: StableId, s: State)
    requires ReachableSharing(room, s)
    ensures ReachableWell(s) && ReachableUndisturbed(Locals(room), s)
  {
  }

  lemma SoundRooms(s: State)
    requires Sound(s)
    ensures ZERO_ROOM in s.rooms
  {
  }

  lemma SamePart(a: Objects, b: Objects)
    requires Within(LocalPart(a), b)
    requires forall id :: id in LocalPart(b) ==> id in a && a[id] == b[id]
    ensures LocalPart(a) == LocalPart(b)
  {
  }
}
