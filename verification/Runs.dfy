/** Whole runs of the server: what every reachable state satisfies. */
module Runs {
  import opened Options
  import opened Words
  import opened Values
  import opened Protocol
  import opened Identifiers
  import opened Server
  import opened Effects
  import opened Aspects
  import opened Rooms
  import opened Replica

  // ----- Strangers: nobody is told of peers that are not connected

  /** A peer learns only of connected peers. */
  ghost predicate LearnsOnly(s: State, me: Peer, me': Peer) {
    forall p :: Look(me'.out, p).Some? ==> Look(me.out, p).Some? || p in s.peers
  }

  lemma JoinLearns(s: State, me: Peer, room: StableId, order: Orders)
    requires RoomsKept(s) && Fits(s, me)
    ensures LearnsOnly(s, me, JoinRoom(s, me, room, order).me)
  {
    hide Look;
    if room in s.rooms { JoinMembersSeen(s, me, s.rooms[room], order); }
  }

  lemma LeaveLearns(s: State, me: Peer, room: StableId)
    requires RoomsKept(s) && Fits(s, me)
    ensures LearnsOnly(s, me, LeaveRoom(s, me, room).me)
  {
    hide Look;
    if room in s.rooms {
      WithoutIs(s.rooms[room], me.id);
      var members := Without(s.rooms[room], me.id);
      LeaveMembersSeen(s.(rooms := s.rooms[room := members]), me, members);
    }
  }

  lemma ConnectingLearns(s: State, me: Peer, e: Event, order: Orders)
    requires e.Connect? && RoomsKept(s) && Fits(s, me) && OrdersFit(s, me, e, order)
    ensures LearnsOnly(s, me, Connecting(s, me, e, order).me)
  {
    hide Look, TakeObjects, Connected, JoinRoom;
    IntroducedKeeps(s, me, e, order);
    var h := Introduced(s, me, e, order);
    JoinLearns(h.s, h.me, h.me.Room(), order);
  }

  lemma PeerUpdatingLearns(s: State, me: Peer, key: Key, value: Value, order: Orders)
    requires RoomsKept(s) && Fits(s, me)
    ensures LearnsOnly(s, me, PeerUpdating(s, me, key, value, order).me)
  {
    hide Look, SendToAll, LeaveRoom, JoinRoom;
    PeerUpdatedKeeps(s, me, key, value);
    if key == ROOM {
      var s1 := SendToAll(s, me.id, PeerUpdated(me.id, key, value));
      var me1 := me.(props := Inserted(me.props, key, value));
      LeaveRoomKeeps(s1, me1, me.Room());
      LeaveLearns(s1, me1, me.Room());
      var left := LeaveRoom(s1, me1, me.Room());
      OnlyAboutTransitive(s, s1, left.s, me.id);
      FitsAfter(s, left.s, left.me);
      JoinLearns(left.s, left.me, value.AsStableId(), order);
    }
  }

  lemma HandleLearns(s: State, me: Peer, e: Event, order: Orders)
    requires RoomsKept(s) && Fits(s, me) && OrdersFit(s, me, e, order) && Handle(s, me, e, order).Some?
    ensures LearnsOnly(s, me, Handle(s, me, e, order).value.me)
  {
    hide Look, RoomsKept, Fits, OrdersFit, Connecting, PeerUpdating;
    match e {
      case Connect(_, _, _, _) => ConnectingLearns(s, me, e, order);
      case PeerUpdate(key, value) => PeerUpdatingLearns(s, me, key, value, order);
      case Ping(payload) => RepliesLearn(s, me, Pong(payload));
      case Hello(nonce) => RepliesLearn(s, me, Challenge(nonce));
      case _ =>
    }
  }

  lemma RepliesLearn(s: State, me: Peer, m: Msg)
    requires m.Pong? || m.Challenge?
    ensures LearnsOnly(s, me, me.Push(m))
  {
    forall p
      ensures Look(me.out + [m], p) == Look(me.out, p)
    {
      LookPush(me.out, m, p);
    }
  }

  /** Every peer is told only of others that are connected, or being handled. */
  ghost predicate NoStrangers(s: State, handled: set<PeerId>) {
    forall q, p :: q in s.peers && Seen(s, q, p).Some? ==> p in s.peers.Keys + handled && p != q
  }

  // ----- Keys

  /** No two authenticated peers share a public key. */
  ghost predicate KeysDistinct(peers: map<PeerId, Peer>) {
    forall p, q :: p in peers && q in peers && p != q && peers[p].Authenticated() ==> peers[p].key != peers[q].key
  }

  /** Handling gives the peer no key but its own or an unused one. */
  lemma HandleKeys(s: State, me: Peer, e: Event, order: Orders)
    requires RoomsKept(s) && Fits(s, me) && Enrolled(s, me) && OrdersFit(s, me, e, order)
    requires Handle(s, me, e, order).Some? && KeysDistinct(s.peers[me.id := me])
    ensures var h := Handle(s, me, e, order).value; KeysDistinct(h.s.peers[h.me.id := h.me])
  {
    hide Connecting, Updating;
    HandleKeepsRooms(s, me, e, order);
    var h := Handle(s, me, e, order).value;
    KeyAfter(s, me, e, order);
    forall p, q | p in s.peers && q in s.peers && p != q && h.s.peers[p].Authenticated()
      ensures h.s.peers[p].key != h.s.peers[q].key
    {
      assert s.peers[me.id := me][p].key != s.peers[me.id := me][q].key;
    }
    forall q | q in s.peers
      ensures h.me.Authenticated() ==> h.me.key != h.s.peers[q].key
      ensures h.s.peers[q].Authenticated() ==> h.me.key != h.s.peers[q].key
    {
      assert me.Authenticated() ==> s.peers[me.id := me][me.id].key != s.peers[me.id := me][q].key;
      assert s.peers[q].Authenticated() ==> s.peers[me.id := me][q].key != s.peers[me.id := me][me.id].key;
    }
  }

  lemma KeyAfter(s: State, me: Peer, e: Event, order: Orders)
    requires RoomsKept(s) && Fits(s, me) && OrdersFit(s, me, e, order) && Handle(s, me, e, order).Some?
    ensures Handle(s, me, e, order).value.me.key == if e.Connect? then e.key else me.key
  {
    match e {
      case Connect(_, _, _, _) =>
        hide TakeObjects, Connected, JoinRoom;
        IntroducedKeeps(s, me, e, order);
        var h := Introduced(s, me, e, order);
        JoinRoomKeeps(h.s, h.me, h.me.Room(), order);
      case PeerUpdate(key, value) =>
        hide SendToAll, LeaveRoom, JoinRoom;
        PeerUpdatedKeeps(s, me, key, value);
        var s1 := SendToAll(s, me.id, PeerUpdated(me.id, key, value));
        var me1 := me.(props := Inserted(me.props, key, value));
        LeaveRoomKeeps(s1, me1, me.Room());
        var left := LeaveRoom(s1, me1, me.Room());
        OnlyAboutTransitive(s, s1, left.s, me.id);
        FitsAfter(s, left.s, left.me);
        JoinRoomKeeps(left.s, left.me, value.AsStableId(), order);
      case _ =>
    }
  }

  // ----- Between steps, and while a peer is handled

  ghost predicate Filed(s: State) {
    OwnIds(s.peers) && forall q :: q in s.peers ==> Keyed(s.peers[q].objects)
  }

  /** What every reachable state satisfies, whatever clients send. */
  ghost predicate Sound(s: State) {
    && Filed(s)
    && RoomsKept(s)
    && s.ids.Partition(s.peers.Keys)
    && KeysDistinct(s.peers)
    && OthersAgree(Identity, s)
    && NoStrangers(s, {})
  }

  /** The same with one peer taken out to be handled. */
  ghost predicate SoundWith(s: State, me: Peer) {
    && Fits(s, me)
    && RoomsKept(s) && Enrolled(s, me)
    && s.ids.Partition(s.peers.Keys + {me.id})
    && KeysDistinct(s.peers[me.id := me])
    && OthersAgree(Identity, s) && MeAgrees(Identity, s, me)
    && NoStrangers(s, {me.id}) && (forall p :: Look(me.out, p).Some? ==> p in s.peers)
  }

  lemma TakeOut(a: Aspect, s: State, id: PeerId)
    requires Sound(s) && id in s.peers && OthersAgree(a, s)
    ensures var t := s.(peers := s.peers - {id});
            SoundWith(t, s.peers[id]) && OthersAgree(a, t) && MeAgrees(a, t, s.peers[id])
  {
    hide Look, Allocator.Partition, NoStrangers, OthersAgree, MeAgrees;
    var t, me := s.(peers := s.peers - {id}), s.peers[id];
    assert t.peers.Keys + {id} == s.peers.Keys;
    assert t.peers[id := me] == s.peers;
    forall q | q in t.peers
      ensures Enrolled(t, t.peers[q])
    {
      assert Enrolled(s, s.peers[q]);
    }
    assert Enrolled(s, s.peers[id]);
    TakeOutAgrees(Identity, s, id);
    TakeOutAgrees(a, s, id);
    TakeOutStrangers(s, id);
  }

  lemma TakeOutStrangers(s: State, id: PeerId)
    requires NoStrangers(s, {}) && id in s.peers
    ensures var t := s.(peers := s.peers - {id});
            NoStrangers(t, {id}) && forall p :: Look(s.peers[id].out, p).Some? ==> p in t.peers
  {
    hide Look;
    var t := s.(peers := s.peers - {id});
    forall p | Look(s.peers[id].out, p).Some?
      ensures p in t.peers
    {
      assert Seen(s, id, p).Some?;
    }
    forall q, p | q in t.peers && Seen(t, q, p).Some?
      ensures (p in t.peers || p == id) && p != q
    {
      assert Seen(s, q, p).Some?;
    }
  }

  lemma TakeOutAgrees(a: Aspect, s: State, id: PeerId)
    requires id in s.peers && OthersAgree(a, s)
    ensures var t := s.(peers := s.peers - {id}); OthersAgree(a, t) && MeAgrees(a, t, s.peers[id])
  {
    hide PairAgrees;
  }

  lemma PutBack(a: Aspect, s: State, me: Peer)
    requires SoundWith(s, me) && OthersAgree(a, s) && MeAgrees(a, s, me)
    ensures Sound(Insert(s, me)) && OthersAgree(a, Insert(s, me))
  {
    hide Look, Allocator.Partition;
    var t := Insert(s, me);
    assert t.peers.Keys == s.peers.Keys + {me.id};
    forall q | q in t.peers
      ensures Enrolled(t, t.peers[q])
    {
      assert q != me.id ==> Enrolled(s, s.peers[q]);
    }
    PutBackAgrees(Identity, s, me);
    PutBackAgrees(a, s, me);
    forall q, p | q in t.peers && Seen(t, q, p).Some?
      ensures p in t.peers && p != q
    {
      assert q != me.id ==> Seen(s, q, p).Some?;
    }
  }

  lemma PutBackAgrees(a: Aspect, s: State, me: Peer)
    requires me.id !in s.peers && OthersAgree(a, s) && MeAgrees(a, s, me)
    ensures OthersAgree(a, Insert(s, me))
  {
    hide PairAgrees;
  }

  /** A dropped peer is forgotten by all others. */
  lemma DropSound(a: Aspect, s: State, me: Peer)
    requires SoundWith(s, me) && OthersAgree(a, s)
    ensures Sound(Drop(s, me)) && OthersAgree(a, Drop(s, me))
  {
    hide Look, Allocator.Partition, Allocator.Free, NoStrangers, KeysDistinct;
    var s1 := s.(ids := s.ids.Free(me.id));
    var t := Drop(s, me);
    SendToAllSeen(s1, me.id, PeerDisconnected(me.id));
    assert OnlyAbout(s1, t, me.id);
    FreePartition(s.ids, s.peers.Keys + {me.id}, me.id);
    assert s.peers.Keys + {me.id} - {me.id} == s.peers.Keys;
    OthersKept(Identity, s1, t, me.id);
    OthersKept(a, s1, t, me.id);
    EnrolledAfter(s1, t, me.id);
    FitsAfter(s1, t, me);
    DropKeys(s, me);
    DropStrangers(s, me);
  }

  lemma DropKeys(s: State, me: Peer)
    requires me.id !in s.peers && KeysDistinct(s.peers[me.id := me])
    ensures KeysDistinct(Drop(s, me).peers)
  {
    var t := Drop(s, me);
    forall p, q | p in t.peers && q in t.peers && p != q && t.peers[p].Authenticated()
      ensures t.peers[p].key != t.peers[q].key
    {
      assert s.peers[me.id := me][p].key != s.peers[me.id := me][q].key;
    }
  }

  lemma DropStrangers(s: State, me: Peer)
    requires me.id !in s.peers && NoStrangers(s, {me.id})
    ensures NoStrangers(Drop(s, me), {})
  {
    hide Look, Allocator.Free;
    var s1 := s.(ids := s.ids.Free(me.id));
    var m := PeerDisconnected(me.id);
    var t := Drop(s, me);
    SendToAllSeen(s1, me.id, m);
    var u := SendToAll(s1, me.id, m);
    forall q, p | q in t.peers && Seen(t, q, p).Some?
      ensures p in t.peers && p != q
    {
      assert Seen(u, q, me.id) == React(Seen(s1, q, me.id), m);
      assert p != me.id && Seen(s1, q, p).Some? && Seen(s, q, p).Some?;
    }
  }

  lemma HandleSound(a: Aspect, s: State, me: Peer, e: Event, order: Orders)
    requires SoundWith(s, me) && OrdersFit(s, me, e, order) && Handle(s, me, e, order).Some?
    requires Harmless(a, s, me, e, order) && OthersAgree(a, s) && MeAgrees(a, s, me)
    ensures var h := Handle(s, me, e, order).value;
            SoundWith(h.s, h.me) && OthersAgree(a, h.s) && MeAgrees(a, h.s, h.me)
  {
    hide Look, Allocator.Partition, Handle, RoomsKept, Fits, Enrolled, MeAgrees, OthersAgree, OrdersFit, KeysDistinct;
    HandleKeepsRooms(s, me, e, order);
    HandleAgrees(Identity, s, me, e, order);
    HandleAgrees(a, s, me, e, order);
    HandleKeys(s, me, e, order);
    HandleLearns(s, me, e, order);
    var h := Handle(s, me, e, order).value;
    forall q, p | q in h.s.peers && Seen(h.s, q, p).Some?
      ensures (p in h.s.peers || p == me.id) && p != q
    {
      assert p != me.id ==> Seen(h.s, q, p) == Seen(s, q, p);
      assert me.id !in s.peers by { NotIn(s, me); }
    }
  }

  lemma NotIn(s: State, me: Peer)
    requires Fits(s, me)
    ensures me.id !in s.peers
  {
  }

  // ----- Steps and runs

  /** The iteration orders given with a batch of events fit when their turn comes. */
  ghost predicate InputsFit(s: State, me: Peer, inputs: seq<Input>)
    decreases |inputs|
  {
    inputs != [] ==>
      && OrdersFit(s, me, inputs[0].event, inputs[0].order)
      && var r := Handle(s, me, inputs[0].event, inputs[0].order);
         r.Some? ==> InputsFit(r.value.s, r.value.me, inputs[1..])
  }

  ghost predicate InputsHarmless(a: Aspect, s: State, me: Peer, inputs: seq<Input>)
    decreases |inputs|
  {
    inputs != [] ==>
      && Harmless(a, s, me, inputs[0].event, inputs[0].order)
      && var r := Handle(s, me, inputs[0].event, inputs[0].order);
         r.Some? ==> InputsHarmless(a, r.value.s, r.value.me, inputs[1..])
  }

  ghost predicate StepFits(s: State, step: Step) {
    step.Dispatch? && step.id in s.peers ==> InputsFit(s.(peers := s.peers - {step.id}), s.peers[step.id], step.inputs)
  }

  ghost predicate StepHarmless(a: Aspect, s: State, step: Step) {
    step.Dispatch? && step.id in s.peers ==>
      InputsHarmless(a, s.(peers := s.peers - {step.id}), s.peers[step.id], step.inputs)
  }

  // ----- Histories

  /** The states from a fresh server on, one step after the other. */
  ghost predicate History(states: seq<State>, steps: seq<Step>) {
    && |states| == |steps| + 1
    && (exists seed: U32 :: states[0] == FreshState(seed))
    && forall i :: 0 <= i < |steps| ==> StepFits(states[i], steps[i]) && states[i + 1] == Next(states[i], steps[i])
  }

  /** No step of the history spoils what peers know of each other in this respect. */
  ghost predicate Undisturbed(a: Aspect, states: seq<State>, steps: seq<Step>) {
    |steps| <= |states| && forall i :: 0 <= i < |steps| ==> StepHarmless(a, states[i], steps[i])
  }

  /** Some history, whatever clients send in it, ends here. */
  ghost predicate Reachable(s: State) {
    exists states, steps :: History(states, steps) && s == states[|steps|]
  }

  ghost predicate ReachableUndisturbed(a: Aspect, s: State) {
    exists states, steps :: History(states, steps) && Undisturbed(a, states, steps) && s == states[|steps|]
  }

  lemma {:induction false} HandleAllSound(a: Aspect, s: State, me: Peer, inputs: seq<Input>, failing: bool)
    requires SoundWith(s, me) && InputsFit(s, me, inputs) && InputsHarmless(a, s, me, inputs)
    requires OthersAgree(a, s) && MeAgrees(a, s, me)
    ensures Sound(HandleAll(s, me, inputs, failing)) && OthersAgree(a, HandleAll(s, me, inputs, failing))
    decreases |inputs|
  {
    hide SoundWith, Sound, OthersAgree, MeAgrees, Handle, Harmless, OrdersFit;
    DropSound(a, s, me);
    if inputs == [] {
      PutBack(a, s, me);
    } else {
      var r := Handle(s, me, inputs[0].event, inputs[0].order);
      if r.Some? {
        HandleSound(a, s, me, inputs[0].event, inputs[0].order);
        HandleAllSound(a, r.value.s, r.value.me, inputs[1..], failing);
      }
    }
  }

  lemma AcceptSound(a: Aspect, s: State)
    requires Sound(s) && OthersAgree(a, s)
    ensures Sound(Accepting(s)) && OthersAgree(a, Accepting(s))
  {
    hide Allocator.Partition, Allocator.Next;
    NextPartition(s.ids, s.peers.Keys);
    var id := s.ids.Next().0;
    if id.Some? {
      var t := Accepting(s);
      assert t.peers.Keys == s.peers.Keys + {id.value};
      forall q | q in t.peers
        ensures Enrolled(t, t.peers[q])
      {
        assert q != id.value ==> Enrolled(s, s.peers[q]);
      }
      AcceptAgrees(Identity, s, id.value);
      AcceptAgrees(a, s, id.value);
      forall q, p | q in t.peers && Seen(t, q, p).Some?
        ensures p in t.peers && p != q
      {
        assert q != id.value && Seen(s, q, p).Some?;
      }
    } else {
      IdsSound(a, s, s.ids.Next().1);
    }
  }

  lemma IdsSound(a: Aspect, s: State, ids: Allocator)
    requires Sound(s) && OthersAgree(a, s) && ids.Partition(s.peers.Keys)
    ensures Sound(s.(ids := ids)) && OthersAgree(a, s.(ids := ids))
  {
    hide Look, Holds, Allocator.Partition;
    var t := s.(ids := ids);
    assert forall q :: q in s.peers ==> Enrolled(s, s.peers[q]) == Enrolled(t, t.peers[q]);
    assert forall q, p :: q in s.peers ==> Seen(t, q, p) == Seen(s, q, p);
  }

  lemma AcceptAgrees(a: Aspect, s: State, id: PeerId)
    requires id !in s.peers && OthersAgree(a, s)
    ensures OthersAgree(a, s.(peers := s.peers[id := NewPeer(id)]))
  {
    hide Look, Holds;
  }

  lemma StepSound(a: Aspect, s: State, step: Step)
    requires Sound(s) && OthersAgree(a, s) && StepFits(s, step) && StepHarmless(a, s, step)
    ensures Sound(Next(s, step)) && OthersAgree(a, Next(s, step))
  {
    hide Sound, SoundWith, OthersAgree, StepFits, StepHarmless, InputsFit, InputsHarmless, HandleAll, MeAgrees;
    match step {
      case Accept => AcceptSound(a, s);
      case Popped(id) => PollSound(a, s, s.poll - {id});
      case Dispatch(id, inputs, failing) =>
        if id in s.peers {
          TakeOut(a, s, id);
          DispatchFits(a, s, id, inputs, failing);
          HandleAllSound(a, s.(peers := s.peers - {id}), s.peers[id], inputs, failing);
        }
    }
  }

  lemma PollSound(a: Aspect, s: State, poll: set<PeerId>)
    requires Sound(s) && OthersAgree(a, s)
    ensures Sound(s.(poll := poll)) && OthersAgree(a, s.(poll := poll))
  {
    hide Look, Holds;
    var t := s.(poll := poll);
    assert forall q :: q in s.peers ==> Enrolled(s, s.peers[q]) == Enrolled(t, t.peers[q]);
    assert forall q, p :: q in s.peers ==> Seen(t, q, p) == Seen(s, q, p);
  }

  lemma DispatchFits(a: Aspect, s: State, id: PeerId, inputs: seq<Input>, failing: bool)
    requires id in s.peers
    requires StepFits(s, Dispatch(id, inputs, failing)) && StepHarmless(a, s, Dispatch(id, inputs, failing))
    ensures InputsFit(s.(peers := s.peers - {id}), s.peers[id], inputs)
    ensures InputsHarmless(a, s.(peers := s.peers - {id}), s.peers[id], inputs)
  {
  }

  lemma FreshSound(seed: U32)
    ensures Sound(FreshState(seed)) && forall a :: OthersAgree(a, FreshState(seed))
  {
    FreshPartition(seed);
  }

  // ----- Main results

  /** The zero room is never created anew, so no event can spoil it. */
  lemma ZeroRoomHarmless(s: State, me: Peer, e: Event, order: Orders)
    requires ZERO_ROOM in s.rooms
    ensures Harmless(Locals(ZERO_ROOM), s, me, e, order)
  {
  }

  lemma {:induction false} ZeroRoomInputsHarmless(s: State, me: Peer, inputs: seq<Input>)
    requires SoundWith(s, me) && InputsFit(s, me, inputs)
    ensures InputsHarmless(Locals(ZERO_ROOM), s, me, inputs)
    ensures InputsHarmless(Identity, s, me, inputs)
    decreases |inputs|
  {
    if inputs != [] {
      var r := Handle(s, me, inputs[0].event, inputs[0].order);
      assert ZERO_ROOM in s.rooms;
      hide SoundWith, Handle, OthersAgree, MeAgrees, OrdersFit;
      ZeroRoomHarmless(s, me, inputs[0].event, inputs[0].order);
      if r.Some? {
        SoundAgrees(s, me);
        HandleSound(Identity, s, me, inputs[0].event, inputs[0].order);
        ZeroRoomInputsHarmless(r.value.s, r.value.me, inputs[1..]);
      }
    }
  }

  lemma SoundAgrees(s: State, me: Peer)
    requires SoundWith(s, me)
    ensures OthersAgree(Identity, s) && MeAgrees(Identity, s, me)
  {
  }

  lemma SoundIdentity(s: State)
    requires Sound(s)
    ensures OthersAgree(Identity, s)
  {
  }

  /** Whatever clients send, a step keeps the identity and the zero room's aspect. */
  lemma AnyStepHarmless(s: State, step: Step)
    requires Sound(s) && StepFits(s, step)
    ensures StepHarmless(Locals(ZERO_ROOM), s, step) && StepHarmless(Identity, s, step)
  {
    hide Sound, SoundWith, OthersAgree, MeAgrees, InputsFit, InputsHarmless;
    SoundIdentity(s);
    if step.Dispatch? && step.id in s.peers {
      TakeOut(Identity, s, step.id);
      ZeroRoomInputsHarmless(s.(peers := s.peers - {step.id}), s.peers[step.id], step.inputs);
    }
  }

  lemma {:induction false} HistorySound(states: seq<State>, steps: seq<Step>, i: nat)
    requires History(states, steps) && i < |states|
    ensures Sound(states[i])
    decreases i
  {
    hide Sound, StepFits, StepHarmless, Next, OthersAgree;
    if i == 0 {
      var seed: U32 :| states[0] == FreshState(seed);
      FreshSound(seed);
    } else {
      HistorySound(states, steps, i - 1);
      AnyStepHarmless(states[i - 1], steps[i - 1]);
      SoundIdentity(states[i - 1]);
      StepSound(Identity, states[i - 1], steps[i - 1]);
    }
  }

  lemma {:induction false} HistoryAgrees(a: Aspect, states: seq<State>, steps: seq<Step>, i: nat)
    requires History(states, steps) && Undisturbed(a, states, steps) && i < |states|
    ensures OthersAgree(a, states[i])
    decreases i
  {
    hide Sound, StepFits, StepHarmless, Next, OthersAgree;
    if i == 0 {
      var seed: U32 :| states[0] == FreshState(seed);
      FreshSound(seed);
    } else {
      HistorySound(states, steps, i - 1);
      HistoryAgrees(a, states, steps, i - 1);
      StepSound(a, states[i - 1], steps[i - 1]);
    }
  }

  /** Every reachable state is sound: no condition on what clients send. */
  lemma ReachableSound(s: State)
    requires Reachable(s)
    ensures Sound(s) && OthersAgree(Locals(ZERO_ROOM), s)
  {
    hide Sound, OthersAgree, StepHarmless, StepFits, Next;
    var states, steps :| History(states, steps) && s == states[|steps|];
    HistorySound(states, steps, |steps|);
    forall i | 0 <= i < |steps|
      ensures StepHarmless(Locals(ZERO_ROOM), states[i], steps[i])
    {
      HistorySound(states, steps, i);
      AnyStepHarmless(states[i], steps[i]);
    }
    HistoryAgrees(Locals(ZERO_ROOM), states, steps, |steps|);
  }

  lemma ReachableAgrees(a: Aspect, s: State)
    requires ReachableUndisturbed(a, s)
    ensures Reachable(s) && OthersAgree(a, s)
  {
    hide OthersAgree, StepFits, StepHarmless, Next;
    var states, steps :| History(states, steps) && Undisturbed(a, states, steps) && s == states[|steps|];
    HistoryAgrees(a, states, steps, |steps|);
  }

  /**
   * In every reachable state, folding everything queued to an authenticated peer yields, for every
   * other authenticated peer, its key and properties, and nobody who is not connected.
   */
  lemma PeersReplicated(s: State, c: PeerId, p: PeerId)
    requires Reachable(s) && c in s.peers
    ensures var view := Fold(map[], s.peers[c].out);
            && (p in view ==> p in s.peers && p != c)
            && (p in s.peers && p != c && s.peers[c].Authenticated() && s.peers[p].Authenticated() ==>
                  p in view && view[p].key == s.peers[p].key && view[p].props == s.peers[p].props)
  {
    hide Look, Fold, Reachable;
    ReachableSound(s);
    FoldLooks(s.peers[c].out, p);
    assert Seen(s, c, p) == Known(Fold(map[], s.peers[c].out), p);
    if p in s.peers && p != c { assert PairAgrees(Identity, s.peers[c], s.peers[p]); }
  }

  /**
   * If no global object comes back as a local one while somebody is outside its owner's room, the
   * folded view also holds exactly the other peer's global objects, across id reuse and repeated connects.
   */
  lemma GlobalsReplicated(s: State, c: PeerId, p: PeerId)
    requires ReachableUndisturbed(Globals, s)
    requires c in s.peers && p in s.peers && c != p && s.peers[c].Authenticated() && s.peers[p].Authenticated()
    ensures var view := Fold(map[], s.peers[c].out);
            p in view && GlobalPart(view[p].objects) == GlobalPart(s.peers[p].objects)
  {
    hide Look, Fold, Sound, GlobalPart, Reachable, ReachableUndisturbed;
    ReachableAgrees(Globals, s);
    ReachableSound(s);
    OwnId(s, p);
    FoldLooks(s.peers[c].out, p);
    assert PairAgrees(Globals, s.peers[c], s.peers[p]);
  }

  lemma OwnId(s: State, p: PeerId)
    requires Sound(s) && p in s.peers
    ensures s.peers[p].id == p
  {
  }

  /**
   * Two authenticated peers in the same room have all of each other's local objects, if the room
   * opened while no two that had chosen it had any; the zero room is always open.
   */
  lemma LocalsReplicated(s: State, room: StableId, c: PeerId, p: PeerId)
    requires if room == ZERO_ROOM then Reachable(s) else room in s.rooms && ReachableUndisturbed(Locals(room), s)
    requires c in s.peers && p in s.peers && c != p && s.peers[c].Authenticated() && s.peers[p].Authenticated()
    requires s.peers[c].Room() == s.peers[p].Room() == room
    ensures var view := Fold(map[], s.peers[c].out);
            && p in view
            && forall id :: id in LocalPart(s.peers[p].objects) ==>
                 id in view[p].objects && view[p].objects[id] == s.peers[p].objects[id]
  {
    hide Look, Fold, LocalPart, Issued, Allocator.Partition, Reachable, ReachableUndisturbed;
    if room != ZERO_ROOM { ReachableAgrees(Locals(room), s); }
    ReachableSound(s);
    OwnId(s, p);
    FoldLooks(s.peers[c].out, p);
    assert PairAgrees(Locals(room), s.peers[c], s.peers[p]);
  }

  /** Each authenticated peer is listed, once, in its room, and the zero room exists. */
  lemma MembersEnrolled(s: State)
    requires Reachable(s)
    ensures ZERO_ROOM in s.rooms
    ensures forall room :: room in s.rooms ==> Distinct(s.rooms[room])
    ensures forall p :: p in s.peers && s.peers[p].Authenticated() && s.peers[p].Room() in s.rooms ==>
              p in s.rooms[s.peers[p].Room()]
  {
    hide Look, Reachable, OthersAgree;
    ReachableSound(s);
    forall p | p in s.peers && s.peers[p].Authenticated() && s.peers[p].Room() in s.rooms
      ensures p in s.rooms[s.peers[p].Room()]
    {
      assert Enrolled(s, s.peers[p]);
    }
  }

  /** Peer ids are conserved: live and freed ones are all those issued, and zero is never live. */
  lemma IdsConserved(s: State)
    requires Reachable(s)
    ensures |s.peers.Keys| + |s.ids.free| == s.ids.last
    ensures s.ids.Partition(s.peers.Keys) && 0 !in s.peers
    ensures s.ids.Next().0.None? <==> |s.peers.Keys| == WORD - 1
  {
    hide Look, Reachable, Allocator.Next, OthersAgree, Allocator.Partition;
    ReachableSound(s);
    PartitionCounts(s.ids, s.peers.Keys);
    NextFails(s.ids, s.peers.Keys);
  }

  /** No two authenticated peers have the same key. */
  lemma KeysNeverShared(s: State)
    requires Reachable(s)
    ensures KeysDistinct(s.peers)
  {
    hide Look, Reachable, OthersAgree, Allocator.Partition;
    ReachableSound(s);
  }
}
