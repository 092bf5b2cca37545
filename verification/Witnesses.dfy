/** Histories that reach the states in which the exceptions bite, and one that reaches a shared room. */
module Witnesses {
  import opened Options
  import opened Values
  import opened Protocol
  import opened Identifiers
  import opened Server
  import opened Effects
  import opened Aspects
  import opened Rooms
  import opened Replica
  import opened Runs
  import opened Membership
  import opened Strays
  import opened Sharing
  import opened Exceptions
  import opened Words
  import Hash

  // ----- Histories, step by step

  ghost predicate StepIdeal(s: State, step: Step) {
    && StepFits(s, step) && StepOrderly(s, step) && StepGentle(s, step)
    && StepHarmless(Globals, s, step) && forall room :: StepHarmless(Locals(room), s, step)
  }

  /** A history in which nothing goes wrong in any respect ends here. */
  ghost predicate Ideal(s: State) {
    exists states, steps :: IdealHistory(states, steps) && s == states[|steps|]
  }

  ghost predicate IdealHistory(states: seq<State>, steps: seq<Step>) {
    History(states, steps) && forall i :: 0 <= i < |steps| ==> StepIdeal(states[i], steps[i])
  }

  lemma FreshIdeal(seed: U32)
    ensures Ideal(FreshState(seed))
  {
    var states: seq<State>, steps: seq<Step> := [FreshState(seed)], [];
    assert IdealHistory(states, steps) && FreshState(seed) == states[|steps|];
  }

  lemma HistoryStep(states: seq<State>, steps: seq<Step>, step: Step)
    requires History(states, steps) && StepFits(states[|steps|], step)
    ensures History(states + [Next(states[|steps|], step)], steps + [step])
  {
    hide StepFits, Next;
    var all, done := states + [Next(states[|steps|], step)], steps + [step];
    forall i | 0 <= i < |done|
      ensures StepFits(all[i], done[i]) && all[i + 1] == Next(all[i], done[i])
    {
      if i < |steps| { assert done[i] == steps[i] && all[i] == states[i] && all[i + 1] == states[i + 1]; }
    }
    assert all[0] == states[0];
  }

  lemma IdealStep(s: State, step: Step)
    requires Ideal(s) && StepIdeal(s, step)
    ensures Ideal(Next(s, step))
  {
    hide StepFits, StepOrderly, StepGentle, StepHarmless, Next;
    var states, steps :| IdealHistory(states, steps) && s == states[|steps|];
    var all, done := states + [Next(s, step)], steps + [step];
    HistoryStep(states, steps, step);
    forall i | 0 <= i < |done|
      ensures StepIdeal(all[i], done[i])
    {
      if i < |steps| { assert done[i] == steps[i] && all[i] == states[i]; }
    }
    assert IdealHistory(all, done) && Next(s, step) == all[|done|];
  }

  lemma ReachableStep(s: State, step: Step)
    requires Reachable(s) && StepFits(s, step)
    ensures Reachable(Next(s, step))
  {
    hide StepFits, Next;
    var states, steps :| History(states, steps) && s == states[|steps|];
    HistoryStep(states, steps, step);
    assert Next(s, step) == (states + [Next(s, step)])[|steps + [step]|];
  }

  /** An ideal state is in every class of reachable states there is. */
  lemma IdealIsAll(s: State)
    requires Ideal(s)
    ensures Reachable(s) && ReachableOrderly(s) && ReachableWell(s)
    ensures ReachableUndisturbed(Globals, s) && forall room :: ReachableSharing(room, s)
    ensures Sound(s) && Settled(s) && OthersTidy(s) && OthersAgree(Globals, s) && forall room :: OthersAgree(Locals(room), s)
  {
    hide StepFits, StepOrderly, StepGentle, StepHarmless, Next, Sound, Settled, OthersTidy, OthersAgree;
    var states, steps :| IdealHistory(states, steps) && s == states[|steps|];
    assert WellRun(states, steps) && Undisturbed(Globals, states, steps);
    assert forall room :: Undisturbed(Locals(room), states, steps);
    WellIsSound(s);
    ReachableAgrees(Globals, s);
    forall room
      ensures ReachableSharing(room, s) && OthersAgree(Locals(room), s)
    {
      assert Undisturbed(Locals(room), states, steps);
      ReachableAgrees(Locals(room), s);
    }
  }

  // ----- Orders

  ghost function Enumeration<K(!new)>(keys: set<K>): (order: seq<K>)
    ensures Enumerates(order, keys)
    decreases keys
  {
    if keys == {} then []
    else
      var k :| k in keys;
      var rest := Enumeration(keys - {k});
      assert k !in Elements(rest);
      assert Elements([k] + rest) == {k} + Elements(rest);
      assert forall i :: 0 <= i < |rest| ==> rest[i] in Elements(rest);
      [k] + rest
  }

  ghost function SomeOrders(s: State, own: set<Id>): Orders {
    Orders(Enumeration(s.peers.Keys), map p | p in s.peers :: Enumeration(s.peers[p].objects.Keys), Enumeration(own))
  }

  /** The order in which the maps come up as the peer handles the event. */
  ghost function OrderFor(s: State, me: Peer, e: Event): Orders {
    SomeOrders(s, if e.Connect? then InsertAll(me.objects, e.objects).Keys else me.objects.Keys)
  }

  lemma OrderFits(s: State, me: Peer, e: Event)
    ensures OrdersFit(s, me, e, OrderFor(s, me, e))
  {
    hide Enumerates;
  }

  // ----- One event at a time

  function Others(s: State, id: PeerId): State { s.(peers := s.peers - {id}) }

  ghost function One(s: State, id: PeerId, e: Event): Step
    requires id in s.peers
  {
    Dispatch(id, [Input(e, OrderFor(Others(s, id), s.peers[id], e))], false)
  }

  ghost function Answer(s: State, id: PeerId, e: Event): Option<Handled>
    requires id in s.peers
  {
    Handle(Others(s, id), s.peers[id], e, OrderFor(Others(s, id), s.peers[id], e))
  }

  /** What one event comes to, and what it takes for it to be ideal. */
  lemma OneIs(s: State, id: PeerId, e: Event)
    requires id in s.peers && Answer(s, id, e).Some?
    ensures Next(s, One(s, id, e)) == Insert(Answer(s, id, e).value.s, Answer(s, id, e).value.me)
    ensures StepFits(s, One(s, id, e))
    ensures (e.Connect? ==> KeepsPlace(Others(s, id), s.peers[id], e)) ==> StepOrderly(s, One(s, id, e))
    ensures Gentle(Others(s, id), s.peers[id], e, OrderFor(Others(s, id), s.peers[id], e)) ==> StepGentle(s, One(s, id, e))
    ensures forall a :: Harmless(a, Others(s, id), s.peers[id], e, OrderFor(Others(s, id), s.peers[id], e))
                        ==> StepHarmless(a, s, One(s, id, e))
  {
    hide Handle, OrdersFit, Gentle, Harmless, OrderFor, KeepsPlace;
    OrderFits(Others(s, id), s.peers[id], e);
    var inputs := One(s, id, e).inputs;
    assert inputs[1..] == [];
    var h := Answer(s, id, e).value;
    NoInputs(h.s, h.me);
    var s0, me := Others(s, id), s.peers[id];
    if e.Connect? ==> KeepsPlace(s0, me, e) { assert InputsOrderly(s0, me, inputs); }
    if Gentle(s0, me, e, inputs[0].order) { assert InputsGentle(s0, me, inputs); }
    forall a | Harmless(a, s0, me, e, inputs[0].order)
      ensures StepHarmless(a, s, One(s, id, e))
    {
      assert InputsHarmless(a, s0, me, inputs);
    }
  }

  lemma NoInputs(s: State, me: Peer)
    ensures InputsFit(s, me, []) && InputsOrderly(s, me, []) && InputsGentle(s, me, [])
    ensures forall a :: InputsHarmless(a, s, me, [])
    ensures HandleAll(s, me, [], false) == Insert(s, me)
  {
  }

  /** A connection is accepted. */
  lemma Enter(s: State) returns (t: State, id: PeerId)
    requires Ideal(s) && s.ids.free == [] && s.ids.last + 1 < WORD
    ensures Ideal(t) && id !in s.peers && t.peers == s.peers[id := NewPeer(id)] && t.rooms == s.rooms
    ensures t.ids == s.ids.(last := s.ids.last + 1)
  {
    hide Hash.Map, Ideal, Sound, Settled, OthersTidy, OthersAgree;
    hide ReachableOrderly, ReachableWell, ReachableUndisturbed, ReachableSharing;
    id := Hash.Map(s.ids.last + 1, s.ids.seed);
    t := Next(s, Accept);
    AcceptingIs(s);
    assert StepIdeal(s, Accept);
    IdealStep(s, Accept);
    IdealIsAll(s);
    SoundPartition(s);
    CountedPartition(s.ids, s.peers.Keys);
  }

  lemma SoundPartition(s: State)
    requires Sound(s)
    ensures s.ids.Partition(s.peers.Keys)
  {
  }

  // ----- Getting to know the server

  lemma OthersSound(s: State, id: PeerId)
    requires Sound(s) && id in s.peers
    ensures SoundWith(Others(s, id), s.peers[id]) && s.peers[id].id == id
  {
    hide SoundWith, Sound, OthersAgree;
    SoundIdentity(s);
    TakeOut(Identity, s, id);
    OwnId(s, id);
  }

  /** A peer asks for a challenge. */
  lemma Greet(s: State, id: PeerId) returns (t: State)
    requires Ideal(s) && id in s.peers && s.peers[id].challenge.None?
    ensures Ideal(t) && t.ids == s.ids && t.rooms == s.rooms
    ensures t.peers == s.peers[id := s.peers[id].Push(Challenge(0)).(challenge := Some(0))]
  {
    hide Ideal, Sound, Settled, OthersTidy, OthersAgree, StepFits, StepOrderly, StepGentle, StepHarmless, OrderFor;
    hide ReachableOrderly, ReachableWell, ReachableUndisturbed, ReachableSharing, NothingToShare;
    IdealIsAll(s);
    OwnId(s, id);
    t := Next(s, One(s, id, Hello(0)));
    OneIs(s, id, Hello(0));
    IdealStep(s, One(s, id, Hello(0)));
  }

  function Record(p: Peer, key: PublicKey, objects: seq<RemoteObject>, props: Properties, out: seq<Msg>): Peer {
    p.(key := key, props := props, challenge := None, objects := InsertAll(p.objects, objects), out := out)
  }

  /** A challenged peer connects; it may have connected before, as far as reachability goes. */
  lemma Connects(s: State, id: PeerId, key: PublicKey, objects: seq<RemoteObject>, props: Properties) returns (t: State)
    requires Ideal(s) && id in s.peers && s.peers[id].challenge.Some? && key != 0
    requires forall q :: q in s.peers && q != id ==> s.peers[q].key != key
    requires forall p, q :: p in s.peers && q in s.peers && p != id && q != id ==> p == q
    ensures Reachable(t) && t.ids == s.ids && t.peers.Keys == s.peers.Keys
    ensures t.peers[id] == Record(s.peers[id], key, objects, props, t.peers[id].out)
    ensures forall q :: q in s.peers && q != id ==> t.peers[q] == s.peers[q].(out := t.peers[q].out)
    ensures forall room :: room in t.rooms <==> room in s.rooms || CreatesRoom(key, objects, room)
    ensures var e := Connect(key, true, objects, props);
            if KeepsPlace(Others(s, id), s.peers[id], e) then Ideal(t) else !Exact(t)
  {
    hide Ideal, Sound, Settled, OthersTidy, OthersAgree, StepFits, StepOrderly, StepGentle, StepHarmless, OrderFor;
    hide ReachableOrderly, ReachableWell, ReachableUndisturbed, ReachableSharing, NothingToShare, SoundWith, MeSettled;
    hide Connecting, CreatesRoom, KeepsPlace, Reachable;
    var e := Connect(key, true, objects, props);
    var s0, me := Others(s, id), s.peers[id];
    var order := OrderFor(s0, me, e);
    IdealIsAll(s);
    OthersSound(s, id);
    OrderFits(s0, me, e);
    SoundFits(s0, me);
    ConnectingRecord(s0, me, e, order);
    ConnectingKeeps(s0, me, e, order);
    OneIs(s, id, e);
    var h := Connecting(s0, me, e, order);
    t := Next(s, One(s, id, e));
    assert t == Insert(h.s, h.me);
    ReachableStep(s, One(s, id, e));
    assert OnlyAbout(s0, h.s, id);
    if KeepsPlace(s0, me, e) {
      ConnectsIdeally(s, id, e);
    } else {
      TakeOutSettled(s, id);
      SettledParts(s0, me);
      ConnectingExact(s0, me, e, order);
      NotExact(h.s, h.me);
    }
  }

  lemma SettledParts(s: State, me: Peer)
    requires Settled(s) && MeSettled(s, me)
    ensures Anonymous(s) && Exact(s) && MeExact(s, me)
  {
  }

  lemma NotExact(s: State, me: Peer)
    requires !MeExact(s, me)
    ensures !Exact(Insert(s, me))
  {
    var room :| room in s.rooms && me.id in s.rooms[room] && !Belongs(me, room);
    assert !Belongs(Insert(s, me).peers[me.id], room);
  }

  lemma ConnectsIdeally(s: State, id: PeerId, e: Event)
    requires Ideal(s) && id in s.peers && e.Connect? && Answer(s, id, e).Some? && KeepsPlace(Others(s, id), s.peers[id], e)
    requires forall p, q :: p in s.peers && q in s.peers && p != id && q != id ==> p == q
    requires Others(s, id).rooms.Keys <= Answer(s, id, e).value.s.rooms.Keys
    ensures Ideal(Next(s, One(s, id, e)))
  {
    hide Ideal, StepFits, StepOrderly, StepGentle, StepHarmless, OrderFor, Handle, Next, One, KeepsPlace;
    OneIs(s, id, e);
    var s0, me := Others(s, id), s.peers[id];
    assert Gentle(s0, me, e, OrderFor(s0, me, e));
    forall room
      ensures Harmless(Locals(room), s0, me, e, OrderFor(s0, me, e))
    {
      assert NothingToShare(room, s0.peers);
    }
    IdealStep(s, One(s, id, e));
  }

  /** A new connection gets as far as being connected. */
  lemma Arrives(s: State, key: PublicKey, objects: seq<RemoteObject>, props: Properties) returns (t: State, id: PeerId)
    requires Ideal(s) && s.ids.free == [] && s.ids.last + 1 < WORD && key != 0
    requires forall q :: q in s.peers ==> s.peers[q].key != key
    requires forall p, q :: p in s.peers && q in s.peers ==> p == q
    ensures Ideal(t) && t.ids == s.ids.(last := s.ids.last + 1)
    ensures id !in s.peers && t.peers.Keys == s.peers.Keys + {id}
    ensures t.peers[id] == Record(NewPeer(id), key, objects, props, t.peers[id].out)
    ensures forall q :: q in s.peers ==> t.peers[q] == s.peers[q].(out := t.peers[q].out)
    ensures forall room :: room in t.rooms <==> room in s.rooms || CreatesRoom(key, objects, room)
  {
    hide Ideal, Reachable, Exact, CreatesRoom, Hash.Map, InsertAll;
    var s1;
    s1, id := Enter(s);
    var s2 := Greet(s1, id);
    t := Connects(s2, id, key, objects, props);
  }

  const ROOM_ID: Id := 5
  const ALICE: PublicKey := 1
  const BOB: PublicKey := 2
  const ALICES_ROOM := StableId(ALICE, ROOM_ID)
  const ROOM_OBJECT := RemoteObject(ROOM_TYPE, ROOM_ID, map[])
  const LOCAL_OBJECT := RemoteObject(0, 6, map[])
  const GLOBAL_OBJECT := RemoteObject(ROOM_TYPE + 1, 6, map[])

  function Choosing(room: StableId): Properties { map[ROOM := StableIdValue(room)] }

  /** Alice and Bob are connected, with these objects of Alice's and these rooms chosen. */
  lemma Meet(objects: seq<RemoteObject>, alices: Properties, bobs: Properties) returns (s: State, a: PeerId, b: PeerId)
    ensures Ideal(s) && a != b && s.peers.Keys == {a, b}
    ensures s.peers[a] == Record(NewPeer(a), ALICE, objects, alices, s.peers[a].out)
    ensures s.peers[b] == Record(NewPeer(b), BOB, [], bobs, s.peers[b].out)
    ensures forall room :: room in s.rooms <==> room == ZERO_ROOM || CreatesRoom(ALICE, objects, room)
  {
    hide Ideal, CreatesRoom, InsertAll;
    FreshIdeal(0);
    var s1;
    s1, a := Arrives(FreshState(0), ALICE, objects, alices);
    s, b := Arrives(s1, BOB, [], bobs);
    NoneCreated(BOB);
  }

  // ----- What can be reached

  /** A room other than the zero room that opened well, and is shared by two peers of which one has a local object. */
  lemma SharedRoomReached() returns (s: State, a: PeerId, b: PeerId)
    ensures ALICES_ROOM != ZERO_ROOM && ALICES_ROOM in s.rooms && ReachableSharing(ALICES_ROOM, s)
    ensures a != b && a in s.peers && b in s.peers && Concerned(Locals(ALICES_ROOM), s.peers[a], s.peers[b])
    ensures LOCAL_OBJECT.id in LocalPart(s.peers[a].objects)
  {
    hide Ideal, CreatesRoom, ReachableSharing, ReachableWell, ReachableOrderly, ReachableUndisturbed, Reachable;
    hide Sound, Settled, OthersTidy, OthersAgree;
    s, a, b := Meet([ROOM_OBJECT, LOCAL_OBJECT], Choosing(ALICES_ROOM), Choosing(ALICES_ROOM));
    IdealIsAll(s);
    assert [ROOM_OBJECT, LOCAL_OBJECT][0] == ROOM_OBJECT && StableId(ALICE, ROOM_OBJECT.id) == ALICES_ROOM;
    RoomCreated(ALICE, [ROOM_OBJECT, LOCAL_OBJECT], 0);
    TwoObjects();
  }

  lemma RoomCreated(key: PublicKey, objects: seq<RemoteObject>, i: nat)
    requires i < |objects| && objects[i].ty == ROOM_TYPE
    ensures CreatesRoom(key, objects, StableId(key, objects[i].id))
  {
  }

  lemma TwoObjects()
    ensures InsertAll(map[], [ROOM_OBJECT, LOCAL_OBJECT]) == map[ROOM_ID := ROOM_OBJECT, LOCAL_OBJECT.id := LOCAL_OBJECT]
  {
    assert [ROOM_OBJECT, LOCAL_OBJECT][1..] == [LOCAL_OBJECT];
    OneObject(map[ROOM_ID := ROOM_OBJECT], LOCAL_OBJECT);
  }

  lemma OneObject(base: Objects, o: RemoteObject)
    ensures InsertAll(base, [o]) == base[o.id := o]
  {
    assert [o][1..] == [];
  }

  /** An id that is still listed in the zero room is issued again, and its new owner listed where it has not been. */
  lemma ReissueReached() returns (s: State, t: State)
    ensures ReachableOrderly(s) && ReissuesListed(s)
    ensures t == Accepting(s) && Reachable(t) && !Exact(t)
  {
    hide Ideal, Reachable, ReachableOrderly, ReachableWell, ReachableSharing, ReachableUndisturbed;
    hide StepFits, StepHarmless, Sound, OthersTidy, OthersAgree, Exact, Accepting, Settled;
    FreshIdeal(0);
    var s1, a := Arrives(FreshState(0), ALICE, [], map[]);
    IdealIsAll(s1);
    SoundEnrolled(s1, a);
    var step := Dispatch(a, [], true);
    NoInputs(Others(s1, a), s1.peers[a]);
    EmptyIdeal(s1, a);
    IdealStep(s1, step);
    s := Next(s1, step);
    OwnId(s1, a);
    assert s == Drop(Others(s1, a), s1.peers[a]);
    assert s.ids.free == [a] && s.rooms == s1.rooms;
    IdealIsAll(s);
    AcceptExact(s);
    t := Next(s, Accept);
    AcceptFits(s);
    ReachableStep(s, Accept);
  }

  lemma AcceptFits(s: State)
    ensures StepFits(s, Accept)
  {
  }

  lemma SoundEnrolled(s: State, p: PeerId)
    requires Sound(s) && p in s.peers && s.peers[p].Authenticated() && s.peers[p].Room() in s.rooms
    ensures p in s.rooms[s.peers[p].Room()] && p != 0
  {
    OwnId(s, p);
    assert Enrolled(s, s.peers[p]);
    PartitionCounts(s.ids, s.peers.Keys);
  }

  lemma EmptyIdeal(s: State, id: PeerId)
    requires id in s.peers
    ensures StepIdeal(s, Dispatch(id, [], true))
  {
  }

  /** A peer that connects again with another room is still listed in the first. */
  lemma ReconnectReached() returns (s: State, t: State)
    ensures ReachableOrderly(s) && Reachable(t) && !Exact(t)
  {
    hide Ideal, Reachable, ReachableOrderly, ReachableWell, ReachableSharing, ReachableUndisturbed;
    hide Sound, OthersTidy, OthersAgree, Exact, Settled, CreatesRoom;
    FreshIdeal(0);
    var s1, a := Arrives(FreshState(0), ALICE, [], map[]);
    s := Greet(s1, a);
    IdealIsAll(s);
    NoneCreated(ALICE);
    t := Connects(s, a, ALICE, [], Choosing(ALICES_ROOM));
  }

  /** An update of an authenticated peer. */
  lemma Updates(s: State, id: PeerId, e: Event) returns (t: State, h: Handled, order: Orders)
    requires Ideal(s) && id in s.peers && s.peers[id].Authenticated() && IsUpdate(e)
    ensures order == OrderFor(Others(s, id), s.peers[id], e) && OrdersFit(Others(s, id), s.peers[id], e, order)
    ensures h == Updating(Others(s, id), s.peers[id], e, order)
    ensures Handle(Others(s, id), s.peers[id], e, order) == Some(h)
    ensures SoundWith(Others(s, id), s.peers[id]) && s.peers[id].id == id
    ensures t == Insert(h.s, h.me) && Reachable(t)
  {
    hide Ideal, Reachable, ReachableOrderly, ReachableWell, ReachableSharing, ReachableUndisturbed;
    hide Sound, OthersTidy, OthersAgree, Settled, SoundWith, Updating, OrderFor, StepFits, OrdersFit;
    IdealIsAll(s);
    OthersSound(s, id);
    OrderFits(Others(s, id), s.peers[id], e);
    order := OrderFor(Others(s, id), s.peers[id], e);
    h := Updating(Others(s, id), s.peers[id], e, order);
    OneIs(s, id, e);
    t := Next(s, One(s, id, e));
    ReachableStep(s, One(s, id, e));
  }

  /** What holds with the peer back in holds without it. */
  lemma InsertAgrees(a: Aspect, s: State, me: Peer)
    requires OthersAgree(a, Insert(s, me)) && me.id !in s.peers
    ensures OthersAgree(a, s) && MeAgrees(a, s, me)
  {
    hide PairAgrees;
    TakeOutAgrees(a, Insert(s, me), me.id);
    assert Insert(s, me).peers - {me.id} == s.peers;
  }

  /** A global object of Alice's becomes local, and Bob, who is in another room, is not told. */
  lemma RecreationReached() returns (s: State, t: State)
    ensures ReachableUndisturbed(Globals, s) && Reachable(t) && !OthersAgree(Globals, t)
  {
    hide Ideal, Reachable, ReachableOrderly, ReachableWell, ReachableSharing, ReachableUndisturbed, CreatesRoom;
    hide Sound, SoundWith, OthersTidy, OthersAgree, MeAgrees, Settled, ObjectCreating, OrderFor, OrdersFit;
    var a, b;
    s, a, b := Meet([GLOBAL_OBJECT], map[], Choosing(ALICES_ROOM));
    OneObject(map[], GLOBAL_OBJECT);
    IdealIsAll(s);
    var o := RemoteObject(0, GLOBAL_OBJECT.id, map[]);
    var h, order;
    t, h, order := Updates(s, a, ObjectCreate(o));
    var s0, me := Others(s, a), s.peers[a];
    SoundFits(s0, me);
    TakeOut(Globals, s, a);
    assert !AllInRoom(s0, me) by {
      SettledExact(s);
      NotListed(s, b, me.Room());
      assert b in s0.peers && s0.peers[b].Authenticated();
    }
    PeersEnumerated(s0, me, ObjectCreate(o), order);
    RecreationExact(s0, me, o, order);
    if OthersAgree(Globals, t) {
      HandleKeepsRooms(s0, me, ObjectCreate(o), order);
      StillOut(h.s, h.me);
      InsertAgrees(Globals, h.s, h.me);
    }
  }

  lemma NotListed(s: State, q: PeerId, room: StableId)
    requires Exact(s) && q in s.peers && !Belongs(s.peers[q], room)
    ensures room in s.rooms ==> q !in s.rooms[room]
  {
  }

  lemma PeersEnumerated(s: State, me: Peer, e: Event, order: Orders)
    requires OrdersFit(s, me, e, order)
    ensures Enumerates(order.peers, s.peers.Keys)
  {
  }

  lemma StillOut(s: State, me: Peer)
    requires Fits(s, me)
    ensures me.id !in s.peers
  {
  }

  /** Alice has an object to show in the room she opens, and Bob, who has been waiting there, is not shown it. */
  lemma OpeningReached() returns (s: State, t: State)
    ensures ReachableSharing(ALICES_ROOM, s) && ALICES_ROOM !in s.rooms
    ensures Reachable(t) && ALICES_ROOM in t.rooms && !OthersAgree(Locals(ALICES_ROOM), t)
  {
    hide Ideal, Reachable, ReachableOrderly, ReachableWell, ReachableSharing, ReachableUndisturbed;
    hide Sound, SoundWith, OthersTidy, MeTidy, OthersAgree, MeAgrees, Settled, ObjectCreating, OrderFor, OrdersFit, Handle;
    var room := ALICES_ROOM;
    var a, b;
    s, a, b := Meet([LOCAL_OBJECT], Choosing(room), Choosing(room));
    OneObject(map[], LOCAL_OBJECT);
    IdealIsAll(s);
    var e := ObjectCreate(ROOM_OBJECT);
    var h, order;
    t, h, order := Updates(s, a, e);
    var s0, me := Others(s, a), s.peers[a];
    TakeOutTidy(s, a);
    SoundFits(s0, me);
    RoomOpened(s0, me, ROOM_OBJECT, order, e);
    var all := Choosers(s0, me, e);
    assert !NothingToShare(room, all) by {
      assert Concerned(Locals(room), all[a], all[b]);
      assert LOCAL_OBJECT.id in LocalPart(all[a].objects);
    }
    RoomOpensExact(room, s0, me, e, order);
    if OthersAgree(Locals(room), t) {
      HandleKeepsRooms(s0, me, e, order);
      StillOut(h.s, h.me);
      InsertAgrees(Locals(room), h.s, h.me);
    }
  }

  lemma RoomOpened(s: State, me: Peer, o: RemoteObject, order: Orders, e: Event)
    requires e == ObjectCreate(o) && o.ty == ROOM_TYPE && Handle(s, me, e, order).Some?
    requires Fits(s, me) && OrdersFit(s, me, e, order)
    ensures StableId(me.key, o.id) in Handle(s, me, e, order).value.s.rooms
  {
    hide SendUpdate;
    var me1 := me.(objects := me.objects[o.id := o]);
    CreateRoomLists(s, me1, o.id, order.peers);
    SendRooms(CreateRoom(s, me1, o.id, order.peers), me1, o.ty, ObjectCreated(me.id, o));
  }

  /** Alice removes the room she shares with Bob, and her object stays behind in his view. */
  lemma ClosingReached() returns (s: State, t: State)
    ensures ReachableSharing(ALICES_ROOM, s) && ALICES_ROOM in s.rooms
    ensures Reachable(t) && ALICES_ROOM !in t.rooms && !OthersTidy(t)
  {
    hide Ideal, Reachable, ReachableOrderly, ReachableWell, ReachableSharing, ReachableUndisturbed, CreatesRoom;
    hide Sound, SoundWith, OthersTidy, MeTidy, OthersAgree, MeAgrees, Settled, ObjectRemoving, OrderFor, OrdersFit, Handle;
    var room := ALICES_ROOM;
    var a, b;
    s, a, b := Meet([ROOM_OBJECT, LOCAL_OBJECT], Choosing(room), Choosing(room));
    RoomCreated(ALICE, [ROOM_OBJECT, LOCAL_OBJECT], 0);
    TwoObjects();
    IdealIsAll(s);
    var e := ObjectRemove(ROOM_ID);
    var h, order;
    t, h, order := Updates(s, a, e);
    var s0, me := Others(s, a), s.peers[a];
    TakeOutTidy(s, a);
    TakeOut(Locals(room), s, a);
    SoundFits(s0, me);
    TakeOutSettled(s, a);
    SettledExact(s0);
    RoomRemoved(s0, me, ROOM_ID);
    var all := s0.peers[me.id := me];
    assert !NothingToShare(room, all) by {
      assert Concerned(Locals(room), all[a], all[b]);
      assert LOCAL_OBJECT.id in LocalPart(all[a].objects);
    }
    RoomClosesExact(room, s0, me, ROOM_ID, order);
    if OthersTidy(t) {
      HandleKeepsRooms(s0, me, e, order);
      StillOut(h.s, h.me);
      InsertedTidy(h.s, h.me);
    }
  }

  lemma RoomRemoved(s: State, me: Peer, id: Id)
    requires id in me.objects && me.objects[id].ty == ROOM_TYPE
    ensures StableId(me.key, id) !in ObjectRemoving(s, me, id).s.rooms
  {
    hide SendUpdate;
    SendRooms(s.(rooms := s.rooms - {StableId(me.key, id)}), ObjectRemoving(s, me, id).me, ROOM_TYPE, ObjectRemoved(me.id, id));
  }

  lemma InsertedTidy(s: State, me: Peer)
    requires OthersTidy(Insert(s, me)) && me.id !in s.peers
    ensures OthersTidy(s) && MeTidy(s, me)
  {
    hide Look, Tidy;
    var t := Insert(s, me);
    forall q, p | q in t.peers && p in t.peers && q != p
      ensures PairTidy(s, t.peers[q], t.peers[p])
    {
      assert PairTidy(t, t.peers[q], t.peers[p]);
    }
    forall q | q in s.peers
      ensures PairTidy(s, s.peers[q], me) && PairTidy(s, me, s.peers[q])
    {
      assert PairTidy(s, t.peers[q], t.peers[me.id]) && PairTidy(s, t.peers[me.id], t.peers[q]);
    }
    forall q, p | q in s.peers && p in s.peers && q != p
      ensures PairTidy(s, s.peers[q], s.peers[p])
    {
      assert PairTidy(s, t.peers[q], t.peers[p]);
    }
  }
}
