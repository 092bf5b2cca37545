/** The relay server: what every step does to peers, rooms, outgoing queues and the poll set. */
module Server {
  import opened Options
  import opened Values
  import opened Protocol
  import opened Identifiers
  import opened Words

  /** A connection. `out` is everything ever queued to it. */
  datatype Peer = Peer(
    id: PeerId, key: PublicKey, challenge: Option<nat>,
    objects: Objects, props: Properties, out: seq<Msg>)
  {
    function Room(): StableId { Get(props, ROOM).AsStableId() }

    function Push(m: Msg): Peer { this.(out := out + [m]) }

    predicate Authenticated() { key != 0 }
  }

  function NewPeer(id: PeerId): Peer { Peer(id, 0, None, map[], map[], []) }

  type Members = seq<PeerId>

  datatype State = State(
    ids: Allocator, peers: map<PeerId, Peer>, rooms: map<StableId, Members>, poll: set<PeerId>)

  function FreshState(seed: U32): State {
    State(Allocator(seed, 0, []), map[], map[ZERO_ROOM := []], {})
  }

  /** The order in which a hash map's keys come up. */
  ghost predicate Enumerates<K(!new)>(order: seq<K>, keys: set<K>) {
    Distinct(order) && Elements(order) == keys
  }

  /** The iteration orders of one event: peers, each peer's objects, and the handled peer's own. */
  datatype Orders = Orders(peers: seq<PeerId>, objects: map<PeerId, seq<Id>>, own: seq<Id>)

  function Ordered(order: Orders, p: PeerId): seq<Id> {
    if p in order.objects then order.objects[p] else []
  }

  /** The objects of one kind, in iteration order. */
  function Listed(objects: Objects, order: seq<Id>, wantGlobal: bool): seq<RemoteObject> {
    if order == [] then []
    else if order[0] in objects && IsGlobal(objects[order[0]].ty) == wantGlobal
    then [objects[order[0]]] + Listed(objects, order[1..], wantGlobal)
    else Listed(objects, order[1..], wantGlobal)
  }

  function Created(p: PeerId, list: seq<RemoteObject>): seq<Msg> {
    if list == [] then [] else [ObjectCreated(p, list[0])] + Created(p, list[1..])
  }

  // ----- Sending

  function Send(s: State, to: PeerId, m: Msg): State {
    if to in s.peers then s.(peers := s.peers[to := s.peers[to].Push(m)], poll := s.poll + {to}) else s
  }

  function SendToAll(s: State, me: PeerId, m: Msg): State {
    s.(peers := map id | id in s.peers :: if id == me then s.peers[id] else s.peers[id].Push(m),
       poll := s.poll + (s.peers.Keys - {me}))
  }

  function SendEach(s: State, me: PeerId, ms: seq<Msg>): State
    decreases |ms|
  {
    if ms == [] then s else SendEach(SendToAll(s, me, ms[0]), me, ms[1..])
  }

  function SendToMembers(s: State, me: PeerId, members: Members, m: Msg): State
    decreases |members|
  {
    if members == [] then s
    else SendToMembers(if members[0] == me then s else Send(s, members[0], m), me, members[1..], m)
  }

  function SendToRoom(s: State, me: Peer, m: Msg): State {
    if me.Room() in s.rooms then SendToMembers(s, me.id, s.rooms[me.Room()], m) else s
  }

  function SendUpdate(s: State, me: Peer, ty: TypeId, m: Msg): State {
    if IsGlobal(ty) then SendToAll(s, me.id, m) else SendToRoom(s, me, m)
  }

  // ----- Rooms

  function Holders(peers: map<PeerId, Peer>, order: seq<PeerId>, room: StableId): Members {
    if order == [] then []
    else if order[0] in peers && peers[order[0]].Room() == room
    then [order[0]] + Holders(peers, order[1..], room)
    else Holders(peers, order[1..], room)
  }

  function CreateRoom(s: State, me: Peer, obj: Id, order: seq<PeerId>): State {
    var room := StableId(me.key, obj);
    var members := Holders(s.peers, order, room) + (if me.Room() == room then [me.id] else []);
    s.(rooms := s.rooms[room := members])
  }

  function Without(members: Members, leaving: PeerId): Members {
    if members == [] then []
    else if members[0] == leaving then Without(members[1..], leaving)
    else [members[0]] + Without(members[1..], leaving)
  }

  /** The server without the peer being handled, and that peer. */
  datatype Handled = Handled(s: State, me: Peer)

  /** The two peers tell each other of their local objects. */
  function JoinOne(s: State, me: Peer, id: PeerId, order: Orders): Handled
    requires id in s.peers
  {
    var s1 := Send(s, id, PeerJoin(me.id, Listed(me.objects, order.own, false)));
    Handled(s1.(poll := s1.poll + {me.id}),
            me.Push(PeerJoin(id, Listed(s.peers[id].objects, Ordered(order, id), false))))
  }

  function JoinMembers(s: State, me: Peer, members: Members, order: Orders): Handled
    decreases |members|
  {
    if members == [] then Handled(s, me)
    else if members[0] !in s.peers then JoinMembers(s, me, members[1..], order)
    else
      var h := JoinOne(s, me, members[0], order);
      JoinMembers(h.s, h.me, members[1..], order)
  }

  function JoinRoom(s: State, me: Peer, room: StableId, order: Orders): Handled {
    if room !in s.rooms then Handled(s, me)
    else
      var members := s.rooms[room];
      var h := JoinMembers(s, me, members, order);
      if me.id in members then h
      else h.(s := h.s.(rooms := h.s.rooms[room := members + [me.id]]))
  }

  /** Leaving schedules the peer that leaves, not the one that is written to. */
  function LeaveOne(s: State, me: Peer, id: PeerId): Handled
    requires id in s.peers
  {
    Handled(s.(peers := s.peers[id := s.peers[id].Push(PeerLeave(me.id))], poll := s.poll + {me.id}),
            me.Push(PeerLeave(id)))
  }

  function LeaveMembers(s: State, me: Peer, members: Members): Handled
    decreases |members|
  {
    if members == [] then Handled(s, me)
    else if members[0] !in s.peers then LeaveMembers(s, me, members[1..])
    else
      var h := LeaveOne(s, me, members[0]);
      LeaveMembers(h.s, h.me, members[1..])
  }

  function LeaveRoom(s: State, me: Peer, room: StableId): Handled {
    if room !in s.rooms then Handled(s, me)
    else
      var members := Without(s.rooms[room], me.id);
      LeaveMembers(s.(rooms := s.rooms[room := members]), me, members)
  }

  // ----- Connecting

  function Announcement(p: Peer, order: seq<Id>): seq<Msg> {
    [PeerConnected(p.id, p.key, p.props)] + Created(p.id, Listed(p.objects, order, true))
  }

  /** What the handled peer is told of the others. */
  function Introductions(peers: map<PeerId, Peer>, ids: seq<PeerId>, order: Orders): seq<Msg> {
    if ids == [] then []
    else (if ids[0] in peers then Announcement(peers[ids[0]], Ordered(order, ids[0])) else [])
         + Introductions(peers, ids[1..], order)
  }

  /** The objects of others it is sent even before it is told of them. */
  function EarlyObjects(peers: map<PeerId, Peer>, ids: seq<PeerId>, order: Orders): seq<Msg> {
    if ids == [] then []
    else (if ids[0] in peers then Created(ids[0], Listed(peers[ids[0]].objects, Ordered(order, ids[0]), true)) else [])
         + EarlyObjects(peers, ids[1..], order)
  }

  function Connected(s: State, me: Peer, order: Orders): Handled {
    var s1 := SendEach(s, me.id, Announcement(me, order.own));
    Handled(
      s1.(poll := if s.peers == map[] then s1.poll else s1.poll + {me.id}),
      me.(out := me.out + Introductions(s.peers, order.peers, order)))
  }

  /** The objects of the connecting peer, a room being created for each room object on the way. */
  function TakeObjects(s: State, me: Peer, objects: seq<RemoteObject>, order: seq<PeerId>): Handled
    decreases |objects|
  {
    if objects == [] then Handled(s, me)
    else
      var o := objects[0];
      TakeObjects(if o.ty == ROOM_TYPE then CreateRoom(s, me, o.id, order) else s,
                  me.(objects := me.objects[o.id := o]), objects[1..], order)
  }

  function Connecting(s: State, me: Peer, e: Event, order: Orders): Handled
    requires e.Connect?
  {
    var h := TakeObjects(s, me.(key := e.key, props := e.props, challenge := None), e.objects, order.peers);
    var me1 := h.me.(out := h.me.out + EarlyObjects(h.s.peers, order.peers, order));
    var h1 := Connected(h.s, me1, order);
    JoinRoom(h1.s, h1.me, h1.me.Room(), order)
  }

  /** Signature, prior challenge and an unused key are required to connect. */
  predicate MayConnect(s: State, me: Peer, e: Event)
    requires e.Connect?
  {
    && me.challenge.Some?
    && Verified(e.key, e.signed)
    && forall id :: id in s.peers ==> s.peers[id].key != e.key
  }

  // ----- Updates

  function PeerUpdating(s: State, me: Peer, key: Key, value: Value, order: Orders): Handled {
    var old' := Get(me.props, key);
    var me1 := me.(props := Inserted(me.props, key, value));
    var s1 := SendToAll(s, me.id, PeerUpdated(me.id, key, value));
    if key != ROOM then Handled(s1, me1)
    else
      var left := LeaveRoom(s1, me1, old'.AsStableId());
      JoinRoom(left.s, left.me, value.AsStableId(), order)
  }

  function ObjectCreating(s: State, me: Peer, obj: RemoteObject, order: Orders): Handled {
    var me1 := me.(objects := me.objects[obj.id := obj]);
    var s1 := if obj.ty == ROOM_TYPE then CreateRoom(s, me1, obj.id, order.peers) else s;
    Handled(SendUpdate(s1, me1, obj.ty, ObjectCreated(me.id, obj)), me1)
  }

  function ObjectUpdating(s: State, me: Peer, id: Id, key: Key, value: Value): Handled {
    if id !in me.objects then Handled(s, me)
    else
      var o := me.objects[id].(props := Inserted(me.objects[id].props, key, value));
      var me1 := me.(objects := me.objects[id := o]);
      Handled(SendUpdate(s, me1, o.ty, ObjectUpdated(me.id, id, key, value)), me1)
  }

  function ObjectRemoving(s: State, me: Peer, id: Id): Handled {
    if id !in me.objects then Handled(s, me)
    else
      var ty := me.objects[id].ty;
      var me1 := me.(objects := me.objects - {id});
      var s1 := if ty == ROOM_TYPE then s.(rooms := s.rooms - {StableId(me.key, id)}) else s;
      Handled(SendUpdate(s1, me1, ty, ObjectRemoved(me.id, id)), me1)
  }

  /** One event of the handled peer; `None` is an error, on which the peer is dropped. */
  function Handle(s: State, me: Peer, e: Event, order: Orders): Option<Handled> {
    match e
    case Ping(payload) => Some(Handled(s, me.Push(Pong(payload))))
    case Hello(nonce) =>
      if me.challenge.Some? then None
      else Some(Handled(s, me.Push(Challenge(nonce)).(challenge := Some(nonce))))
    case Connect(_, _, _, _) => if MayConnect(s, me, e) then Some(Connecting(s, me, e, order)) else None
    case Unsupported => None
    case _ => if me.Authenticated() then Some(Updating(s, me, e, order)) else None
  }

  predicate IsUpdate(e: Event) {
    e.PeerUpdate? || e.ObjectCreate? || e.ObjectUpdate? || e.ObjectRemove?
  }

  function Updating(s: State, me: Peer, e: Event, order: Orders): Handled
    requires IsUpdate(e)
  {
    match e
    case PeerUpdate(key, value) => PeerUpdating(s, me, key, value, order)
    case ObjectCreate(obj) => ObjectCreating(s, me, obj, order)
    case ObjectUpdate(id, key, value) => ObjectUpdating(s, me, id, key, value)
    case ObjectRemove(id) => ObjectRemoving(s, me, id)
  }

  // ----- The loop of the server

  function Insert(s: State, me: Peer): State {
    s.(peers := s.peers[me.id := me], poll := s.poll + {me.id})
  }

  function Drop(s: State, me: Peer): State {
    var s1 := SendToAll(s.(ids := s.ids.Free(me.id)), me.id, PeerDisconnected(me.id));
    s1.(poll := s1.poll - {me.id})
  }

  datatype Input = Input(event: Event, order: Orders)

  /** Events are handled until they run out, one fails, or the read itself fails. */
  function HandleAll(s: State, me: Peer, inputs: seq<Input>, failing: bool): State
    decreases |inputs|
  {
    if inputs == [] then if failing then Drop(s, me) else Insert(s, me)
    else
      var r := Handle(s, me, inputs[0].event, inputs[0].order);
      if r.None? then Drop(s, me) else HandleAll(r.value.s, r.value.me, inputs[1..], failing)
  }

  datatype Step =
    | Accept
    | Popped(id: PeerId)
    | Dispatch(id: PeerId, inputs: seq<Input>, failing: bool)

  function Accepting(s: State): State {
    var (id, ids) := s.ids.Next();
    if id.None? then s.(ids := ids)
    else s.(ids := ids, peers := s.peers[id.value := NewPeer(id.value)], poll := s.poll + {id.value})
  }

  function Next(s: State, step: Step): State {
    match step
    case Accept => Accepting(s)
    case Popped(id) => s.(poll := s.poll - {id})
    case Dispatch(id, inputs, failing) =>
      if id !in s.peers then s
      else HandleAll(s.(peers := s.peers - {id}), s.peers[id], inputs, failing)
  }
}
