/** No lost wake-ups: who must be polled, and that they are. */
module Wakeups {
  import opened Options
  import opened Values
  import opened Protocol
  import opened Identifiers
  import opened Server
  import opened Effects
  import opened Rooms
  import opened Aspects
  import opened Words
  import opened Replica
  import opened Runs

  // ----- Every queue that grows is scheduled

  /** Nobody but the handled peer gets output without being scheduled. */
  ghost predicate Woken(s: State, t: State) {
    && t.peers.Keys == s.peers.Keys
    && s.poll <= t.poll
    && forall q :: q in s.peers && t.peers[q].out != s.peers[q].out ==> q in t.poll
  }

  lemma SendToAllWakes(s: State, me: PeerId, m: Msg)
    requires me !in s.peers
    ensures Woken(s, SendToAll(s, me, m)) && SendToAll(s, me, m).poll == s.poll + s.peers.Keys
  {
  }

  lemma {:induction false} SendEachWakes(s: State, me: PeerId, ms: seq<Msg>)
    requires me !in s.peers
    ensures Woken(s, SendEach(s, me, ms))
    decreases |ms|
  {
    if ms != [] { SendEachWakes(SendToAll(s, me, ms[0]), me, ms[1..]); }
  }

  lemma {:induction false} SendToMembersWakes(s: State, me: PeerId, members: Members, m: Msg)
    ensures Woken(s, SendToMembers(s, me, members, m))
    decreases |members|
  {
    if members != [] { SendToMembersWakes(if members[0] == me then s else Send(s, members[0], m), me, members[1..], m); }
  }

  lemma SendUpdateWakes(s: State, me: Peer, ty: TypeId, m: Msg)
    requires me.id !in s.peers
    ensures Woken(s, SendUpdate(s, me, ty, m))
  {
    if !IsGlobal(ty) && me.Room() in s.rooms { SendToMembersWakes(s, me.id, s.rooms[me.Room()], m); }
  }

  lemma {:induction false} JoinMembersWakes(s: State, me: Peer, members: Members, order: Orders)
    ensures Woken(s, JoinMembers(s, me, members, order).s)
    decreases |members|
  {
    if members != [] {
      if members[0] in s.peers {
        var h := JoinOne(s, me, members[0], order);
        JoinMembersWakes(h.s, h.me, members[1..], order);
      } else {
        JoinMembersWakes(s, me, members[1..], order);
      }
    }
  }

  lemma {:induction false} TakeObjectsWakes(s: State, me: Peer, objects: seq<RemoteObject>, order: seq<PeerId>)
    ensures Woken(s, TakeObjects(s, me, objects, order).s)
    decreases |objects|
  {
    if objects != [] {
      var o := objects[0];
      TakeObjectsWakes(if o.ty == ROOM_TYPE then CreateRoom(s, me, o.id, order) else s,
                       me.(objects := me.objects[o.id := o]), objects[1..], order);
    }
  }

  /** Leaving writes to peers it does not schedule, so it relies on all of them being scheduled. */
  lemma {:induction false} LeaveMembersWakes(s: State, me: Peer, members: Members)
    requires s.peers.Keys <= s.poll
    ensures Woken(s, LeaveMembers(s, me, members).s)
    decreases |members|
  {
    if members != [] {
      if members[0] in s.peers {
        var h := LeaveOne(s, me, members[0]);
        LeaveMembersWakes(h.s, h.me, members[1..]);
      } else {
        LeaveMembersWakes(s, me, members[1..]);
      }
    }
  }

  /** Leaving writes to every connected member, and schedules nobody but the peer that leaves. */
  lemma {:induction false} LeaveMembersQueues(s: State, me: Peer, members: Members)
    requires me.id !in s.peers
    ensures var t := LeaveMembers(s, me, members).s;
            && t.peers.Keys == s.peers.Keys
            && s.poll <= t.poll <= s.poll + {me.id}
            && forall q :: q in s.peers ==>
                 if q in members then |t.peers[q].out| > |s.peers[q].out| else t.peers[q].out == s.peers[q].out
    decreases |members|
  {
    if members != [] {
      if members[0] in s.peers {
        var h := LeaveOne(s, me, members[0]);
        LeaveMembersQueues(h.s, h.me, members[1..]);
      } else {
        LeaveMembersQueues(s, me, members[1..]);
      }
    }
  }

  /** Leaving a room by itself loses no wake-up exactly when every connected member is scheduled already. */
  lemma LeaveWakesExactly(s: State, me: Peer, room: StableId)
    requires me.id !in s.peers && room in s.rooms
    ensures Woken(s, LeaveRoom(s, me, room).s)
            <==> forall q :: q in s.rooms[room] && q in s.peers ==> q in s.poll
  {
    var members := Without(s.rooms[room], me.id);
    WithoutIs(s.rooms[room], me.id);
    LeaveMembersQueues(s.(rooms := s.rooms[room := members]), me, members);
  }

  lemma RoomsWake(s: State, me: Peer, room: StableId, order: Orders)
    ensures Woken(s, JoinRoom(s, me, room, order).s)
    ensures s.peers.Keys <= s.poll ==> Woken(s, LeaveRoom(s, me, room).s)
  {
    if room in s.rooms {
      JoinMembersWakes(s, me, s.rooms[room], order);
      var members := Without(s.rooms[room], me.id);
      var s1 := s.(rooms := s.rooms[room := members]);
      if s.peers.Keys <= s.poll { LeaveMembersWakes(s1, me, members); }
    }
  }

  lemma ConnectingWakes(s: State, me: Peer, e: Event, order: Orders)
    requires e.Connect? && me.id !in s.peers && Connecting(s, me, e, order).me.id == me.id
    requires TakeObjects(s, me.(key := e.key, props := e.props, challenge := None), e.objects, order.peers).me.id == me.id
    ensures Woken(s, Connecting(s, me, e, order).s)
  {
    var t := TakeObjects(s, me.(key := e.key, props := e.props, challenge := None), e.objects, order.peers);
    TakeObjectsWakes(s, me.(key := e.key, props := e.props, challenge := None), e.objects, order.peers);
    var early := t.me.(out := t.me.out + EarlyObjects(t.s.peers, order.peers, order));
    SendEachWakes(t.s, me.id, Announcement(early, order.own));
    var h := Connected(t.s, early, order);
    RoomsWake(h.s, h.me, h.me.Room(), order);
  }

  lemma PeerUpdatingWakes(s: State, me: Peer, key: Key, value: Value, order: Orders)
    requires me.id !in s.peers
    ensures Woken(s, PeerUpdating(s, me, key, value, order).s)
  {
    hide LeaveRoom, JoinRoom;
    var me1 := me.(props := Inserted(me.props, key, value));
    var s1 := SendToAll(s, me.id, PeerUpdated(me.id, key, value));
    SendToAllWakes(s, me.id, PeerUpdated(me.id, key, value));
    if key == ROOM {
      RoomsWake(s1, me1, me.Room(), order);
      var left := LeaveRoom(s1, me1, me.Room());
      RoomsWake(left.s, left.me, value.AsStableId(), order);
    }
  }

  /** Every event schedules every other peer it writes to. */
  lemma HandleWakes(s: State, me: Peer, e: Event, order: Orders)
    requires RoomsKept(s) && Fits(s, me) && OrdersFit(s, me, e, order) && Handle(s, me, e, order).Some?
    ensures Woken(s, Handle(s, me, e, order).value.s)
  {
    match e {
      case Connect(_, _, _, _) =>
        hide JoinRoom, Connected;
        TakeObjectsKeeps(s, me.(key := e.key, props := e.props, challenge := None), e.objects, order.peers);
        ConnectingKeeps(s, me, e, order);
        ConnectingWakes(s, me, e, order);
      case PeerUpdate(key, value) => PeerUpdatingWakes(s, me, key, value, order);
      case ObjectCreate(o) =>
        hide SendUpdate;
        var me1 := me.(objects := me.objects[o.id := o]);
        var s1 := if o.ty == ROOM_TYPE then CreateRoom(s, me1, o.id, order.peers) else s;
        SendUpdateWakes(s1, me1, o.ty, ObjectCreated(me.id, o));
      case ObjectUpdate(id, key, value) =>
        hide SendUpdate;
        if id in me.objects {
          var h := ObjectUpdating(s, me, id, key, value);
          SendUpdateWakes(s, h.me, h.me.objects[id].ty, ObjectUpdated(me.id, id, key, value));
        }
      case ObjectRemove(id) =>
        hide SendUpdate;
        if id in me.objects {
          var h := ObjectRemoving(s, me, id);
          var ty := me.objects[id].ty;
          var s1 := if ty == ROOM_TYPE then s.(rooms := s.rooms - {StableId(me.key, id)}) else s;
          SendUpdateWakes(s1, h.me, ty, ObjectRemoved(me.id, id));
        }
      case _ =>
    }
  }

  /** After a batch the handled peer is scheduled or gone, and whoever was written to is scheduled. */
  ghost predicate BatchWoken(s: State, id: PeerId, t: State) {
    && (t.peers.Keys == s.peers.Keys || t.peers.Keys == s.peers.Keys + {id})
    && (id in t.peers ==> id in t.poll)
    && s.poll - {id} <= t.poll
    && forall q :: q in s.peers && q != id && t.peers[q].out != s.peers[q].out ==> q in t.poll
  }

  lemma {:induction false} HandleAllWakes(s: State, me: Peer, inputs: seq<Input>, failing: bool)
    requires SoundWith(s, me) && InputsFit(s, me, inputs)
    ensures BatchWoken(s, me.id, HandleAll(s, me, inputs, failing))
    decreases |inputs|
  {
    assert me.id !in s.peers;
    EndsWake(s, me);
    if inputs != [] {
      var r := Handle(s, me, inputs[0].event, inputs[0].order);
      if r.Some? {
        hide Look, Handle, OrdersFit, KeysDistinct, OthersAgree, MeAgrees, Insert, Drop;
        HandleWakes(s, me, inputs[0].event, inputs[0].order);
        HandleSound(Identity, s, me, inputs[0].event, inputs[0].order);
        HandleKeepsRooms(s, me, inputs[0].event, inputs[0].order);
        hide RoomsKept, Fits, Enrolled, SoundWith;
        HandleAllWakes(r.value.s, r.value.me, inputs[1..], failing);
        BatchAfter(s, r.value.s, me.id, HandleAll(r.value.s, r.value.me, inputs[1..], failing));
      }
    }
  }

  lemma BatchAfter(s: State, t: State, id: PeerId, u: State)
    requires Woken(s, t) && BatchWoken(t, id, u) && id !in s.peers
    ensures BatchWoken(s, id, u)
  {
  }

  lemma EndsWake(s: State, me: Peer)
    requires me.id !in s.peers
    ensures BatchWoken(s, me.id, Insert(s, me)) && BatchWoken(s, me.id, Drop(s, me))
  {
  }

  // ----- The polling loop

  /** A connection's socket: how much of its queue is flushed, and whether its waker is registered. */
  datatype Io = Io(flushed: nat, parked: bool, blocked: bool)

  /** The server with its sockets and the ids whose wakers have fired. */
  datatype Loop = Loop(server: State, io: map<PeerId, Io>, receiver: set<PeerId>)

  /** What polling a peer's socket comes to. */
  datatype Polled =
    | Idle(blocked: bool, flushed: nat)
    | Ready(flushed: nat, inputs: seq<Input>, failing: bool)

  /** Writing stops when all is flushed or when the socket blocks. */
  predicate Plausible(p: Peer, io: Io, r: Polled) {
    && io.flushed <= r.flushed <= |p.out|
    && (r.Idle? && !r.blocked ==> r.flushed == |p.out|)
  }

  datatype Turn =
    | Accepted
    | Woke(id: PeerId)
    | Refreshed
    | Polling(id: PeerId, fromReceiver: bool, result: Polled)

  /** A socket is watched if its waker is registered and there is nothing it could write. */
  predicate Watched(p: Peer, io: Io) {
    io.parked && (io.flushed == |p.out| || io.blocked)
  }

  ghost predicate Attended(l: Loop) {
    && l.io.Keys == l.server.peers.Keys
    && forall id :: id in l.server.peers ==>
         id in l.server.poll || id in l.receiver || Watched(l.server.peers[id], l.io[id])
  }

  function Restrict(io: map<PeerId, Io>, keys: set<PeerId>): map<PeerId, Io> {
    map id | id in keys :: if id in io then io[id] else Io(0, false, false)
  }

  function Popping(l: Loop, id: PeerId, fromReceiver: bool): Loop {
    if fromReceiver then l.(receiver := l.receiver - {id}) else l.(server := l.server.(poll := l.server.poll - {id}))
  }

  function Take(l: Loop, turn: Turn): Loop {
    match turn
    case Accepted =>
      var s := Next(l.server, Accept);
      l.(server := s, io := Restrict(l.io, s.peers.Keys))
    case Woke(id) =>
      if id in l.io then l.(receiver := l.receiver + {id}, io := l.io[id := l.io[id].(parked := false)])
      else l.(receiver := l.receiver + {id})
    case Refreshed => l.(server := l.server.(poll := l.server.poll + l.server.peers.Keys))
    case Polling(id, fromReceiver, result) =>
      var l1 := Popping(l, id, fromReceiver);
      if id !in l1.server.peers || id !in l1.io then l1
      else
        match result
        case Idle(blocked, flushed) => l1.(io := l1.io[id := Io(flushed, true, blocked)])
        case Ready(flushed, inputs, failing) =>
          var s := Next(l1.server, Dispatch(id, inputs, failing));
          l1.(server := s, io := Restrict(l1.io[id := Io(flushed, false, false)], s.peers.Keys))
  }

  ghost predicate TurnFits(l: Loop, turn: Turn) {
    match turn
    case Polling(id, fromReceiver, result) =>
      id in l.server.peers && id in l.io ==>
        && Plausible(l.server.peers[id], l.io[id], result)
        && (result.Ready? ==> StepFits(Popping(l, id, fromReceiver).server, Dispatch(id, result.inputs, result.failing)))
    case _ => true
  }

  lemma DispatchAttended(l: Loop, id: PeerId, flushed: nat, inputs: seq<Input>, failing: bool)
    requires Sound(l.server) && id in l.server.peers && l.io.Keys == l.server.peers.Keys
    requires StepFits(l.server, Dispatch(id, inputs, failing))
    requires forall q :: q in l.server.peers && q != id ==>
               q in l.server.poll || q in l.receiver || Watched(l.server.peers[q], l.io[q])
    ensures var s := Next(l.server, Dispatch(id, inputs, failing));
            Attended(l.(server := s, io := Restrict(l.io[id := Io(flushed, false, false)], s.peers.Keys)))
  {
    hide Sound, SoundWith, OthersAgree, MeAgrees, InputsFit, InputsHarmless, HandleAll;
    SoundIdentity(l.server);
    TakeOut(Identity, l.server, id);
    var s0, me := l.server.(peers := l.server.peers - {id}), l.server.peers[id];
    assert me.id == id by { OwnId(l.server, id); }
    HandleAllWakes(s0, me, inputs, failing);
    var s := Next(l.server, Dispatch(id, inputs, failing));
    var io := Restrict(l.io[id := Io(flushed, false, false)], s.peers.Keys);
    forall q | q in s.peers && q !in s.poll && q !in l.receiver
      ensures Watched(s.peers[q], io[q])
    {
      assert q in s0.peers && s.peers[q].out == s0.peers[q].out;
      assert q !in l.server.poll;
    }
  }

  /** No turn of the loop leaves a connection unattended. */
  lemma TurnAttended(l: Loop, turn: Turn)
    requires Sound(l.server) && Attended(l) && TurnFits(l, turn)
    ensures Sound(Take(l, turn).server) && Attended(Take(l, turn))
  {
    hide Sound, Next, StepFits;
    SoundIdentity(l.server);
    match turn {
      case Accepted =>
        StepSound(Identity, l.server, Accept) by { AcceptFits(l.server); }
        AcceptAttended(l);
      case Woke(_) =>
      case Refreshed => PollSound(Identity, l.server, l.server.poll + l.server.peers.Keys);
      case Polling(id, fromReceiver, result) =>
        var l1 := Popping(l, id, fromReceiver);
        PollSound(Identity, l.server, l1.server.poll);
        if id in l.server.peers && result.Ready? {
          DispatchAttended(l1, id, result.flushed, result.inputs, result.failing);
          SoundIdentity(l1.server);
          var step := Dispatch(id, result.inputs, result.failing);
          StepHarmlessIdentity(l1.server, step);
          StepSound(Identity, l1.server, step);
        }
    }
  }

  lemma AcceptFits(s: State)
    ensures StepFits(s, Accept) && StepHarmless(Identity, s, Accept)
  {
  }

  lemma {:induction false} InputsHarmlessIdentity(s: State, me: Peer, inputs: seq<Input>)
    ensures InputsHarmless(Identity, s, me, inputs)
    decreases |inputs|
  {
    hide Handle;
    if inputs != [] {
      var r := Handle(s, me, inputs[0].event, inputs[0].order);
      if r.Some? { InputsHarmlessIdentity(r.value.s, r.value.me, inputs[1..]); }
    }
  }

  lemma StepHarmlessIdentity(s: State, step: Step)
    ensures StepHarmless(Identity, s, step)
  {
    hide InputsHarmless;
    if step.Dispatch? && step.id in s.peers {
      InputsHarmlessIdentity(s.(peers := s.peers - {step.id}), s.peers[step.id], step.inputs);
    }
  }

  lemma AcceptAttended(l: Loop)
    requires Sound(l.server) && Attended(l)
    ensures Attended(Take(l, Accepted))
  {
    hide Sound, Allocator.Next;
    var s := Next(l.server, Accept);
    var id := l.server.ids.Next().0;
    if id.Some? {
      assert s.peers.Keys == l.server.peers.Keys + {id.value};
      assert id.value in s.poll;
    }
  }

  function FreshLoop(seed: U32): Loop { Loop(FreshState(seed), map[], {}) }

  lemma FreshAttended(seed: U32)
    ensures Sound(FreshLoop(seed).server) && Attended(FreshLoop(seed))
  {
    FreshSound(seed);
  }

  /** The loop from its start on, one turn after the other. */
  ghost predicate LoopHistory(loops: seq<Loop>, turns: seq<Turn>) {
    && |loops| == |turns| + 1
    && (exists seed: U32 :: loops[0] == FreshLoop(seed))
    && forall i :: 0 <= i < |turns| ==> TurnFits(loops[i], turns[i]) && loops[i + 1] == Take(loops[i], turns[i])
  }

  /** At all times every connection is scheduled, woken, or watched with nothing it could write. */
  lemma {:induction false} AlwaysAttended(loops: seq<Loop>, turns: seq<Turn>, i: nat)
    requires LoopHistory(loops, turns) && i < |loops|
    ensures Sound(loops[i].server) && Attended(loops[i])
    decreases i
  {
    hide Sound, Attended, TurnFits, Take;
    if i == 0 {
      var seed: U32 :| loops[0] == FreshLoop(seed);
      FreshAttended(seed);
    } else {
      AlwaysAttended(loops, turns, i - 1);
      TurnAttended(loops[i - 1], turns[i - 1]);
    }
  }

  /** When nothing is scheduled and no waker has fired, every connection is being watched. */
  lemma QuietMeansWatched(loops: seq<Loop>, turns: seq<Turn>, i: nat, id: PeerId)
    requires LoopHistory(loops, turns) && i < |loops|
    requires loops[i].server.poll == loops[i].receiver == {} && id in loops[i].server.peers
    ensures id in loops[i].io && Watched(loops[i].server.peers[id], loops[i].io[id])
  {
    hide Sound, LoopHistory;
    AlwaysAttended(loops, turns, i);
  }
}
