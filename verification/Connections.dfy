/** What a connection has sent determines whether it goes on, what it is answered, and the record that is kept of it. */
module Connections {
  import opened Options
  import opened Values
  import opened Protocol
  import opened Identifiers
  import opened Server
  import opened Effects
  import opened Aspects
  import opened Rooms
  import opened Replica
  import opened Runs
  import opened Membership
  import opened Deliveries

  // ----- What has been sent

  /** No connect has used up the challenge that answered this hello. */
  ghost predicate Open(t: seq<Event>, j: nat)
    requires j < |t|
  {
    t[j].Hello? && forall k :: j < k < |t| ==> !t[k].Connect?
  }

  ghost predicate Challenged(t: seq<Event>) { exists j :: 0 <= j < |t| && Open(t, j) }

  ghost predicate LoggedIn(t: seq<Event>) { exists i :: 0 <= i < |t| && t[i].Connect? }

  /** The protocol: what may be sent after `t`. */
  ghost predicate Admissible(t: seq<Event>, e: Event) {
    match e
    case Ping(_) => true
    case Hello(_) => !Challenged(t)
    case Connect(key, signed, _, _) => Challenged(t) && signed && key != 0
    case Unsupported => false
    case _ => LoggedIn(t)
  }

  ghost predicate Admitted(t: seq<Event>) { forall i :: 0 <= i < |t| ==> Admissible(t[..i], t[i]) }

  /** What is kept of a connection. */
  datatype Record = Record(key: PublicKey, challenge: Option<nat>, objects: Objects, props: Properties)

  function Heeded(r: Record, e: Event): Record {
    match e
    case Hello(nonce) => r.(challenge := Some(nonce))
    case Connect(key, _, objects, props) => Record(key, None, InsertAll(r.objects, objects), props)
    case PeerUpdate(key, value) => r.(props := Inserted(r.props, key, value))
    case ObjectCreate(o) => r.(objects := r.objects[o.id := o])
    case ObjectUpdate(id, key, value) =>
      if id !in r.objects then r
      else r.(objects := r.objects[id := r.objects[id].(props := Inserted(r.objects[id].props, key, value))])
    case ObjectRemove(id) => r.(objects := r.objects - {id})
    case _ => r
  }

  function RecordOf(t: seq<Event>): Record {
    if t == [] then Record(0, None, map[], map[]) else Heeded(RecordOf(t[..|t| - 1]), t[|t| - 1])
  }

  /** The answers that are due. */
  function RepliesTo(t: seq<Event>): seq<Msg> {
    if t == [] then []
    else
      var e := t[|t| - 1];
      RepliesTo(t[..|t| - 1]) + if e.Ping? then [Pong(e.payload)] else if e.Hello? then [Challenge(e.nonce)] else []
  }

  predicate IsReply(m: Msg) { m.Pong? || m.Challenge? }

  /** The answers among the messages. */
  function Replies(ms: seq<Msg>): seq<Msg> {
    if ms == [] then []
    else Replies(ms[..|ms| - 1]) + if IsReply(ms[|ms| - 1]) then [ms[|ms| - 1]] else []
  }

  function Kept(p: Peer): Record { Record(p.key, p.challenge, p.objects, p.props) }

  /** The peer has sent exactly `t` on this connection. */
  ghost predicate Logged(p: Peer, t: seq<Event>) {
    Admitted(t) && Kept(p) == RecordOf(t) && Replies(p.out) == RepliesTo(t)
  }

  lemma RecordPush(t: seq<Event>, e: Event)
    ensures RecordOf(t + [e]) == Heeded(RecordOf(t), e)
    ensures RepliesTo(t + [e])
            == RepliesTo(t) + if e.Ping? then [Pong(e.payload)] else if e.Hello? then [Challenge(e.nonce)] else []
  {
    assert (t + [e])[..|t|] == t;
  }

  lemma RepliesPush(ms: seq<Msg>, m: Msg)
    ensures Replies(ms + [m]) == Replies(ms) + if IsReply(m) then [m] else []
  {
    assert (ms + [m])[..|ms|] == ms;
  }

  lemma {:induction false} RepliesGrow(a: seq<Msg>, b: seq<Msg>)
    requires a <= b && forall i :: |a| <= i < |b| ==> !IsReply(b[i])
    ensures Replies(b) == Replies(a)
    decreases |b|
  {
    if |a| < |b| {
      var c := b[..|b| - 1];
      assert forall i :: |a| <= i < |c| ==> c[i] == b[i];
      RepliesGrow(a, c);
    } else {
      assert a == b;
    }
  }

  /** An open challenge is on record exactly when there is one. */
  lemma {:induction false} ChallengeRecorded(t: seq<Event>)
    ensures RecordOf(t).challenge.Some? <==> Challenged(t)
  {
    if t != [] {
      var n := |t| - 1;
      ChallengeRecorded(t[..n]);
      if j :| 0 <= j < n && Open(t[..n], j) {
        assert t[n].Connect? || Open(t, j);
      }
      if j :| 0 <= j < n && Open(t, j) {
        assert forall k :: j < k < n ==> t[..n][k] == t[k];
        assert Open(t[..n], j);
      }
      if t[n].Hello? { assert Open(t, n); }
    }
  }

  lemma KeyHeeded(t: seq<Event>)
    requires t != []
    ensures var n := |t| - 1; RecordOf(t).key == if t[n].Connect? then t[n].key else RecordOf(t[..n]).key
  {
  }

  /** The last connect so far. */
  ghost predicate LastConnect(t: seq<Event>, i: nat)
    requires i < |t|
  {
    t[i].Connect? && forall k :: i < k < |t| ==> !t[k].Connect?
  }

  /** The key on record is that of the last connect. */
  lemma {:induction false} KeyRecorded(t: seq<Event>)
    requires Admitted(t)
    ensures RecordOf(t).key != 0 <==> LoggedIn(t)
    ensures LoggedIn(t) ==> exists i :: 0 <= i < |t| && LastConnect(t, i) && t[i].key == RecordOf(t).key
  {
    hide RecordOf;
    if t == [] {
      NothingRecorded();
    } else {
      var n := |t| - 1;
      var b := t[..n];
      AdmittedBefore(t);
      KeyHeeded(t);
      KeyRecorded(b);
      if t[n].Connect? {
        assert Admissible(b, t[n]);
        assert LastConnect(t, n);
      } else {
        hide Admitted, Admissible;
        LastConnectBefore(t);
        if LoggedIn(b) {
          var i :| 0 <= i < n && LastConnect(b, i) && b[i].key == RecordOf(b).key;
          assert LastConnect(t, i);
        }
      }
    }
  }

  lemma LastConnectBefore(t: seq<Event>)
    requires t != [] && !t[|t| - 1].Connect?
    ensures var b := t[..|t| - 1];
            && (LoggedIn(t) <==> LoggedIn(b))
            && forall i :: 0 <= i < |b| ==> b[i] == t[i] && (LastConnect(b, i) <==> LastConnect(t, i))
  {
    var b := t[..|t| - 1];
    assert forall i :: 0 <= i < |b| ==> b[i] == t[i];
    if i :| 0 <= i < |t| && t[i].Connect? { assert b[i].Connect?; }
    if i :| 0 <= i < |b| && b[i].Connect? { assert t[i].Connect?; }
  }

  lemma NothingRecorded()
    ensures RecordOf([]) == Record(0, None, map[], map[])
  {
  }

  lemma AdmittedBefore(t: seq<Event>)
    requires Admitted(t) && t != []
    ensures Admitted(t[..|t| - 1])
  {
    var b := t[..|t| - 1];
    forall i | 0 <= i < |b|
      ensures Admissible(b[..i], b[i])
    {
      assert b[..i] == t[..i] && b[i] == t[i];
    }
  }

  lemma AdmittedPush(t: seq<Event>, e: Event)
    requires Admitted(t) && Admissible(t, e)
    ensures Admitted(t + [e])
  {
    hide Admissible;
    forall i | 0 <= i <= |t|
      ensures Admissible((t + [e])[..i], (t + [e])[i])
    {
      assert (t + [e])[..i] == t[..i];
      assert t[..|t|] == t;
    }
  }

  // ----- One event

  /** The key of no other connected peer. */
  ghost predicate Unused(s: State, key: PublicKey) { forall q :: q in s.peers ==> s.peers[q].key != key }

  /**
   * An event is handled exactly when it is due: a second hello is refused while a challenge is open, a connect
   * without an open challenge, without a signature or with a key that is zero or taken, and updates before it.
   */
  lemma HandledExactly(s: State, me: Peer, e: Event, order: Orders)
    ensures Handle(s, me, e, order).Some? <==>
              match e
              case Ping(_) => true
              case Hello(_) => me.challenge.None?
              case Connect(key, signed, _, _) =>
                me.challenge.Some? && signed && key != 0 && forall q :: q in s.peers ==> s.peers[q].key != key
              case Unsupported => false
              case _ => me.key != 0
  {
    hide Connecting, Updating;
  }

  /** The same in terms of what the connection has sent. */
  lemma HandledIfAdmissible(s: State, me: Peer, e: Event, order: Orders, t: seq<Event>)
    requires Logged(me, t)
    ensures Handle(s, me, e, order).Some? <==> Admissible(t, e) && (e.Connect? ==> Unused(s, e.key))
  {
    hide Handle, RecordOf, Admitted;
    HandledExactly(s, me, e, order);
    ChallengeRecorded(t);
    KeyRecorded(t);
  }

  lemma ConnectLogged(s: State, me: Peer, e: Event, order: Orders)
    requires e.Connect? && OwnIds(s.peers)
    ensures var h := Connecting(s, me, e, order);
            h.me.id == me.id && Kept(h.me) == Heeded(Kept(me), e) && Replies(h.me.out) == Replies(me.out)
  {
    hide Connecting, Tells;
    ConnectingTells(s, me, e, order, me.objects);
    RepliesGrow(me.out, Connecting(s, me, e, order).me.out);
  }

  /** A connect takes the challenge with it and gives the connection its key. */
  lemma ConnectUsesChallenge(s: State, me: Peer, e: Event, order: Orders)
    requires e.Connect? && OwnIds(s.peers)
    ensures Handle(s, me, e, order).Some? <==>
              me.challenge.Some? && e.signed && e.key != 0 && forall q :: q in s.peers ==> s.peers[q].key != e.key
    ensures Handle(s, me, e, order).Some? ==>
              var me' := Handle(s, me, e, order).value.me; me'.challenge.None? && me'.key == e.key && me'.props == e.props
  {
    hide Connecting;
    ConnectLogged(s, me, e, order);
  }

  lemma UpdateLogged(s: State, me: Peer, e: Event, order: Orders)
    requires IsUpdate(e) && OwnIds(s.peers)
    ensures var h := Updating(s, me, e, order);
            h.me.id == me.id && Kept(h.me) == Heeded(Kept(me), e) && Replies(h.me.out) == Replies(me.out)
  {
    UpdatingTells(s, me, e, order);
    RepliesGrow(me.out, Updating(s, me, e, order).me.out);
    hide SendUpdate, PeerUpdating, CreateRoom, Tells;
    match e {
      case PeerUpdate(key, value) => PeerUpdatingTells(s, me, key, value, order, me.objects);
      case _ =>
    }
  }

  /** A handled event is taken into the record and answered if it asks for that. */
  lemma HandleLogs(s: State, me: Peer, e: Event, order: Orders, t: seq<Event>)
    requires OwnIds(s.peers) && Logged(me, t) && Handle(s, me, e, order).Some?
    ensures var h := Handle(s, me, e, order).value; h.me.id == me.id && Logged(h.me, t + [e])
  {
    HandledIfAdmissible(s, me, e, order, t);
    AdmittedPush(t, e);
    RecordPush(t, e);
    hide Connecting, Updating, RecordOf, RepliesTo, Replies, Admitted;
    match e {
      case Ping(payload) => RepliesPush(me.out, Pong(payload));
      case Hello(nonce) => RepliesPush(me.out, Challenge(nonce));
      case Connect(_, _, _, _) => ConnectLogged(s, me, e, order);
      case _ => UpdateLogged(s, me, e, order);
    }
  }

  /** What is kept of everybody else, and what they have been answered, is as before. */
  ghost predicate OthersKept(s: State, u: State) {
    forall q :: q in s.peers ==> q in u.peers && Kept(u.peers[q]) == Kept(s.peers[q]) && u.peers[q].id == s.peers[q].id
                                 && Replies(u.peers[q].out) == Replies(s.peers[q].out)
  }

  lemma TellsKeeps(s: State, u: State, me: PeerId, objects: Objects, audience: Members)
    requires Tells(s, u, me, objects, audience)
    ensures OthersKept(s, u)
  {
    forall q | q in s.peers
      ensures Kept(u.peers[q]) == Kept(s.peers[q]) && u.peers[q].id == s.peers[q].id
      ensures Replies(u.peers[q].out) == Replies(s.peers[q].out)
    {
      assert u.peers[q] == s.peers[q].(out := u.peers[q].out);
      forall i | |s.peers[q].out| <= i < |u.peers[q].out|
        ensures !IsReply(u.peers[q].out[i])
      {
        assert Fit(me, objects, audience, q, u.peers[q].out[i]);
      }
      RepliesGrow(s.peers[q].out, u.peers[q].out);
    }
  }

  /** No event tells anybody of anything but the peer that sent it, nor of its local objects outside its room. */
  lemma HandleTells(s: State, me: Peer, e: Event, order: Orders)
    requires OwnIds(s.peers) && Handle(s, me, e, order).Some?
    ensures var h := Handle(s, me, e, order).value;
            && Tells(s, h.s, me.id, me.objects, Audience(h.s, h.me))
            && (!e.Ping? && !e.Hello? ==> Hears(h.me.(out := me.out), h.me, Audience(h.s, h.me)))
  {
    hide Connecting, Updating, Tells;
    match e
    case Connect(_, _, _, _) => ConnectingTells(s, me, e, order, me.objects);
    case Ping(_) => TellsNothing(s, me.id, me.objects, Audience(s, me));
    case Hello(_) => TellsNothing(s, me.id, me.objects, Audience(s, me));
    case _ => UpdatingTells(s, me, e, order);
  }

  /** While the lists are exact, local objects are shown to those in the room alone, both ways. */
  lemma LocalsStayInRoom(s: State, me: Peer, e: Event, order: Orders)
    requires SoundWith(s, me) && OrdersFit(s, me, e, order) && Handle(s, me, e, order).Some?
    requires Settled(s) && MeSettled(s, me) && (e.Connect? ==> KeepsPlace(s, me, e))
    ensures var h := Handle(s, me, e, order).value;
            && (forall q, i :: q in s.peers && q in h.s.peers && |s.peers[q].out| <= i < |h.s.peers[q].out|
                               && ShowsLocal(me.objects, h.s.peers[q].out[i]) ==>
                  s.peers[q].Authenticated() && s.peers[q].Room() == h.me.Room())
            && (forall i :: |me.out| <= i < |h.me.out| && ShowsLocal(map[], h.me.out[i]) && h.me.out[i].peer in s.peers ==>
                  s.peers[h.me.out[i].peer].Room() == h.me.Room())
  {
    hide Handle, RoomsKept, Enrolled, OrdersFit, KeysDistinct, OthersAgree, MeAgrees, Allocator.Partition, ShowsLocal;
    HandleSettled(s, me, e, order);
    HandleTells(s, me, e, order);
    var h := Handle(s, me, e, order).value;
    forall q | q in s.peers && q in Audience(h.s, h.me)
      ensures s.peers[q].Authenticated() && s.peers[q].Room() == h.me.Room()
    {
      assert h.s.peers[q] == s.peers[q].(out := h.s.peers[q].out);
      assert Belongs(h.s.peers[q], h.me.Room());
    }
    forall q, i | q in s.peers && |s.peers[q].out| <= i < |h.s.peers[q].out| && ShowsLocal(me.objects, h.s.peers[q].out[i])
      ensures q in Audience(h.s, h.me)
    {
      assert Fit(me.id, me.objects, Audience(h.s, h.me), q, h.s.peers[q].out[i]);
    }
    if e.Ping? || e.Hello? { RepliesShowNothing(s, me, e, order); }
  }

  lemma RepliesShowNothing(s: State, me: Peer, e: Event, order: Orders)
    requires (e.Ping? || e.Hello?) && Handle(s, me, e, order).Some?
    ensures var h := Handle(s, me, e, order).value;
            forall i :: |me.out| <= i < |h.me.out| ==> !ShowsLocal(map[], h.me.out[i])
  {
  }

  // ----- Whole runs

  function EventsOf(inputs: seq<Input>): seq<Event> {
    if inputs == [] then [] else [inputs[0].event] + EventsOf(inputs[1..])
  }

  /** Everything a connection has sent, one that is still there after `i` steps. */
  ghost function Sent(states: seq<State>, steps: seq<Step>, p: PeerId, i: nat): seq<Event>
    requires i <= |steps| && i < |states|
    decreases i
  {
    if i == 0 || p !in states[i].peers || p !in states[i - 1].peers then []
    else
      Sent(states, steps, p, i - 1)
      + if steps[i - 1].Dispatch? && steps[i - 1].id == p then EventsOf(steps[i - 1].inputs) else []
  }

  lemma OthersKeptTransitive(s: State, t: State, u: State)
    requires OthersKept(s, t) && OthersKept(t, u)
    ensures OthersKept(s, u)
  {
    hide Replies, Kept;
  }

  lemma DropKeeps(s: State, me: Peer)
    ensures OthersKept(s, Drop(s, me)) && Drop(s, me).peers.Keys == s.peers.Keys
  {
    var m := PeerDisconnected(me.id);
    SendToAllTells(s.(ids := s.ids.Free(me.id)), me.id, m, map[], []);
    TellsKeeps(s.(ids := s.ids.Free(me.id)), SendToAll(s.(ids := s.ids.Free(me.id)), me.id, m), me.id, map[], []);
  }

  /** A batch is taken in as a whole, or the connection is gone; for all others nothing changes. */
  lemma {:induction false} HandleAllLogs(s: State, me: Peer, inputs: seq<Input>, failing: bool, t: seq<Event>)
    requires OwnIds(s.peers) && me.id !in s.peers && Logged(me, t)
    ensures var u := HandleAll(s, me, inputs, failing);
            && OthersKept(s, u) && u.peers.Keys <= s.peers.Keys + {me.id}
            && (me.id in u.peers ==> Logged(u.peers[me.id], t + EventsOf(inputs)))
    decreases |inputs|
  {
    hide Handle, Logged, Replies, Kept, Drop;
    DropKeeps(s, me);
    if inputs == [] {
      assert t + [] == t;
    } else {
      var e, order := inputs[0].event, inputs[0].order;
      if Handle(s, me, e, order).Some? {
        var h := Handle(s, me, e, order).value;
        HandleLogs(s, me, e, order, t);
        HandleTells(s, me, e, order);
        TellsKeeps(s, h.s, me.id, me.objects, Audience(h.s, h.me));
        assert h.s.peers.Keys == s.peers.Keys && OwnIds(h.s.peers) by {
          TellsOwnIds(s, h.s, me.id, me.objects, Audience(h.s, h.me));
          assert Tells(s, h.s, me.id, me.objects, Audience(h.s, h.me));
        }
        HandleAllLogs(h.s, h.me, inputs[1..], failing, t + [e]);
        OthersKeptTransitive(s, h.s, HandleAll(s, me, inputs, failing));
        assert t + [e] + EventsOf(inputs[1..]) == t + EventsOf(inputs);
      }
    }
  }

  /** Every event of the batch is handled. */
  ghost predicate AllHandled(s: State, me: Peer, inputs: seq<Input>)
    decreases |inputs|
  {
    inputs != [] ==>
      var r := Handle(s, me, inputs[0].event, inputs[0].order);
      r.Some? && AllHandled(r.value.s, r.value.me, inputs[1..])
  }

  /** A connection stays exactly if nothing it sends is refused and its reads do not fail. */
  lemma {:induction false} StaysExactly(s: State, me: Peer, inputs: seq<Input>, failing: bool)
    requires OwnIds(s.peers) && me.id !in s.peers
    ensures me.id in HandleAll(s, me, inputs, failing).peers <==> !failing && AllHandled(s, me, inputs)
    decreases |inputs|
  {
    hide Handle, Drop;
    DropKeeps(s, me);
    if inputs != [] {
      var e, order := inputs[0].event, inputs[0].order;
      if Handle(s, me, e, order).Some? {
        var h := Handle(s, me, e, order).value;
        HandleTells(s, me, e, order);
        TellsOwnIds(s, h.s, me.id, me.objects, Audience(h.s, h.me));
        assert Tells(s, h.s, me.id, me.objects, Audience(h.s, h.me));
        HandleKeepsId(s, me, e, order);
        StaysExactly(h.s, h.me, inputs[1..], failing);
      }
    }
  }

  lemma HandleKeepsId(s: State, me: Peer, e: Event, order: Orders)
    requires OwnIds(s.peers) && Handle(s, me, e, order).Some?
    ensures Handle(s, me, e, order).value.me.id == me.id
  {
    hide Connecting, Updating;
    match e {
      case Connect(_, _, _, _) => ConnectLogged(s, me, e, order);
      case Ping(_) =>
      case Hello(_) =>
      case _ => UpdateLogged(s, me, e, order);
    }
  }

  lemma KeptLogged(p: Peer, p': Peer, t: seq<Event>)
    requires Logged(p, t) && Kept(p') == Kept(p) && Replies(p'.out) == Replies(p.out)
    ensures Logged(p', t)
  {
  }

  /** `t` is what `p` has sent before the step, `u` what the dispatched connection has. */
  lemma StepLogs(s: State, step: Step, p: PeerId, t: seq<Event>, u: seq<Event>)
    requires Sound(s) && p in Next(s, step).peers
    requires p in s.peers ==> Logged(s.peers[p], t)
    requires step.Dispatch? && step.id in s.peers ==> Logged(s.peers[step.id], u) && (step.id == p ==> t == u)
    ensures Logged(Next(s, step).peers[p],
                   if p !in s.peers then [] else t + if step.Dispatch? && step.id == p then EventsOf(step.inputs) else [])
  {
    hide Logged, RoomsKept, KeysDistinct, OthersAgree, NoStrangers, HandleAll, Allocator.Partition, Allocator.Next;
    assert t + [] == t;
    match step
    case Accept =>
      NextPartition(s.ids, s.peers.Keys);
      NewLogged(p);
    case Popped(_) =>
    case Dispatch(id, inputs, failing) =>
      if id in s.peers {
        assert s.peers[id].id == id;
        HandleAllLogs(s.(peers := s.peers - {id}), s.peers[id], inputs, failing, u);
        if p != id { KeptLogged(s.peers[p], Next(s, step).peers[p], t); }
      }
  }

  lemma NewLogged(p: PeerId)
    ensures Logged(NewPeer(p), [])
  {
  }

  lemma {:induction false} HistoryLogs(states: seq<State>, steps: seq<Step>, p: PeerId, i: nat)
    requires History(states, steps) && i < |states| && p in states[i].peers
    ensures Logged(states[i].peers[p], Sent(states, steps, p, i))
    decreases i
  {
    hide Logged, Sound, Next, StepFits;
    if i > 0 {
      var s, step := states[i - 1], steps[i - 1];
      HistorySound(states, steps, i - 1);
      if p in s.peers { HistoryLogs(states, steps, p, i - 1); }
      if step.Dispatch? && step.id in s.peers { HistoryLogs(states, steps, step.id, i - 1); }
      StepLogs(s, step, p, Sent(states, steps, p, i - 1),
               if step.Dispatch? then Sent(states, steps, step.id, i - 1) else []);
    }
  }

  // ----- Main results

  /**
   * However a connection came about, its key is that of its last connect, and every connect was signed and
   * answers a challenge of its own: one queued to this connection, with no other hello or connect in between.
   */
  lemma LoginsAnswerChallenges(states: seq<State>, steps: seq<Step>, p: PeerId)
    requires History(states, steps) && p in states[|steps|].peers
    ensures var me, t := states[|steps|].peers[p], Sent(states, steps, p, |steps|);
            && (me.Authenticated() ==>
                  exists i :: 0 <= i < |t| && LastConnect(t, i) && t[i].key == me.key)
            && forall i :: 0 <= i < |t| && t[i].Connect? ==>
                 && t[i].signed && t[i].key != 0
                 && exists j :: 0 <= j < i && t[j].Hello? && Challenge(t[j].nonce) in me.out
                                && forall k :: j < k < i ==> !t[k].Connect? && !t[k].Hello?
  {
    hide StepFits, Next, Sent;
    HistoryLogs(states, steps, p, |steps|);
    var me, t := states[|steps|].peers[p], Sent(states, steps, p, |steps|);
    KeyRecorded(t);
    forall i | 0 <= i < |t| && t[i].Connect?
      ensures t[i].signed && t[i].key != 0
      ensures exists j :: 0 <= j < i && t[j].Hello? && Challenge(t[j].nonce) in me.out
                          && forall k :: j < k < i ==> !t[k].Connect? && !t[k].Hello?
    {
      var j := ChallengeBefore(t, i);
      HelloAnswered(t, j);
      RepliesQueued(me.out, Challenge(t[j].nonce));
    }
  }

  /** The hello a connect goes back to. */
  lemma ChallengeBefore(t: seq<Event>, i: nat) returns (j: nat)
    requires Admitted(t) && i < |t| && t[i].Connect?
    ensures t[i].signed && t[i].key != 0
    ensures j < i && t[j].Hello? && forall k :: j < k < i ==> !t[k].Connect? && !t[k].Hello?
  {
    assert Admissible(t[..i], t[i]);
    var b := t[..i];
    j :| 0 <= j < |b| && Open(b, j);
    forall k | j < k < i
      ensures !t[k].Connect? && !t[k].Hello?
    {
      assert b[k] == t[k];
      assert forall n :: j < n < k ==> t[n] == b[n];
      NoSecondHello(t, j, k);
    }
  }

  /** While a challenge is open no other is admitted. */
  lemma NoSecondHello(t: seq<Event>, j: nat, k: nat)
    requires Admitted(t) && j < k < |t| && t[j].Hello? && forall n :: j < n < k ==> !t[n].Connect?
    ensures !t[k].Hello?
  {
    assert Admissible(t[..k], t[k]);
    assert Open(t[..k], j);
  }

  lemma {:induction false} HelloAnswered(t: seq<Event>, j: nat)
    requires j < |t| && t[j].Hello?
    ensures Challenge(t[j].nonce) in RepliesTo(t)
    decreases |t|
  {
    if j < |t| - 1 {
      HelloAnswered(t[..|t| - 1], j);
      assert t[..|t| - 1][j] == t[j];
    }
  }

  lemma {:induction false} RepliesQueued(ms: seq<Msg>, m: Msg)
    ensures m in Replies(ms) ==> m in ms
  {
    if ms != [] {
      RepliesQueued(ms[..|ms| - 1], m);
      assert ms == ms[..|ms| - 1] + [ms[|ms| - 1]];
    }
  }

  /**
   * The server's record of a client is what that client has sent on this connection adds up to, all of which
   * the protocol admits; every ping and every hello is answered, in order, and nothing else is.
   */
  lemma RecordedAsSent(states: seq<State>, steps: seq<Step>, p: PeerId)
    requires History(states, steps) && p in states[|steps|].peers
    ensures var me, t := states[|steps|].peers[p], Sent(states, steps, p, |steps|);
            && Admitted(t)
            && RecordOf(t) == Record(me.key, me.challenge, me.objects, me.props)
            && Replies(me.out) == RepliesTo(t)
  {
    HistoryLogs(states, steps, p, |steps|);
  }

  /** So what a client's view holds of another is what that one has sent. */
  lemma SeenAsSent(states: seq<State>, steps: seq<Step>, c: PeerId, p: PeerId)
    requires History(states, steps) && c in states[|steps|].peers && p in states[|steps|].peers && c != p
    requires states[|steps|].peers[c].Authenticated() && states[|steps|].peers[p].Authenticated()
    ensures var view := Fold(map[], states[|steps|].peers[c].out);
            var r := RecordOf(Sent(states, steps, p, |steps|));
            && p in view && view[p].key == r.key && view[p].props == r.props
            && (Undisturbed(Globals, states, steps) ==> GlobalPart(view[p].objects) == GlobalPart(r.objects))
  {
    hide StepFits, Next, StepHarmless, Fold, Sent, RecordOf, Undisturbed, GlobalPart;
    var s := states[|steps|];
    RecordedAsSent(states, steps, p);
    assert Reachable(s);
    PeersReplicated(s, c, p);
    if Undisturbed(Globals, states, steps) {
      assert ReachableUndisturbed(Globals, s);
      GlobalsReplicated(s, c, p);
    }
  }

  /** The nonces of the hellos, in order. */
  function Greeted(t: seq<Event>): seq<nat> {
    if t == [] then []
    else Greeted(t[..|t| - 1]) + if t[|t| - 1].Hello? then [t[|t| - 1].nonce] else []
  }

  /** A client that has read its whole queue has answered each of its hellos' challenges once, in order. */
  lemma HellosAnswered(states: seq<State>, steps: seq<Step>, p: PeerId, own: Own)
    requires History(states, steps) && p in states[|steps|].peers
    ensures FoldOwn(map[], own, states[|steps|].peers[p].out).answered
            == own.answered + Greeted(Sent(states, steps, p, |steps|))
  {
    hide StepFits, Next, Sent, FoldOwn;
    var me, t := states[|steps|].peers[p], Sent(states, steps, p, |steps|);
    RecordedAsSent(states, steps, p);
    ChallengesAnswered(map[], own, me.out);
    NoncesOfReplies(me.out);
    NoncesOfGreeted(t);
  }

  lemma {:induction false} NoncesConcat(a: seq<Msg>, b: seq<Msg>)
    ensures Nonces(a + b) == Nonces(a) + Nonces(b)
    decreases |a|
  {
    if a == [] {
      assert a + b == b;
    } else {
      assert (a + b)[1..] == a[1..] + b;
      NoncesConcat(a[1..], b);
    }
  }

  lemma {:induction false} NoncesOfReplies(ms: seq<Msg>)
    ensures Nonces(Replies(ms)) == Nonces(ms)
  {
    if ms != [] {
      var before, last := ms[..|ms| - 1], ms[|ms| - 1];
      NoncesOfReplies(before);
      assert ms == before + [last];
      NoncesConcat(before, [last]);
      NoncesConcat(Replies(before), if IsReply(last) then [last] else []);
      assert Nonces([last]) == if last.Challenge? then [last.nonce] else [];
    }
  }

  lemma {:induction false} NoncesOfGreeted(t: seq<Event>)
    ensures Nonces(RepliesTo(t)) == Greeted(t)
  {
    if t != [] {
      var before, e := t[..|t| - 1], t[|t| - 1];
      NoncesOfGreeted(before);
      var last := if e.Ping? then [Pong(e.payload)] else if e.Hello? then [Challenge(e.nonce)] else [];
      NoncesConcat(RepliesTo(before), last);
      assert Nonces(last) == if e.Hello? then [e.nonce] else [];
    }
  }
}
