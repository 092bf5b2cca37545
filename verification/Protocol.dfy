/** What server and clients tell each other, and the view a client folds out of it. */
module Protocol {
  import opened Options
  import opened Values

  /** From a client to the server. The nonce and the signature's validity come from outside. */
  datatype Event =
    | Ping(payload: nat)
    | Hello(nonce: nat)
    | Connect(key: PublicKey, signed: bool, objects: seq<RemoteObject>, props: Properties)
    | PeerUpdate(key': Key, value: Value)
    | ObjectCreate(obj: RemoteObject)
    | ObjectUpdate(objectId: Id, key': Key, value: Value)
    | ObjectRemove(objectId: Id)
    | Unsupported

  /** A signature is accepted only for a key that can be verified, which the zero key cannot. */
  predicate Verified(key: PublicKey, signed: bool) { signed && key != 0 }

  /** From the server to a client. */
  datatype Msg =
    | Pong(payload: nat)
    | Challenge(nonce: nat)
    | PeerConnected(peer: PeerId, key: PublicKey, props: Properties)
    | PeerDisconnected(peer: PeerId)
    | PeerJoin(peer: PeerId, objects: seq<RemoteObject>)
    | PeerLeave(peer: PeerId)
    | PeerUpdated(peer: PeerId, key': Key, value: Value)
    | ObjectCreated(peer: PeerId, obj: RemoteObject)
    | ObjectUpdated(peer: PeerId, objectId: Id, key': Key, value: Value)
    | ObjectRemoved(peer: PeerId, objectId: Id)
  {
    predicate About(p: PeerId) { !Pong? && !Challenge? && peer == p }
  }

  /** What a client knows of another peer. */
  datatype Info = Info(key: PublicKey, objects: Objects, props: Properties)

  type View = map<PeerId, Info>

  function InsertAll(objects: Objects, list: seq<RemoteObject>): Objects
    decreases |list|
  {
    if list == [] then objects else InsertAll(objects[list[0].id := list[0]], list[1..])
  }

  function GlobalPart(objects: Objects): Objects {
    map id | id in objects && IsGlobal(objects[id].ty) :: objects[id]
  }

  function LocalPart(objects: Objects): Objects {
    map id | id in objects && !IsGlobal(objects[id].ty) :: objects[id]
  }

  /** The client's reaction to one message about a peer it may or may not know. */
  function React(known: Option<Info>, m: Msg): Option<Info>
    requires !m.Pong? && !m.Challenge?
  {
    match m
    case PeerConnected(_, key, props) => Some(Info(key, map[], props))
    case PeerDisconnected(_) => None
    case _ => if known.None? then None else Some(Revise(known.value, m))
  }

  function Revise(info: Info, m: Msg): Info {
    match m
    case PeerJoin(_, objects) => info.(objects := InsertAll(info.objects, objects))
    case PeerLeave(_) => info.(objects := GlobalPart(info.objects))
    case PeerUpdated(_, key, value) => info.(props := Inserted(info.props, key, value))
    case ObjectCreated(_, obj) => info.(objects := info.objects[obj.id := obj])
    case ObjectUpdated(_, id, key, value) =>
      if id !in info.objects then info
      else info.(objects := info.objects[id := info.objects[id].(props := Inserted(info.objects[id].props, key, value))])
    case ObjectRemoved(_, id) => info.(objects := info.objects - {id})
    case _ => info
  }

  function Known(view: View, p: PeerId): Option<Info> {
    if p in view then Some(view[p]) else None
  }

  function Apply(view: View, m: Msg): View {
    if m.Pong? || m.Challenge? then view
    else
      match React(Known(view, m.peer), m)
      case None => view - {m.peer}
      case Some(info) => view[m.peer := info]
  }

  function Fold(view: View, ms: seq<Msg>): View
    decreases |ms|
  {
    if ms == [] then view else Fold(Apply(view, ms[0]), ms[1..])
  }

  /** What the messages so far say about one peer. */
  function Look(ms: seq<Msg>, p: PeerId): Option<Info> {
    if ms == [] then None
    else
      var m := ms[|ms| - 1];
      var before := Look(ms[..|ms| - 1], p);
      if m.About(p) then React(before, m) else before
  }

  lemma LookPush(ms: seq<Msg>, m: Msg, p: PeerId)
    ensures Look(ms + [m], p) == if m.About(p) then React(Look(ms, p), m) else Look(ms, p)
  {
    assert (ms + [m])[..|ms|] == ms;
  }

  lemma {:induction false} FoldPush(view: View, ms: seq<Msg>, m: Msg)
    ensures Fold(view, ms + [m]) == Apply(Fold(view, ms), m)
    decreases |ms|
  {
    if ms == [] {
      assert [] + [m] == [m];
      assert [m][1..] == [];
    } else {
      assert (ms + [m])[1..] == ms[1..] + [m];
      FoldPush(Apply(view, ms[0]), ms[1..], m);
    }
  }

  /** The client's view is, peer by peer, what its messages say. */
  lemma {:induction false} FoldLooks(ms: seq<Msg>, p: PeerId)
    ensures Known(Fold(map[], ms), p) == Look(ms, p)
  {
    if ms != [] {
      var last := |ms| - 1;
      assert ms == ms[..last] + [ms[last]];
      FoldPush(map[], ms[..last], ms[last]);
      FoldLooks(ms[..last], p);
    }
  }

  /** The client's own side: the room it has chosen, whether that has yet to be sent, the challenges it has answered. */
  datatype Own = Own(room: StableId, unsent: bool, answered: seq<nat>)

  /** The stable name of another peer's object; none for a peer that is not known. */
  function Named(view: View, p: PeerId, id: Id): StableId {
    if p in view then StableId(view[p].key, id) else ZERO_ROOM
  }

  function ApplyOwn(view: View, own: Own, m: Msg): Own {
    match m
    case Challenge(nonce) => own.(answered := own.answered + [nonce])
    case ObjectRemoved(p, id) => if own.room == Named(view, p, id) then own.(room := ZERO_ROOM, unsent := true) else own
    case _ => own
  }

  function FoldOwn(view: View, own: Own, ms: seq<Msg>): Own
    decreases |ms|
  {
    if ms == [] then own else FoldOwn(Apply(view, ms[0]), ApplyOwn(view, own, ms[0]), ms[1..])
  }

  /**
   * Message `i` removes the object that the room is, by the key of the peer that removes it; of a peer
   * that is not known it is taken to be no room.
   */
  predicate RemovesRoom(view: View, room: StableId, ms: seq<Msg>, i: nat)
    requires i < |ms|
  {
    && ms[i].ObjectRemoved?
    && var before := Fold(view, ms[..i]);
       if ms[i].peer in before then room.key == before[ms[i].peer].key && room.id == ms[i].objectId
       else room == ZERO_ROOM
  }

  lemma RemovesRoomLater(view: View, room: StableId, ms: seq<Msg>)
    requires ms != []
    ensures (exists i :: 0 <= i < |ms| && RemovesRoom(view, room, ms, i))
            <==> RemovesRoom(view, room, ms, 0)
                 || exists i :: 0 <= i < |ms[1..]| && RemovesRoom(Apply(view, ms[0]), room, ms[1..], i)
  {
    var view1 := Apply(view, ms[0]);
    forall i | 0 < i < |ms|
      ensures RemovesRoom(view, room, ms, i) <==> RemovesRoom(view1, room, ms[1..], i - 1)
    {
      assert ms[..i][1..] == ms[1..][..i - 1];
    }
    if i :| 0 <= i < |ms[1..]| && RemovesRoom(view1, room, ms[1..], i) {
      assert RemovesRoom(view, room, ms, i + 1);
    }
  }

  /** The client stays in its room exactly until the room's object is removed, and is then in none. */
  lemma {:induction false} RoomKept(view: View, own: Own, ms: seq<Msg>)
    requires own.room != ZERO_ROOM
    ensures FoldOwn(view, own, ms).room
            == if exists i :: 0 <= i < |ms| && RemovesRoom(view, own.room, ms, i) then ZERO_ROOM else own.room
    decreases |ms|
  {
    if ms != [] {
      var view1, own1 := Apply(view, ms[0]), ApplyOwn(view, own, ms[0]);
      assert RemovesRoom(view, own.room, ms, 0) <==> own1.room == ZERO_ROOM;
      RemovesRoomLater(view, own.room, ms);
      if own1.room == ZERO_ROOM {
        NoRoomKept(view1, own1, ms[1..]);
      } else {
        RoomKept(view1, own1, ms[1..]);
      }
    }
  }

  /** That it left has yet to be sent exactly if something had to be before, or a message removed the room's object. */
  lemma {:induction false} UnsentExactly(view: View, own: Own, ms: seq<Msg>)
    ensures FoldOwn(view, own, ms).unsent
            <==> own.unsent || exists i :: 0 <= i < |ms| && RemovesRoom(view, own.room, ms, i)
    decreases |ms|
  {
    if ms != [] {
      var own1 := ApplyOwn(view, own, ms[0]);
      RemovesRoomLater(view, own.room, ms);
      UnsentExactly(Apply(view, ms[0]), own1, ms[1..]);
      assert RemovesRoom(view, own.room, ms, 0) ==> own1.unsent;
      assert !RemovesRoom(view, own.room, ms, 0) ==> own1.unsent == own.unsent && own1.room == own.room;
    }
  }

  /** The nonces of the challenges, in order. */
  function Nonces(ms: seq<Msg>): seq<nat> {
    if ms == [] then []
    else if ms[0].Challenge? then [ms[0].nonce] + Nonces(ms[1..])
    else Nonces(ms[1..])
  }

  /** Every challenge is answered, once and in order, and nothing else is. */
  lemma {:induction false} ChallengesAnswered(view: View, own: Own, ms: seq<Msg>)
    ensures FoldOwn(view, own, ms).answered == own.answered + Nonces(ms)
    decreases |ms|
  {
    if ms != [] { ChallengesAnswered(Apply(view, ms[0]), ApplyOwn(view, own, ms[0]), ms[1..]); }
  }

  lemma {:induction false} NoRoomKept(view: View, own: Own, ms: seq<Msg>)
    requires own.room == ZERO_ROOM
    ensures FoldOwn(view, own, ms).room == ZERO_ROOM
    decreases |ms|
  {
    if ms != [] { NoRoomKept(Apply(view, ms[0]), ApplyOwn(view, own, ms[0]), ms[1..]); }
  }

  /** The client side: peers come and go and change as messages are handled one by one. */
  class Client {
    var peers: View
    var own: Own

    constructor (room: StableId)
      ensures peers == map[] && own == Own(room, false, [])
    {
      peers, own := map[], Own(room, false, []);
    }

    method HandlePeer(messages: seq<Msg>)
      modifies this
      ensures peers == Fold(old(peers), messages)
      ensures own == FoldOwn(old(peers), old(own), messages)
      ensures own.answered == old(own).answered + Nonces(messages)
    {
      ChallengesAnswered(peers, own, messages);
      var rest := messages;
      while rest != []
        invariant Fold(peers, rest) == Fold(old(peers), messages)
        invariant FoldOwn(peers, own, rest) == FoldOwn(old(peers), old(own), messages)
        decreases |rest|
      {
        var m := rest[0];
        rest := rest[1..];
        match m {
          case Pong(_) =>
          case Challenge(nonce) =>
            own := own.(answered := own.answered + [nonce]);
          case PeerConnected(id, key, props) =>
            peers := peers[id := Info(key, map[], props)];
          case PeerDisconnected(id) =>
            peers := peers - {id};
          case PeerJoin(id, objects) =>
            if id in peers {
              var merged: Objects := peers[id].objects;
              for i := 0 to |objects|
                invariant InsertAll(merged, objects[i..]) == InsertAll(peers[id].objects, objects)
              {
                merged := merged[objects[i].id := objects[i]];
              }
              peers := peers[id := peers[id].(objects := merged)];
            } else {
              assert peers == peers - {id};
            }
          case PeerLeave(id) =>
            if id in peers {
              peers := peers[id := peers[id].(objects := GlobalPart(peers[id].objects))];
            } else {
              assert peers == peers - {id};
            }
          case PeerUpdated(id, key, value) =>
            if id in peers {
              peers := peers[id := peers[id].(props := Inserted(peers[id].props, key, value))];
            } else {
              assert peers == peers - {id};
            }
          case ObjectUpdated(id, objectId, key, value) =>
            if id in peers {
              var info := peers[id];
              if objectId in info.objects {
                var obj := info.objects[objectId];
                obj := obj.(props := Inserted(obj.props, key, value));
                peers := peers[id := info.(objects := info.objects[objectId := obj])];
              } else {
                assert peers == peers[id := info];
              }
            } else {
              assert peers == peers - {id};
            }
          case ObjectCreated(id, obj) =>
            if id in peers {
              peers := peers[id := peers[id].(objects := peers[id].objects[obj.id := obj])];
            } else {
              assert peers == peers - {id};
            }
          case ObjectRemoved(id, objectId) =>
            var removed := if id in peers then StableId(peers[id].key, objectId) else ZERO_ROOM;
            if own.room == removed {
              own := own.(room := ZERO_ROOM, unsent := true);
            }
            if id in peers {
              peers := peers[id := peers[id].(objects := peers[id].objects - {objectId})];
            } else {
              assert peers == peers - {id};
            }
        }
      }
    }
  }
}
