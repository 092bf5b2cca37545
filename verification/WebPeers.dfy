/** The peers of the web map, known by temporary identifier and by public key. */
module WebPeers {
  import opened Options
  import opened Values
  import opened Order

  datatype Peer = Peer(id: PeerId, props: Properties, key: PublicKey, inRoom: bool)

  /** Each table leads back through the other. */
  ghost predicate Mutual(peers: map<PeerId, Peer>, keys: map<PublicKey, PeerId>) {
    && (forall id :: id in peers ==> peers[id].id == id && peers[id].key in keys && keys[peers[id].key] == id)
    && (forall key :: key in keys ==> keys[key] in peers && peers[keys[key]].key == key)
  }

  /** The second table is determined by the first, and no two peers share a key. */
  lemma MutualDetermines(peers: map<PeerId, Peer>, keys: map<PublicKey, PeerId>)
    requires Mutual(peers, keys)
    ensures forall a, b :: a in peers && b in peers && peers[a].key == peers[b].key ==> a == b
    ensures keys.Keys == set id | id in peers :: peers[id].key
    ensures forall other :: Mutual(peers, other) ==> other == keys
  {
    forall other | Mutual(peers, other)
      ensures other == keys
    {
      forall key
        ensures key in other <==> key in keys
        ensures key in other && key in keys ==> other[key] == keys[key]
      {
        if key in other { assert peers[other[key]].key in keys; }
        if key in keys { assert peers[keys[key]].key in other; }
      }
    }
  }

  /** The peers but the one that holds a key. */
  function Displaced(peers: map<PeerId, Peer>, key: PublicKey): map<PeerId, Peer> {
    map id | id in peers && peers[id].key != key :: peers[id]
  }

  /** Temporary from stable. */
  function ToRemoteId(own: PublicKey, keys: map<PublicKey, PeerId>, id: StableId): RemoteId {
    if id.key == own then RemoteId(0, id.id)
    else if id.key in keys then RemoteId(keys[id.key], id.id)
    else ROOT
  }

  /** Stable from temporary. */
  function ToStableId(own: PublicKey, peers: map<PeerId, Peer>, id: RemoteId): StableId {
    if id.peer == 0 then StableId(own, id.id)
    else if id.peer in peers then StableId(peers[id.peer].key, id.id)
    else ZERO_ROOM
  }

  /**
   * There and back again: from temporary identifiers exactly for local ones and known peers that do
   * not hold the own key, from stable ones exactly for the own key and peers that are not called zero.
   */
  lemma RoundTrips(own: PublicKey, peers: map<PeerId, Peer>, keys: map<PublicKey, PeerId>)
    requires Mutual(peers, keys)
    ensures forall id :: ToRemoteId(own, keys, ToStableId(own, peers, id)) == id
                         <==> id.peer == 0 || (id.peer in peers && peers[id.peer].key != own)
    ensures forall id :: ToStableId(own, peers, ToRemoteId(own, keys, id)) == id
                         <==> id.key == own || (id.key in keys && keys[id.key] != 0)
  {
    forall id
      ensures ToRemoteId(own, keys, ToStableId(own, peers, id)) == id
              <==> id.peer == 0 || (id.peer in peers && peers[id.peer].key != own)
    {
      if id.peer != 0 && id.peer !in peers && 0 in keys {
        assert keys[0] in peers;
      }
    }
  }

  class Peers {
    var peers: map<PeerId, Peer>
    var publicKeys: map<PublicKey, PeerId>
    var publicKey: PublicKey

    ghost predicate Valid()
      reads this
    {
      Mutual(peers, publicKeys)
    }

    constructor ()
      ensures Valid() && peers == map[] && publicKey == 0
    {
      peers, publicKeys, publicKey := map[], map[], 0;
    }

    method Clear()
      modifies `peers, `publicKeys
      ensures Valid() && peers == map[]
    {
      peers, publicKeys := map[], map[];
    }

    /** The peer that has a key, if any. */
    method ByPublicKey(key: PublicKey) returns (p: Option<Peer>)
      requires Valid()
      ensures p.Some? ==> p.value.id in peers && peers[p.value.id] == p.value && p.value.key == key
      ensures p.None? ==> forall id :: id in peers ==> peers[id].key != key
    {
      if key !in publicKeys {
        return None;
      }
      var id := publicKeys[key];
      p := if id in peers then Some(peers[id]) else None;
    }

    method Remove(id: PeerId)
      requires Valid()
      modifies `peers, `publicKeys
      ensures Valid()
      ensures peers == old(peers) - {id}
    {
      if id in peers {
        var p := peers[id];
        peers := peers - {id};
        publicKeys := publicKeys - {p.key};
      } else {
        assert peers == peers - {id};
      }
    }

    /** A peer takes its identifier from whoever had it, and its key from whoever held that. */
    method Insert(id: PeerId, key: PublicKey, props: Properties, room: StableId)
      requires Valid()
      modifies `peers, `publicKeys
      ensures Valid()
      ensures peers == Displaced(old(peers), key)[id := Peer(id, props, key, Get(props, ROOM).AsStableId() == room)]
    {
      ghost var before, keysBefore := peers, publicKeys;
      var holder := if key in publicKeys then Some(publicKeys[key]) else None;
      publicKeys := publicKeys[key := id];
      if holder.Some? {
        peers := peers - {holder.value};
      }
      assert peers == Displaced(before, key);
      var inRoom := Get(props, ROOM).AsStableId() == room;
      var replaced := if id in peers then Some(peers[id]) else None;
      peers := peers[id := Peer(id, props, key, inRoom)];
      if replaced.Some? {
        publicKeys := publicKeys - {replaced.value.key};
      }
    }
  }
}
