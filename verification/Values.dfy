/** Property values, property maps and replicated objects. */
module Values {
  import opened Bytes
  import opened Words

  type PeerId = U32
  type Id = U32

  /** The identifier as a sort key: little-endian, and never empty. */
  function IdBytes(id: Id): ByteString {
    [id % 0x100, id / 0x100 % 0x100, id / 0x1_0000 % 0x100, id / 0x100_0000 % 0x100]
  }

  /** The first byte counts least, and no two identifiers have the same bytes. */
  lemma IdBytesDigits(id: Id)
    ensures var b := IdBytes(id);
            |b| == 4 && id == b[0] as int + 0x100 * (b[1] as int + 0x100 * (b[2] as int + 0x100 * b[3] as int))
  {
  }

  /** A public key; zero stands for none. */
  type PublicKey = nat

  datatype StableId = StableId(key: PublicKey, id: Id)
  const ZERO_ROOM := StableId(0, 0)

  datatype Value =
    | Empty
    | IdValue(id: Id)
    | PeerIdValue(peer: PeerId)
    | StableIdValue(stable: StableId)
    | BytesValue(bytes: ByteString)
    | StringValue(text: string)
    | FloatValue(float: real)
    | OtherValue(kind: nat, payload: ByteString)
  {
    predicate IsEmpty() {
      match this
      case Empty => true
      case IdValue(id) => id == 0
      case PeerIdValue(peer) => peer == 0
      case StableIdValue(stable) => stable == ZERO_ROOM
      case BytesValue(bytes) => bytes == []
      case StringValue(text) => text == ""
      case FloatValue(_) => false
      case OtherValue(_, _) => false
    }

    function AsId(): Id { if IdValue? then id else 0 }

    function AsPeerId(): PeerId { if PeerIdValue? then peer else 0 }

    function AsStableId(): StableId { if StableIdValue? then stable else ZERO_ROOM }

    function AsBytes(): ByteString { if BytesValue? then bytes else [] }

    function AsString(): string { if StringValue? then text else "" }
  }

  /** A value is empty exactly when no reader can tell it from one that is absent. */
  lemma EmptyReadsAsAbsent(v: Value)
    ensures v.IsEmpty() <==>
              && !v.FloatValue? && !v.OtherValue?
              && v.AsId() == Empty.AsId() && v.AsPeerId() == Empty.AsPeerId() && v.AsStableId() == Empty.AsStableId()
              && v.AsBytes() == Empty.AsBytes() && v.AsString() == Empty.AsString()
  {
  }

  type Key = nat
  const IMAGE_ID: Key := 0
  const SORT: Key := 24
  const GROUP: Key := 25
  const PEER_NAME: Key := 28
  const ROOM: Key := 30
  const ROOM_BACKGROUND: Key := 31

  /** The keys other peers get to see. */
  predicate IsRemote(key: Key) { key == PEER_NAME || key == ROOM }

  type Properties = map<Key, Value>

  function Get(p: Properties, key: Key): Value { if key in p then p[key] else Empty }

  /** The map after an insertion; inserting an empty value removes the key. */
  function Inserted(p: Properties, key: Key, value: Value): Properties {
    if value.IsEmpty() then p - {key} else p[key := value]
  }

  /** Two maps that no reader can tell apart. */
  ghost predicate SameProperties(p: Properties, q: Properties) {
    forall key :: Get(p, key) == Get(q, key)
  }

  type TypeId = U32
  const ROOM_TYPE: TypeId := 0x8000_0001

  /** Global objects are shown to all peers, whatever their room. */
  predicate IsGlobal(ty: TypeId) { ty >= 0x8000_0000 }

  datatype RemoteObject = RemoteObject(ty: TypeId, id: Id, props: Properties)

  type Objects = map<Id, RemoteObject>

  const EPSILON: real := 1.0 / 4503599627370496.0

  /** The step from one to the next number with 52 digits after the point. */
  lemma EpsilonIsLastDigit()
    ensures EPSILON * Power2(52) as real == 1.0
  {
    assert Power2(13) == 8192;
    assert Power2(26) == 8192 * 8192;
    assert Power2(39) == 8192 * 8192 * 8192;
    assert Power2(52) == 8192 * 8192 * 8192 * 8192;
  }

  function Abs(x: real): real { if x < 0.0 then -x else x }

  /** Floats closer than the machine epsilon count as unchanged. */
  predicate Unchanged(old': Value, new': Value) {
    if old'.FloatValue? && new'.FloatValue? then Abs(old'.float - new'.float) < EPSILON
    else old' == new'
  }

  /** To count as unchanged goes both ways, and for floats means to be less than the last digit apart. */
  lemma UnchangedNear(a: Value, b: Value)
    ensures Unchanged(a, a) && (Unchanged(a, b) <==> Unchanged(b, a))
    ensures a.FloatValue? && b.FloatValue? && a.float <= b.float ==> (Unchanged(a, b) <==> b.float < a.float + EPSILON)
  {
  }

  /** The property map of an object or a peer. */
  class PropertyMap {
    var values: Properties

    constructor ()
      ensures values == map[]
    {
      values := map[];
    }

    method Remove(key: Key) returns (old': Value)
      modifies this
      ensures old' == Get(old(values), key) && values == old(values) - {key}
    {
      if key !in values {
        assert values == values - {key};
        return Empty;
      }
      old' := values[key];
      values := values - {key};
    }

    method Insert(key: Key, value: Value) returns (old': Value)
      modifies this
      ensures old' == Get(old(values), key)
      ensures values == Inserted(old(values), key, value)
    {
      if value.IsEmpty() {
        old' := Remove(key);
        return;
      }
      old' := Get(values, key);
      values := values[key := value];
    }

    /** An insertion that reports, and makes, a change only when there is one. */
    method Update(key: Key, other: Value) returns (changed: bool)
      modifies this
      ensures values == if changed then Inserted(old(values), key, other) else old(values)
      ensures changed <==> if key in old(values) then other.IsEmpty() || !Unchanged(old(values)[key], other)
                           else !other.IsEmpty()
    {
      if key !in values {
        if other.IsEmpty() {
          return false;
        }
        values := values[key := other];
        return true;
      }
      if values[key].FloatValue? && other.FloatValue? {
        if Abs(values[key].float - other.float) < EPSILON {
          return false;
        }
      } else {
        if other.IsEmpty() {
          values := values - {key};
          return true;
        }
        if values[key] == other {
          return false;
        }
      }
      values := values[key := other];
      changed := true;
    }
  }
}
