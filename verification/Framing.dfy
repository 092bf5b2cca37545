/** Length-prefixed frames, and the parser that takes them apart again. */
module Framing {
  import opened Bytes

  const MAX_MESSAGE: nat := 1024 * 1024 * 10
  const WORD: nat := 0x1_0000_0000

  type Body = b: ByteString | |b| < WORD witness []

  /** The four big-endian bytes of a length. */
  function BigEndian(n: nat): (b: ByteString)
    requires n < WORD
    ensures |b| == 4
  {
    [n / 0x100 / 0x100 / 0x100, n / 0x100 / 0x100 % 0x100, n / 0x100 % 0x100, n % 0x100]
  }

  function FromBigEndian(b: ByteString): (n: nat)
    requires |b| == 4
    ensures n < WORD
  {
    var high: int := b[0];
    ((high * 0x100 + b[1]) * 0x100 + b[2]) * 0x100 + b[3]
  }

  lemma BigEndianRoundTrip(n: nat)
    requires n < WORD
    ensures FromBigEndian(BigEndian(n)) == n
  {
  }

  /** Longer lengths have greater bytes: the first byte counts most. */
  lemma BigEndianGrows(m: nat, n: nat)
    requires m < WORD && n < WORD
    ensures m < n <==> Less(BigEndian(m), BigEndian(n))
  {
    var a, b := BigEndian(m), BigEndian(n);
    BigEndianRoundTrip(m);
    BigEndianRoundTrip(n);
    if m < n {
      BigEndianParts(m, n);
    } else if m == n {
      LessIrreflexive(a);
    } else {
      BigEndianParts(n, m);
      LessAsymmetric(b, a);
    }
  }

  lemma BigEndianParts(m: nat, n: nat)
    requires m < n < WORD
    ensures Less(BigEndian(m), BigEndian(n))
  {
    var a, b := BigEndian(m), BigEndian(n);
    BigEndianRoundTrip(m);
    BigEndianRoundTrip(n);
    var k := if a[0] != b[0] then 0 else if a[1] != b[1] then 1 else if a[2] != b[2] then 2 else 3;
    assert a[k] < b[k];
    LessAt(a, b, k);
  }

  function Frame(body: Body): (f: ByteString)
    ensures |f| == 4 + |body|
  {
    BigEndian(|body|) + body
  }

  function Encode(bodies: seq<Body>): ByteString {
    if bodies == [] then [] else Frame(bodies[0]) + Encode(bodies[1..])
  }

  lemma {:induction false} EncodeAppend(a: seq<Body>, b: seq<Body>)
    ensures Encode(a + b) == Encode(a) + Encode(b)
  {
    if a == [] {
      assert a + b == b;
    } else {
      assert (a + b)[1..] == a[1..] + b;
      EncodeAppend(a[1..], b);
    }
  }

  /** Where the parser stands: before a length, or before a body of known length. */
  datatype Parser = Idle | Recv(len: nat)

  /** What a read brings: nothing yet, one body, or a refusal of an oversized one. */
  datatype Outcome = NoMessage | Message(body: ByteString) | TooLarge(len: nat)

  datatype Reading = Reading(outcome: Outcome, parser: Parser, rest: ByteString)

  /** One call of the reader on the unread bytes. */
  function Read(parser: Parser, bytes: ByteString): Reading {
    match parser
    case Idle =>
      if |bytes| < 4 then Reading(NoMessage, Idle, bytes)
      else
        var len := FromBigEndian(bytes[..4]);
        if len > MAX_MESSAGE then Reading(TooLarge(len), Idle, bytes[4..])
        else ReadBody(len, bytes[4..])
    case Recv(len) => ReadBody(len, bytes)
  }

  function ReadBody(len: nat, bytes: ByteString): Reading {
    if |bytes| < len then Reading(NoMessage, Recv(len), bytes)
    else Reading(Message(bytes[..len]), Idle, bytes[len..])
  }

  /** The bytes of the current frame that the parser has already taken. */
  function Taken(parser: Parser): ByteString
    requires parser.Recv? ==> parser.len < WORD
  {
    match parser
    case Idle => []
    case Recv(len) => BigEndian(len)
  }

  /** The parser is at the start of `pending`, whose remaining bytes are `bytes` and then `later`. */
  ghost predicate Aligned(parser: Parser, bytes: ByteString, later: ByteString, pending: seq<Body>) {
    && (parser.Recv? ==> pending != [] && parser.len == |pending[0]| <= MAX_MESSAGE)
    && Taken(parser) + bytes + later == Encode(pending)
  }

  /**
   * What a read makes of a stream of frames: the first pending body as soon as
   * all of its bytes are there and its size is allowed.
   */
  lemma ReadPending(parser: Parser, bytes: ByteString, later: ByteString, pending: seq<Body>)
    requires Aligned(parser, bytes, later, pending)
    ensures var r := Read(parser, bytes);
            match r.outcome
            case NoMessage =>
              && Aligned(r.parser, r.rest, later, pending)
              && (pending != [] ==> |Taken(parser) + bytes| < |Frame(pending[0])|)
            case Message(body) =>
              && pending != [] && body == pending[0]
              && |pending[0]| <= MAX_MESSAGE
              && Aligned(r.parser, r.rest, later, pending[1..])
            case TooLarge(len) => pending != [] && len == |pending[0]| > MAX_MESSAGE
  {
    var all := Taken(parser) + bytes + later;
    if pending == [] {
      assert bytes == [] && later == [];
    } else {
      var body := pending[0];
      assert all == BigEndian(|body|) + (body + Encode(pending[1..]));
      if |Taken(parser) + bytes| >= 4 {
        assert (Taken(parser) + bytes)[..4] == all[..4] == BigEndian(|body|);
        BigEndianRoundTrip(|body|);
        var tail := (Taken(parser) + bytes)[4..];
        assert tail + later == all[4..] == body + Encode(pending[1..]);
        if |body| <= MAX_MESSAGE {
          ReadBodyPending(tail, later, pending);
          if parser.Idle? { assert tail == bytes[4..]; } else { assert tail == bytes; }
        }
      }
    }
  }

  lemma ReadBodyPending(bytes: ByteString, later: ByteString, pending: seq<Body>)
    requires pending != [] && |pending[0]| <= MAX_MESSAGE
    requires bytes + later == pending[0] + Encode(pending[1..])
    ensures var r := ReadBody(|pending[0]|, bytes);
            if |bytes| < |pending[0]|
            then r.outcome == NoMessage && Aligned(r.parser, r.rest, later, pending)
            else r.outcome == Message(pending[0]) && Aligned(r.parser, r.rest, later, pending[1..])
  {
    var body := pending[0];
    if |bytes| < |body| {
      assert Taken(Recv(|body|)) + bytes + later == BigEndian(|body|) + (bytes + later);
      assert BigEndian(|body|) + (body + Encode(pending[1..])) == Frame(body) + Encode(pending[1..]);
    } else {
      assert bytes[..|body|] == (bytes + later)[..|body|] == body;
      assert bytes[|body|..] + later == (bytes + later)[|body|..] == Encode(pending[1..]);
    }
  }

  /** A whole frame is read as its body, whatever follows it. */
  lemma ReadWhole(parser: Parser, bytes: ByteString, body: Body)
    requires |body| <= MAX_MESSAGE && (parser.Recv? ==> parser.len == |body|)
    requires Frame(body) <= Taken(parser) + bytes
    ensures Read(parser, bytes).outcome == Message(body)
  {
    var all := Taken(parser) + bytes;
    var rest := all[4..];
    assert all[..|Frame(body)|] == Frame(body);
    assert all[..4] == Frame(body)[..4] == BigEndian(|body|);
    assert rest[..|body|] == Frame(body)[4..] == body;
    BigEndianRoundTrip(|body|);
    if parser.Idle? { assert all == bytes; } else { assert rest == bytes; }
  }

  /** A frame cut short is kept, with its length taken off once that is there. */
  lemma ReadPart(parser: Parser, bytes: ByteString, body: Body)
    requires |body| <= MAX_MESSAGE && (parser.Recv? ==> parser.len == |body|)
    requires Taken(parser) + bytes < Frame(body)
    ensures var r := Read(parser, bytes);
            && r.outcome == NoMessage
            && (r.parser.Recv? ==> r.parser.len == |body|)
            && Taken(r.parser) + r.rest == Taken(parser) + bytes
            && (parser.Recv? || |bytes| < 4 ==> r.parser == parser && r.rest == bytes)
            && (parser.Idle? && |bytes| >= 4 ==> r.parser == Recv(|body|) && r.rest == bytes[4..])
  {
    var all := Taken(parser) + bytes;
    assert all == Frame(body)[..|all|];
    BigEndianRoundTrip(|body|);
    if parser.Idle? {
      assert all == bytes;
      if |bytes| >= 4 {
        assert bytes[..4] == Frame(body)[..4] == BigEndian(|body|);
        assert bytes == bytes[..4] + bytes[4..];
      }
    }
  }

  /**
   * A link: bytes waiting to be written, bytes on the wire, bytes waiting to be
   * read, and what was sent and received so far.
   */
  datatype Link = Link(
    sent: seq<Body>, out: ByteString, wire: ByteString, inbox: ByteString,
    parser: Parser, received: seq<ByteString>, refused: bool)

  const FreshLink := Link([], [], [], [], Idle, [], false)

  /** A send, a partial write, a delivery of some bytes, or a read. */
  datatype Action = Send(body: Body) | Write(n: nat) | Deliver(n: nat) | Receive

  function Min(a: nat, b: nat): nat { if a < b then a else b }

  function Act(k: Link, a: Action): Link {
    match a
    case Send(body) => k.(sent := k.sent + [body], out := k.out + Frame(body))
    case Write(n) =>
      var m := Min(n, |k.out|);
      k.(out := k.out[m..], wire := k.wire + k.out[..m])
    case Deliver(n) =>
      var m := Min(n, |k.wire|);
      k.(wire := k.wire[m..], inbox := k.inbox + k.wire[..m])
    case Receive =>
      if k.refused then k
      else
        var r := Read(k.parser, k.inbox);
        match r.outcome
        case NoMessage => k.(parser := r.parser, inbox := r.rest)
        case Message(body) => k.(parser := r.parser, inbox := r.rest, received := k.received + [body])
        case TooLarge(_) => k.(parser := r.parser, inbox := r.rest, refused := true)
  }

  function ActAll(k: Link, actions: seq<Action>): Link
    decreases |actions|
  {
    if actions == [] then k else ActAll(Act(k, actions[0]), actions[1..])
  }

  /** The bodies not yet received are what all the bytes in flight encode. */
  ghost predicate InStep(k: Link) {
    && |k.received| <= |k.sent|
    && k.received == k.sent[..|k.received|]
    && (!k.refused ==> Aligned(k.parser, k.inbox, k.wire + k.out, k.sent[|k.received|..]))
    && (k.refused ==> exists i :: 0 <= i < |k.sent| && |k.sent[i]| > MAX_MESSAGE)
  }

  lemma SendInStep(k: Link, body: Body)
    requires InStep(k)
    ensures InStep(Act(k, Send(body)))
  {
    var pending := k.sent[|k.received|..];
    var k' := Act(k, Send(body));
    assert k'.sent[|k.received|..] == pending + [body];
    if k.refused {
      var i :| 0 <= i < |k.sent| && |k.sent[i]| > MAX_MESSAGE;
      assert k'.sent[i] == k.sent[i];
    } else {
      EncodeAppend(pending, [body]);
      assert Encode([body]) == Frame(body) + [];
      assert Taken(k.parser) + k.inbox + (k.wire + k'.out) == Taken(k.parser) + k.inbox + (k.wire + k.out) + Frame(body);
    }
  }

  lemma MoveInStep(k: Link, a: Action)
    requires InStep(k) && (a.Write? || a.Deliver?)
    ensures InStep(Act(k, a))
  {
    if a.Write? {
      var m := Min(a.n, |k.out|);
      Regroup(k.wire, k.out[..m], k.out[m..]);
      assert k.out == k.out[..m] + k.out[m..];
    } else if k.refused {
    } else {
      var m := Min(a.n, |k.wire|);
      var taken := Taken(k.parser);
      assert k.wire == k.wire[..m] + k.wire[m..];
      Regroup(k.wire[..m], k.wire[m..], k.out);
      Regroup(taken, k.inbox, k.wire[..m]);
      Regroup(taken + k.inbox, k.wire[..m], k.wire[m..] + k.out);
    }
  }

  lemma Regroup(a: ByteString, b: ByteString, c: ByteString)
    ensures (a + b) + c == a + (b + c)
  {
  }

  lemma ReceiveInStep(k: Link)
    requires InStep(k)
    ensures InStep(Act(k, Receive))
  {
    if !k.refused {
      var pending := k.sent[|k.received|..];
      ReadPending(k.parser, k.inbox, k.wire + k.out, pending);
      var k' := Act(k, Receive);
      if k'.refused {
        assert |k.sent[|k.received|]| > MAX_MESSAGE;
      } else if |k'.received| > |k.received| {
        assert pending[1..] == k.sent[|k'.received|..];
      }
    }
  }

  lemma {:induction false} RunInStep(k: Link, actions: seq<Action>)
    requires InStep(k)
    ensures InStep(ActAll(k, actions))
    decreases |actions|
  {
    if actions != [] {
      match actions[0] {
        case Send(body) => SendInStep(k, body);
        case Receive => ReceiveInStep(k);
        case _ => MoveInStep(k, actions[0]);
      }
      RunInStep(Act(k, actions[0]), actions[1..]);
    }
  }

  /**
   * Under every interleaving of sends, partial writes, deliveries and reads the
   * receiver has an initial part of what was sent. Once all bytes are delivered and
   * a read finds nothing, it has everything, provided no body was over the limit.
   */
  lemma ReceivedIsPrefix(actions: seq<Action>)
    ensures var k := ActAll(FreshLink, actions);
            && k.received <= k.sent
            && (k.out == k.wire == [] && Read(k.parser, k.inbox).outcome == NoMessage && !k.refused
                ==> k.received == k.sent)
            && (k.refused ==> exists i :: 0 <= i < |k.sent| && |k.sent[i]| > MAX_MESSAGE)
  {
    RunInStep(FreshLink, actions);
    var k := ActAll(FreshLink, actions);
    if k.out == k.wire == [] && !k.refused {
      var pending := k.sent[|k.received|..];
      ReadPending(k.parser, k.inbox, k.wire + k.out, pending);
      assert pending != [] ==> |Encode(pending)| >= |Frame(pending[0])|;
    }
  }
}
