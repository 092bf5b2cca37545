/** The two-cursor buffers of a connection, its write and read loops, and the receive capacity. */
module Transport {
  import opened Options
  import opened Bytes
  import opened Framing

  const READ_CAP: nat := 4096
  const MAX_CAPACITY: nat := 10 * 1024 * 1024

  /** A buffer from outside: where its unread bytes start, and what they are. */
  datatype Window = Window(base: nat, bytes: ByteString) {
    /** Taking the last unread byte moves the window back to the start. */
    function Consume(n: nat): Window
      requires n <= |bytes|
    {
      if n == |bytes| then Window(0, []) else Window(base + n, bytes[n..])
    }

    /** A socket read is refused when a whole read might not fit. */
    function Fill(chunk: ByteString): Option<Window> {
      if base + |bytes| + READ_CAP > MAX_CAPACITY then None else Some(Window(base, bytes + chunk))
    }
  }

  datatype WindowReading = WindowReading(outcome: Outcome, parser: Parser, window: Window)

  /** The reader on a window. */
  function ReadWindow(parser: Parser, w: Window): WindowReading {
    match parser
    case Idle =>
      if |w.bytes| < 4 then WindowReading(NoMessage, Idle, w)
      else
        var len := FromBigEndian(w.bytes[..4]);
        if len > MAX_MESSAGE then WindowReading(TooLarge(len), Idle, w.Consume(4))
        else ReadBodyWindow(len, w.Consume(4))
    case Recv(len) => ReadBodyWindow(len, w)
  }

  function ReadBodyWindow(len: nat, w: Window): WindowReading {
    if |w.bytes| < len then WindowReading(NoMessage, Recv(len), w)
    else WindowReading(Message(w.bytes[..len]), Idle, w.Consume(len))
  }

  /** Positions aside, the reader on a window is the reader on its bytes. */
  lemma ReadWindowBytes(parser: Parser, w: Window)
    ensures var a, b := ReadWindow(parser, w), Read(parser, w.bytes);
            a.outcome == b.outcome && a.parser == b.parser && a.window.bytes == b.rest
  {
    hide FromBigEndian, Window.Consume;
    if parser.Idle? && |w.bytes| >= 4 {
      ConsumeBytes(w, 4);
      ReadBodyWindowBytes(FromBigEndian(w.bytes[..4]), w.Consume(4));
    } else if parser.Recv? {
      ReadBodyWindowBytes(parser.len, w);
    }
  }

  lemma ConsumeBytes(w: Window, n: nat)
    requires n <= |w.bytes|
    ensures w.Consume(n).bytes == w.bytes[n..]
  {
  }

  lemma ReadBodyWindowBytes(len: nat, w: Window)
    ensures var a, b := ReadBodyWindow(len, w), ReadBody(len, w.bytes);
            a.outcome == b.outcome && a.parser == b.parser && a.window.bytes == b.rest
  {
    if len <= |w.bytes| { ConsumeBytes(w, len); }
  }

  function Concat(chunks: seq<ByteString>): ByteString {
    if chunks == [] then [] else chunks[0] + Concat(chunks[1..])
  }

  /** Socket reads, each followed by a read of the parser, until a body or a refusal. */
  function Feed(parser: Parser, w: Window, chunks: seq<ByteString>): Option<Outcome>
    decreases |chunks|
  {
    if chunks == [] then Some(NoMessage)
    else
      var filled := w.Fill(chunks[0]);
      if filled.None? then None
      else
        var r := ReadWindow(parser, filled.value);
        if r.outcome == NoMessage then Feed(r.parser, r.window, chunks[1..]) else Some(r.outcome)
  }

  /** The buffer position at which the frame the parser is on will end. */
  function FrameEnd(parser: Parser, w: Window, body: Body): int {
    w.base - (if parser.Recv? then 4 else 0) + |Frame(body)|
  }

  /** An unfinished frame of `body` lies at the start of the window. */
  ghost predicate Unfinished(parser: Parser, w: Window, body: Body) {
    && |body| <= MAX_MESSAGE
    && (parser.Recv? ==> parser.len == |body|)
    && Taken(parser) + w.bytes < Frame(body)
  }

  /** One more chunk either finishes the frame or leaves it unfinished, ending no later than before. */
  lemma FeedOnce(parser: Parser, w: Window, body: Body, chunk: ByteString, tail: ByteString)
    requires Unfinished(parser, w, body)
    requires Frame(body) <= Taken(parser) + w.bytes + chunk + tail
    ensures var w' := Window(w.base, w.bytes + chunk);
            var r := ReadWindow(parser, w');
            if |Taken(parser) + w'.bytes| >= |Frame(body)| then r.outcome == Message(body)
            else
              && r.outcome == NoMessage
              && Unfinished(r.parser, r.window, body)
              && Frame(body) <= Taken(r.parser) + r.window.bytes + tail
              && FrameEnd(r.parser, r.window, body) <= FrameEnd(parser, w, body)
  {
    var w' := Window(w.base, w.bytes + chunk);
    var all := Taken(parser) + w'.bytes;
    Regroup(Taken(parser), w.bytes, chunk);
    assert all + tail == Taken(parser) + w.bytes + chunk + tail;
    ReadWindowBytes(parser, w');
    var n := Min(|all|, |Frame(body)|);
    assert all[..n] == (all + tail)[..n] == Frame(body)[..n];
    if |all| >= |Frame(body)| {
      ReadWhole(parser, w'.bytes, body);
    } else {
      ReadPart(parser, w'.bytes, body);
    }
  }

  /** A frame that ends here or earlier is read whatever the socket does. */
  const LAST_SAFE_END: nat := MAX_CAPACITY - READ_CAP + 1

  /** However its bytes are cut into chunks, such a frame is completed. */
  lemma {:induction false} FrameCompletes(parser: Parser, w: Window, body: Body, chunks: seq<ByteString>)
    requires Unfinished(parser, w, body)
    requires FrameEnd(parser, w, body) <= LAST_SAFE_END
    requires Frame(body) <= Taken(parser) + w.bytes + Concat(chunks)
    ensures Feed(parser, w, chunks) == Some(Message(body))
    decreases |chunks|
  {
    if chunks != [] {
      var tail := Concat(chunks[1..]);
      assert Taken(parser) + w.bytes + (chunks[0] + tail) == Taken(parser) + w.bytes + chunks[0] + tail;
      FeedOnce(parser, w, body, chunks[0], tail);
      var r := ReadWindow(parser, Window(w.base, w.bytes + chunks[0]));
      if r.outcome == NoMessage {
        FrameCompletes(r.parser, r.window, body, chunks[1..]);
      }
    }
  }

  /** A body of one byte has one more place to end: its length always arrives alone or with the body. */
  predicate Lucky(parser: Parser, w: Window, body: Body) {
    parser.Idle? && |body| == 1 && |w.bytes| < 4 && FrameEnd(parser, w, body) == LAST_SAFE_END + 1
  }

  lemma {:induction false} LuckyCompletes(parser: Parser, w: Window, body: Body, chunks: seq<ByteString>)
    requires Unfinished(parser, w, body) && Lucky(parser, w, body)
    requires Frame(body) <= Taken(parser) + w.bytes + Concat(chunks)
    ensures Feed(parser, w, chunks) == Some(Message(body))
    decreases |chunks|
  {
    if chunks != [] {
      var tail := Concat(chunks[1..]);
      assert Taken(parser) + w.bytes + (chunks[0] + tail) == Taken(parser) + w.bytes + chunks[0] + tail;
      FeedOnce(parser, w, body, chunks[0], tail);
      var w' := Window(w.base, w.bytes + chunks[0]);
      var r := ReadWindow(parser, w');
      if r.outcome == NoMessage {
        if |w'.bytes| < 4 {
          LuckyCompletes(r.parser, r.window, body, chunks[1..]);
        } else {
          ReadPart(parser, w'.bytes, body);
          ReadWindowBytes(parser, w');
          FrameCompletes(r.parser, r.window, body, chunks[1..]);
        }
      }
    }
  }

  /** The socket reads that bring the rest of the frame, and perhaps more. */
  ghost predicate Brings(parser: Parser, w: Window, body: Body, chunks: seq<ByteString>)
    requires parser.Recv? ==> parser.len < WORD
  {
    && (forall i :: 0 <= i < |chunks| ==> 0 < |chunks[i]| <= READ_CAP)
    && Frame(body) <= Taken(parser) + w.bytes + Concat(chunks)
  }

  /** The bytes one at a time. */
  function Singles(s: ByteString): (c: seq<ByteString>)
    ensures Concat(c) == s && forall i :: 0 <= i < |c| ==> |c[i]| == 1
  {
    if s == [] then [] else [[s[0]]] + Singles(s[1..])
  }

  /** What is still to come of the frame. */
  function Rest(parser: Parser, w: Window, body: Body): (rest: ByteString)
    requires Unfinished(parser, w, body)
    ensures rest != [] && Taken(parser) + w.bytes + rest == Frame(body)
  {
    Frame(body)[|Taken(parser) + w.bytes|..]
  }

  /** Byte by byte, a body that would end too late meets a refused read. */
  lemma {:induction false} SinglesFail(parser: Parser, w: Window, body: Body)
    requires Unfinished(parser, w, body) && parser.Recv? && FrameEnd(parser, w, body) > LAST_SAFE_END
    ensures Feed(parser, w, Singles(Rest(parser, w, body))) == None
    decreases |Rest(parser, w, body)|
  {
    var rest := Rest(parser, w, body);
    if w.Fill([rest[0]]).Some? {
      var w' := w.Fill([rest[0]]).value;
      assert Taken(parser) + w'.bytes == Frame(body)[..|Taken(parser) + w'.bytes|];
      SinglesFail(parser, w', body);
      assert Rest(parser, w', body) == rest[1..];
    }
  }

  /** So does a length that does not fit itself. */
  lemma {:induction false} SinglesFailEarly(parser: Parser, w: Window, body: Body)
    requires Unfinished(parser, w, body) && parser.Idle? && |w.bytes| < 4 && w.base + 3 > MAX_CAPACITY - READ_CAP
    ensures Feed(parser, w, Singles(Rest(parser, w, body))) == None
    decreases 4 - |w.bytes|
  {
    var rest := Rest(parser, w, body);
    if w.Fill([rest[0]]).Some? {
      var w' := w.Fill([rest[0]]).value;
      assert Taken(parser) + w'.bytes == Frame(body)[..|Taken(parser) + w'.bytes|];
      SinglesFailEarly(parser, w', body);
      assert Rest(parser, w', body) == rest[1..];
    }
  }

  /** Once the length is taken the rest is too long. */
  lemma CrossingStep(parser: Parser, w: Window, body: Body, n: nat, w': Window)
    requires Unfinished(parser, w, body) && parser.Idle? && FrameEnd(parser, w, body) > LAST_SAFE_END
    requires 0 < n <= 5 && 5 <= |w.bytes| + n < |Frame(body)|
    requires w.Fill(Rest(parser, w, body)[..n]) == Some(w')
    ensures var r := ReadWindow(parser, w');
            r.outcome == NoMessage && Feed(r.parser, r.window, Singles(Rest(parser, w, body)[n..])) == None
  {
    hide Feed, Singles;
    var rest := Rest(parser, w, body);
    assert w'.bytes == Frame(body)[..|w'.bytes|];
    ReadPart(parser, w'.bytes, body);
    ReadWindowBytes(parser, w');
    var r := ReadWindow(parser, w');
    assert r.window == Window(w.base + 4, w'.bytes[4..]);
    SinglesFail(r.parser, r.window, body);
    assert Rest(r.parser, r.window, body) == rest[n..];
  }

  /** A first read past the length, and then byte by byte. */
  lemma CrossingFails(parser: Parser, w: Window, body: Body, n: nat)
    requires Unfinished(parser, w, body) && parser.Idle? && FrameEnd(parser, w, body) > LAST_SAFE_END
    requires 0 < n <= 5 && 5 <= |w.bytes| + n < |Frame(body)|
    ensures var rest := Rest(parser, w, body);
            Feed(parser, w, [rest[..n]] + Singles(rest[n..])) == None
  {
    hide ReadWindow, Singles, Unfinished;
    var rest := Rest(parser, w, body);
    if w.Fill(rest[..n]).Some? { CrossingStep(parser, w, body, n, w.Fill(rest[..n]).value); }
  }

  lemma BringsAll(parser: Parser, w: Window, body: Body, n: nat)
    requires Unfinished(parser, w, body) && n <= 5 && n <= |Rest(parser, w, body)|
    ensures var rest := Rest(parser, w, body);
            Brings(parser, w, body, if n == 0 then Singles(rest) else [rest[..n]] + Singles(rest[n..]))
  {
    var rest := Rest(parser, w, body);
    assert rest == rest[..n] + rest[n..];
  }

  /** Otherwise some way of cutting it up makes the connection fail. */
  lemma FrameFails(parser: Parser, w: Window, body: Body) returns (chunks: seq<ByteString>)
    requires Unfinished(parser, w, body)
    requires FrameEnd(parser, w, body) > LAST_SAFE_END && !Lucky(parser, w, body)
    ensures Brings(parser, w, body, chunks) && Feed(parser, w, chunks) == None
  {
    var rest := Rest(parser, w, body);
    BringsAll(parser, w, body, 0);
    chunks := Singles(rest);
    if parser.Recv? {
      SinglesFail(parser, w, body);
    } else if w.base + |w.bytes| > MAX_CAPACITY - READ_CAP {
    } else if |w.bytes| < 4 && |body| < 2 {
      SinglesFailEarly(parser, w, body);
    } else {
      var n := if |w.bytes| < 4 then 5 - |w.bytes| else 1;
      BringsAll(parser, w, body, n);
      CrossingFails(parser, w, body, n);
      chunks := [rest[..n]] + Singles(rest[n..]);
    }
  }

  /** A frame whose length is accepted is delivered, however the socket cuts it up, exactly when it ends early enough. */
  lemma DeliveredExactly(parser: Parser, w: Window, body: Body)
    requires Unfinished(parser, w, body)
    ensures (forall chunks :: Brings(parser, w, body, chunks) ==> Feed(parser, w, chunks) == Some(Message(body)))
            <==> FrameEnd(parser, w, body) <= LAST_SAFE_END || Lucky(parser, w, body)
  {
    if FrameEnd(parser, w, body) <= LAST_SAFE_END || Lucky(parser, w, body) {
      forall chunks | Brings(parser, w, body, chunks)
        ensures Feed(parser, w, chunks) == Some(Message(body))
      {
        if Lucky(parser, w, body) {
          LuckyCompletes(parser, w, body, chunks);
        } else {
          FrameCompletes(parser, w, body, chunks);
        }
      }
    } else {
      var chunks := FrameFails(parser, w, body);
    }
  }

  /**
   * A body that would end past the capacity is never delivered: the connection
   * waits or fails, whatever the socket reads and however the stream goes on.
   */
  lemma {:induction false} FrameNeverCompletes(len: nat, w: Window, chunks: seq<ByteString>)
    requires |w.bytes| < len && w.base + len > MAX_CAPACITY
    requires forall i :: 0 <= i < |chunks| ==> |chunks[i]| <= READ_CAP
    ensures Feed(Recv(len), w, chunks) in {None, Some(NoMessage)}
    decreases |chunks|
  {
    if chunks != [] && w.Fill(chunks[0]).Some? {
      FrameNeverCompletes(len, w.Fill(chunks[0]).value, chunks[1..]);
    }
  }

  lemma {:induction false} BodyMayComplete(len: nat, w: Window, rest: ByteString) returns (chunks: seq<ByteString>)
    requires rest != [] && |w.bytes| + |rest| == len
    requires w.base + len <= MAX_CAPACITY && w.base + |w.bytes| <= MAX_CAPACITY - READ_CAP
    ensures Concat(chunks) == rest && forall i :: 0 <= i < |chunks| ==> 0 < |chunks[i]| <= READ_CAP
    ensures Feed(Recv(len), w, chunks) == Some(Message(w.bytes + rest))
    decreases |rest|
  {
    if |rest| <= READ_CAP {
      chunks := [rest];
      assert Concat(chunks) == rest + Concat([]);
      assert (w.bytes + rest)[..len] == w.bytes + rest;
    } else {
      var n := Min(READ_CAP, |rest| - READ_CAP);
      var w' := Window(w.base, w.bytes + rest[..n]);
      var more := BodyMayComplete(len, w', rest[n..]);
      chunks := [rest[..n]] + more;
      assert chunks[1..] == more;
      assert rest == rest[..n] + rest[n..];
      Regroup(w.bytes, rest[..n], rest[n..]);
    }
  }

  /** In between it depends on the socket. */
  lemma FrameMayComplete(parser: Parser, w: Window, body: Body) returns (chunks: seq<ByteString>)
    requires Unfinished(parser, w, body) && parser.Recv?
    requires FrameEnd(parser, w, body) <= MAX_CAPACITY && w.base + |w.bytes| <= MAX_CAPACITY - READ_CAP
    ensures Brings(parser, w, body, chunks) && Feed(parser, w, chunks) == Some(Message(body))
  {
    hide Feed, Concat, BigEndian;
    var rest := Rest(parser, w, body);
    chunks := BodyMayComplete(|body|, w, rest);
    Regroup(Taken(parser), w.bytes, rest);
    assert (Taken(parser) + (w.bytes + rest))[4..] == w.bytes + rest;
    assert Frame(body)[4..] == body;
  }

  /** A buffer for serialised messages. */
  class Scratch {
    var data: ByteString

    constructor ()
      ensures data == []
    {
      data := [];
    }

    method Send(event: ByteString)
      modifies this
      ensures data == old(data) + event
    {
      data := data + event;
    }
  }

  /** How the socket answers one attempt to write or to flush. */
  datatype Reply = Ready(n: nat) | Pending | Failed

  datatype StreamState = Idling | Flushing

  datatype Poll = PollReady | PollPending | PollFailed

  class Buf {
    var data: ByteString
    var read: nat
    var write: nat

    ghost predicate Valid() reads this { read <= write <= |data| }

    ghost function Value(): Window
      reads this
      requires Valid()
    {
      Window(read, data[read..write])
    }

    constructor ()
      ensures Valid() && Value() == Window(0, [])
    {
      data, read, write := [], 0, 0;
    }

    method AdvanceRead(n: nat)
      requires Valid() && n <= write - read
      modifies this
      ensures Valid() && data == old(data) && Value() == old(Value()).Consume(n)
    {
      read := read + n;
      if read >= write {
        read, write := 0, 0;
      }
    }

    method ReadArray(n: nat) returns (r: Option<ByteString>)
      requires Valid()
      modifies this
      ensures Valid()
      ensures if n <= |old(Value()).bytes|
              then r == Some(old(Value()).bytes[..n]) && Value() == old(Value()).Consume(n)
              else r == None && Value() == old(Value())
    {
      if read + n > write {
        return None;
      }
      var buf := data[read..read + n];
      assert buf == Value().bytes[..n];
      AdvanceRead(n);
      r := Some(buf);
    }

    /** The cursors move before the bytes are taken, which stay in place. */
    method ReadSlice(len: nat) returns (r: Option<ByteString>)
      requires Valid()
      modifies this
      ensures Valid()
      ensures if len <= |old(Value()).bytes|
              then r == Some(old(Value()).bytes[..len]) && Value() == old(Value()).Consume(len)
              else r == None && Value() == old(Value())
    {
      if read + len > write {
        return None;
      }
      var from, to := read, read + len;
      assert data[from..to] == Value().bytes[..len];
      AdvanceRead(len);
      r := Some(data[from..to]);
    }

    /** Grows the buffer with zeros up to a length. */
    method Resize(n: nat)
      requires Valid()
      modifies this`data
      ensures Valid() && Value() == old(Value()) && |data| == Max(n, |old(data)|)
    {
      if n > |data| {
        data := data + seq(n - |data|, _ => 0);
      }
    }

    method WriteBytes(bytes: ByteString)
      requires Valid()
      modifies this
      ensures Valid() && Value() == Window(old(read), old(Value()).bytes + bytes)
    {
      var next := write + |bytes|;
      Resize(next);
      data := data[..write] + bytes + data[next..];
      write := next;
    }

    /** Appends one frame, unless the message does not fit the length field; then it stays where it is. */
    method WriteMessage(body: Scratch)
      requires Valid()
      modifies this, body
      ensures Valid()
      ensures if |old(body.data)| < WORD
              then Value() == Window(old(read), old(Value()).bytes + Frame(old(body.data))) && body.data == []
              else Value() == old(Value()) && body.data == old(body.data)
    {
      if |body.data| >= WORD {
        return;
      }
      WriteBytes(BigEndian(|body.data|));
      WriteBytes(body.data);
      body.data := [];
    }

    /** One socket read, given what the socket has: some bytes, or none when the peer has closed. */
    method PollRead(chunk: ByteString) returns (r: Poll)
      requires Valid() && |chunk| <= READ_CAP
      modifies this
      ensures Valid()
      ensures r == PollReady <==> old(Value()).Fill(chunk).Some? && chunk != []
      ensures if r == PollReady then Some(Value()) == old(Value()).Fill(chunk) else r == PollFailed && Value() == old(Value())
    {
      var needed := write + READ_CAP;
      if needed > MAX_CAPACITY {
        return PollFailed;
      }
      Resize(needed);
      if chunk == [] {
        return PollFailed;
      }
      data := data[..write] + chunk + data[write + |chunk|..];
      write := write + |chunk|;
      assert Value().bytes == old(Value()).bytes + chunk;
      r := PollReady;
    }

    /** Hands some unread bytes out, in order. */
    method Take(n: nat) returns (bytes: ByteString)
      requires Valid() && n <= write - read
      modifies this
      ensures Valid() && bytes + Value().bytes == old(Value()).bytes
    {
      bytes := data[read..read + n];
      assert bytes == Value().bytes[..n];
      AdvanceRead(n);
    }

    /**
     * The write loop, for any sequence of socket replies. What it hands to the
     * socket is what leaves the buffer, in order, and it is done only when all is
     * written and flushed.
     */
    method PollWrite(state: StreamState, replies: seq<Reply>) returns (r: Poll, state': StreamState, written: ByteString)
      requires Valid()
      modifies this
      ensures Valid() && written + Value().bytes == old(Value()).bytes
      ensures r == PollReady ==> Value().bytes == [] && state' == Idling
    {
      state', written := state, [];
      var i := 0;
      while write > read || state' == Flushing
        invariant Valid() && i <= |replies|
        invariant written + Value().bytes == old(Value()).bytes
        decreases |replies| - i
      {
        if i == |replies| {
          return PollPending, state', written;
        }
        var reply := replies[i];
        i := i + 1;
        match reply {
          case Pending => return PollPending, state', written;
          case Failed => return PollFailed, state', written;
          case Ready(k) =>
            if state' == Idling {
              var bytes := Take(Min(k, write - read));
              Regroup(written, bytes, Value().bytes);
              written := written + bytes;
              state' := Flushing;
            } else {
              state' := Idling;
            }
        }
      }
      r := PollReady;
    }
  }

  function Max(a: nat, b: nat): nat { if a < b then b else a }

  /** A connected peer. */
  class Peer {
    const read: Buf
    const write: Buf
    const scratch: Scratch
    var state: Parser

    ghost predicate Valid()
      reads this, read, write
    {
      read != write && read.Valid() && write.Valid()
    }

    constructor ()
      ensures Valid() && fresh(read) && fresh(write) && fresh(scratch)
      ensures state == Idle && scratch.data == []
      ensures read.Value() == write.Value() == Window(0, [])
    {
      read := new Buf();
      write := new Buf();
      scratch := new Scratch();
      state := Idle;
    }

    /** Appends one frame to the output. */
    method Send(event: ByteString)
      requires Valid()
      modifies write, scratch
      ensures Valid() && read.Value() == old(read.Value())
      ensures |old(scratch.data) + event| < WORD ==>
                && write.Value().bytes == old(write.Value()).bytes + Frame(old(scratch.data) + event)
                && scratch.data == []
      ensures |old(scratch.data) + event| >= WORD ==>
                && write.Value() == old(write.Value())
                && scratch.data == old(scratch.data) + event
    {
      scratch.Send(event);
      write.WriteMessage(scratch);
    }

    /** The next body, once all of its bytes are there. */
    method Read() returns (outcome: Outcome)
      requires Valid()
      modifies this, read
      ensures Valid() && write.Value() == old(write.Value())
      ensures WindowReading(outcome, state, read.Value()) == old(ReadWindow(state, read.Value()))
    {
      while true
        invariant Valid() && write.Value() == old(write.Value())
        invariant ReadWindow(state, read.Value()) == old(ReadWindow(state, read.Value()))
        decreases if state.Idle? then 1 else 0
      {
        match state {
          case Idle =>
            var buf := read.ReadArray(4);
            if buf.None? {
              return NoMessage;
            }
            var len := FromBigEndian(buf.value);
            if len > MAX_MESSAGE {
              return TooLarge(len);
            }
            state := Recv(len);
          case Recv(len) =>
            var body := read.ReadSlice(len);
            if body.None? {
              return NoMessage;
            }
            state := Idle;
            return Message(body.value);
        }
      }
    }
  }
}
