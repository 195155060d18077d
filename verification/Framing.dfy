/**
 * inet-private.c: messages over a byte stream, each with its length in network byte order in front. read and write may
 * take any chunk, and may be interrupted any finite number of times.
 */
module Framing {
  import opened Wrappers
  import opened CStrings
  import opened Messages
  import opened Wire
  import opened HostInts
  import opened Codec
  import opened Buffers

  // ---------- Frames ----------

  predicate Sendable(m: Message) {
    IntsInRange(m) && PackedSize(m) < TWO_31
  }

  /** The bytes of a message on the wire. */
  function Frame(m: Message): seq<byte>
    requires Sendable(m)
  {
    ToMemory(SwapBytes(PackedSize(m))) + Pack(m)
  }

  function Stream(ms: seq<Message>): seq<byte>
    requires forall m :: m in ms ==> Sendable(m)
  {
    if ms == [] then [] else Frame(ms[0]) + Stream(ms[1..])
  }

  /** The message at the front of the bytes that a peer sends before it closes; None if it is incomplete. */
  function NextMessage(stream: seq<byte>): (p: Option<Parsed<MessageHandle>>)
    ensures p.Some? ==> |p.value.rest| < |stream|
  {
    if |stream| < SIZE_OF_INT then None
    else
      var size := SwapBytes(FromMemory(stream[..SIZE_OF_INT]));
      if size < 0 || SIZE_OF_INT + size > |stream| then None
      else Some(Parsed(MessageHandle(Unpack(stream[SIZE_OF_INT..SIZE_OF_INT + size])), stream[SIZE_OF_INT + size..]))
  }

  /** All messages that can be received, one after the other, before the first failure. */
  function Received(stream: seq<byte>): seq<MessageHandle>
    decreases |stream|
  {
    match NextMessage(stream)
    case None => []
    case Some(p) => [p.value] + Received(p.rest)
  }

  function Handles(ms: seq<Message>): (hs: seq<MessageHandle>)
    ensures |hs| == |ms|
  {
    if ms == [] then [] else [MessageHandle(Some(Arriving(ms[0])))] + Handles(ms[1..])
  }

  /** How many frames lie completely within the first k bytes of the stream. */
  function Complete(ms: seq<Message>, k: nat): (n: nat)
    requires forall m :: m in ms ==> Sendable(m)
    ensures n <= |ms|
  {
    if ms == [] || k < |Frame(ms[0])| then 0 else 1 + Complete(ms[1..], k - |Frame(ms[0])|)
  }

  lemma FrameSize(m: Message)
    requires Sendable(m)
    ensures |Frame(m)| == SIZE_OF_INT + PackedSize(m)
    ensures SwapBytes(FromMemory(Frame(m)[..SIZE_OF_INT])) == PackedSize(m)
  {
    MessageFits(m);
    NetworkOrder(PackedSize(m));
    FromToMemory(SwapBytes(PackedSize(m)));
    assert Frame(m)[..SIZE_OF_INT] == ToMemory(SwapBytes(PackedSize(m)));
  }

  lemma FrameReceived(m: Message, rest: seq<byte>)
    requires Sendable(m)
    ensures NextMessage(Frame(m) + rest) == Some(Parsed(MessageHandle(Some(Arriving(m))), rest))
  {
    hide Pack, Unpack, PackedSize, Arriving;
    FrameSize(m);
    var s := Frame(m) + rest;
    var end := SIZE_OF_INT + PackedSize(m);
    assert s[..SIZE_OF_INT] == Frame(m)[..SIZE_OF_INT];
    assert s[SIZE_OF_INT..end] == Pack(m);
    assert s[end..] == rest;
    MessageUnpacked(m);
  }

  /** The bytes on the wire: the length with its highest byte first, and then the packed message. */
  lemma FrameBytes(m: Message)
    requires Sendable(m)
    ensures var n := |Pack(m)|;
            && n == PackedSize(m)
            && Frame(m) == [n / 0x100_0000, n / 0x1_0000 % 0x100, n / 0x100 % 0x100, n % 0x100] + Pack(m)
  {
    hide Pack, PackedSize, SwapBytes;
    MessageFits(m);
    NetworkOrder(PackedSize(m));
    MemoryBytes(PackedSize(m));
  }

  /** What the receiver reads from any bytes: a length with its highest byte first, not negative, and as many bytes. */
  lemma NextMessageReads(stream: seq<byte>)
    requires |stream| >= 4
    ensures var a: int, b: int, c: int, d: int := stream[0], stream[1], stream[2], stream[3];
            var n := 0x100_0000 * a + 0x1_0000 * b + 0x100 * c + d;
            NextMessage(stream) ==
            if a < 0x80 && 4 + n <= |stream| then Some(Parsed(MessageHandle(Unpack(stream[4..4 + n])), stream[4 + n..]))
            else None
  {
    hide SwapBytes, Unpack;
    NetworkValue(stream[..4]);
  }

  /** A part of a frame is no message. */
  lemma PartOfFrame(m: Message, k: nat)
    requires Sendable(m) && k < |Frame(m)|
    ensures NextMessage(Frame(m)[..k]) == None
  {
    hide Pack, Unpack, PackedSize;
    FrameSize(m);
    if k >= SIZE_OF_INT {
      assert Frame(m)[..k][..SIZE_OF_INT] == Frame(m)[..SIZE_OF_INT];
    }
  }

  /**
   * Wherever the stream of any sequence of messages is cut off, exactly the messages whose frames are complete arrive,
   * in order: none is skipped, repeated or made up.
   */
  lemma {:induction false} CutStream(ms: seq<Message>, k: nat)
    requires forall m :: m in ms ==> Sendable(m)
    requires k <= |Stream(ms)|
    ensures Received(Stream(ms)[..k]) == Handles(ms)[..Complete(ms, k)]
  {
    hide Frame, NextMessage, Arriving;
    if ms == [] {
      NoMessage();
    } else {
      var f, rest := Frame(ms[0]), Stream(ms[1..]);
      if k < |f| {
        assert (f + rest)[..k] == f[..k];
        PartOfFrame(ms[0], k);
      } else {
        assert (f + rest)[..k] == f + rest[..k - |f|];
        FrameReceived(ms[0], rest[..k - |f|]);
        CutStream(ms[1..], k - |f|);
      }
    }
  }

  lemma NoMessage()
    ensures NextMessage([]) == None
  {
  }

  lemma {:induction false} AllComplete(ms: seq<Message>)
    requires forall m :: m in ms ==> Sendable(m)
    ensures Complete(ms, |Stream(ms)|) == |ms|
  {
    if ms != [] {
      AllComplete(ms[1..]);
    }
  }

  /** Any sequence of messages is received as the same sequence. */
  lemma StreamReceived(ms: seq<Message>)
    requires forall m :: m in ms ==> Sendable(m)
    ensures Received(Stream(ms)) == Handles(ms)
  {
    CutStream(ms, |Stream(ms)|);
    AllComplete(ms);
    assert Stream(ms)[..|Stream(ms)|] == Stream(ms);
  }

  // ---------- Sockets ----------

  /** What one call of read or write comes to: EINTR, another error, or a chunk of at most so many bytes. */
  datatype Outcome = Interrupted | Failed | Chunk(most: nat)

  /**
   * One end of a connection. incoming: all bytes that the peer has sent, or will still send before it closes. outcomes:
   * how the next calls turn out; after those, every call transfers all it can.
   */
  class Socket {
    var incoming: seq<byte>
    var outgoing: seq<byte>
    var outcomes: seq<Outcome>

    constructor (incoming: seq<byte>, outcomes: seq<Outcome>)
      ensures this.incoming == incoming && outgoing == [] && this.outcomes == outcomes
    {
      this.incoming, outgoing, this.outcomes := incoming, [], outcomes;
    }

    /** No call will fail other than by an interrupt. */
    predicate Reliable()
      reads this
    {
      Failed !in outcomes
    }

    method NextOutcome(limit: nat) returns (o: Outcome)
      modifies this`outcomes
      ensures if old(outcomes) == [] then o == Chunk(limit) && outcomes == []
              else [o] + outcomes == old(outcomes)
    {
      if outcomes == [] {
        o := Chunk(limit);
      } else {
        o, outcomes := outcomes[0], outcomes[1..];
      }
    }

    /** read: -1 for errors, 0 when the peer has closed and all is read, else the size of a non-empty chunk. */
    method Read(limit: nat) returns (r: int, chunk: seq<byte>, interrupted: bool)
      requires limit > 0
      modifies this`incoming, this`outcomes
      ensures -1 <= r <= limit && |chunk| == if r < 0 then 0 else r
      ensures old(incoming) == chunk + incoming
      ensures r == 0 ==> incoming == []
      ensures interrupted ==> r == -1 && |outcomes| < |old(outcomes)|
      ensures old(Reliable()) ==> Reliable() && (r == -1 ==> interrupted)
    {
      var o := NextOutcome(limit);
      r, chunk, interrupted := -1, [], o.Interrupted?;
      if o.Chunk? {
        r := if o.most == 0 then 1 else if o.most > limit then limit else o.most;
        r := if r > |incoming| then |incoming| else r;
        chunk, incoming := incoming[..r], incoming[r..];
      }
    }

    /** write: -1 for errors, else how many bytes at the front it has taken, possibly none. */
    method Write(bytes: seq<byte>) returns (w: int, interrupted: bool)
      requires bytes != []
      modifies this`outgoing, this`outcomes
      ensures -1 <= w <= |bytes|
      ensures outgoing == old(outgoing) + if w < 0 then [] else bytes[..w]
      ensures interrupted ==> w == -1
      ensures interrupted || w == 0 ==> |outcomes| < |old(outcomes)|
      ensures |outcomes| <= |old(outcomes)|
      ensures old(Reliable()) ==> Reliable() && (w == -1 ==> interrupted)
    {
      var o := NextOutcome(|bytes|);
      w, interrupted := -1, o.Interrupted?;
      if o.Chunk? {
        w := if o.most > |bytes| then |bytes| else o.most;
        outgoing := outgoing + bytes[..w];
      }
    }

    /** _network_read_buffer: exactly the next bufferSize bytes, whatever the chunks are; NULL if they do not arrive. */
    method ReadBuffer(bufferSize: nat) returns (buffer: array?<byte>, ghost taken: nat)
      modifies this`incoming, this`outcomes
      ensures old(Reliable()) ==> Reliable() && (buffer == null <==> bufferSize > |old(incoming)|)
      ensures taken <= |old(incoming)| && incoming == old(incoming)[taken..]
      ensures buffer != null ==>
                && taken == bufferSize && fresh(buffer) && buffer.Length == bufferSize
                && buffer[..] == old(incoming)[..taken]
    {
      ghost var stream := incoming;
      var bytes := new byte[bufferSize];
      var readSize := 0;
      while readSize < bufferSize
        invariant 0 <= readSize <= bufferSize && readSize <= |stream|
        invariant bytes[..readSize] == stream[..readSize] && incoming == stream[readSize..]
        invariant old(Reliable()) ==> Reliable()
        decreases bufferSize - readSize, |outcomes|
      {
        var readChunkSize, chunk, interrupted := Read(bufferSize - readSize);
        if readChunkSize < 0 {
          if interrupted {
            continue;
          }
          return null, readSize;
        } else if readChunkSize == 0 {
          return null, readSize;
        } else {
          Store(bytes, readSize, chunk);
          TakeMore(stream, readSize, chunk, incoming);
          readSize := readSize + readChunkSize;
        }
      }
      return bytes, readSize;
    }

    /** _network_send_buffer: 0 if the whole buffer went out, else -1; what went out is a prefix of it. */
    method SendBuffer(buffer: array<byte>) returns (r: int, ghost sent: nat)
      modifies this`outgoing, this`outcomes
      ensures sent <= buffer.Length && outgoing == old(outgoing) + buffer[..sent]
      ensures r == if sent == buffer.Length then 0 else -1
      ensures old(Reliable()) ==> Reliable() && r == 0
    {
      var writtenSize := 0;
      while writtenSize < buffer.Length
        invariant 0 <= writtenSize <= buffer.Length
        invariant outgoing == old(outgoing) + buffer[..writtenSize]
        invariant old(Reliable()) ==> Reliable()
        decreases buffer.Length - writtenSize, |outcomes|
      {
        var writtenChunkSize, interrupted := Write(buffer[writtenSize..]);
        if writtenChunkSize < 0 {
          if interrupted {
            continue;
          }
          return -1, writtenSize;
        } else {
          writtenSize := writtenSize + writtenChunkSize;
        }
      }
      return 0, writtenSize;
    }

    /** network_send_message: 0 if the whole frame of the message went out, else -1 and a part of it may have. */
    method SendMessage(message: Option<MessageHandle>) returns (r: int, ghost sent: nat)
      requires message.Some? && message.value.msg.Some? ==> Sendable(message.value.msg.value)
      modifies this`outgoing, this`outcomes
      ensures message.None? || message.value.msg.None? ==> r == -1 && outgoing == old(outgoing)
      ensures message.Some? && message.value.msg.Some? ==>
                var frame := Frame(message.value.msg.value);
                && sent <= |frame| && outgoing == old(outgoing) + frame[..sent]
                && r == (if sent == |frame| then 0 else -1)
                && (old(Reliable()) ==> r == 0)
      ensures old(Reliable()) ==> Reliable()
    {
      var bufferSize, buffer := MessageToBuffer(message);
      if bufferSize < 0 {
        return -1, 0;
      }
      hide Pack, PackedSize;
      FrameSize(message.value.msg.value);
      MessageFits(message.value.msg.value);
      var convertedBufferSize := FillExactly(ToMemory(SwapBytes(bufferSize)), SIZE_OF_INT);
      r, sent := SendParts(convertedBufferSize, buffer);
    }

    /** The two sends: the length, and then the message. */
    method SendParts(size: array<byte>, buffer: array<byte>) returns (r: int, ghost sent: nat)
      modifies this`outgoing, this`outcomes
      ensures sent <= size.Length + buffer.Length
      ensures outgoing == old(outgoing) + (size[..] + buffer[..])[..sent]
      ensures r == if sent == size.Length + buffer.Length then 0 else -1
      ensures old(Reliable()) ==> Reliable() && r == 0
    {
      ghost var start := outgoing;
      r, sent := SendBuffer(size);
      FirstPart(size[..], buffer[..], sent);
      if r < 0 {
        return -1, sent;
      }
      r, sent := SendBuffer(buffer);
      BothParts(start, size[..], buffer[..], sent);
      sent := size.Length + sent;
    }

    /** network_receive_message: the message at the front of the stream, which it uses up, or None. */
    method ReceiveMessage() returns (message: Option<MessageHandle>)
      modifies this`incoming, this`outcomes
      ensures message.Some? ==> NextMessage(old(incoming)) == Some(Parsed(message.value, incoming))
      ensures old(Reliable()) ==> Reliable() && (message.None? <==> NextMessage(old(incoming)).None?)
    {
      hide Unpack;
      ghost var stream := incoming;
      var readMessageSize, readMessageBuffer; ghost var taken;
      readMessageSize, taken := ReadBuffer(SIZE_OF_INT);
      if readMessageSize == null {
        return None;
      }
      assert stream[..SIZE_OF_INT] == readMessageSize[..];
      var messageSize := SwapBytes(FromMemory(readMessageSize[..]));
      if messageSize < 0 {
        return None;
      }
      readMessageBuffer, taken := ReadBuffer(messageSize);
      if readMessageBuffer == null {
        return None;
      }
      assert stream[SIZE_OF_INT..SIZE_OF_INT + messageSize] == readMessageBuffer[..messageSize];
      message := BufferToMessage(readMessageBuffer, messageSize);
    }
  }

  lemma FirstPart(a: seq<byte>, b: seq<byte>, n: nat)
    requires n <= |a|
    ensures (a + b)[..n] == a[..n]
  {
  }

  lemma BothParts(start: seq<byte>, a: seq<byte>, b: seq<byte>, n: nat)
    requires n <= |b|
    ensures start + a[..|a|] + b[..n] == start + (a + b)[..|a| + n]
  {
    assert a[..|a|] == a;
    assert (a + b)[..|a| + n] == a + b[..n];
  }

  lemma TakeMore(stream: seq<byte>, taken: nat, chunk: seq<byte>, rest: seq<byte>)
    requires taken <= |stream| && stream[taken..] == chunk + rest
    ensures taken + |chunk| <= |stream|
    ensures stream[..taken] + chunk == stream[..taken + |chunk|]
    ensures stream[taken + |chunk|..] == rest
  {
    assert stream == stream[..taken] + (chunk + rest);
  }

  /** Copies a chunk to its place in the buffer. */
  method Store(buffer: array<byte>, offset: nat, chunk: seq<byte>)
    requires offset + |chunk| <= buffer.Length
    modifies buffer
    ensures buffer[..offset + |chunk|] == old(buffer[..offset]) + chunk
  {
    for i := 0 to |chunk|
      invariant buffer[..offset + i] == old(buffer[..offset]) + chunk[..i]
    {
      buffer[offset + i] := chunk[i];
    }
    assert chunk[..|chunk|] == chunk;
  }

  // ---------- Conversations ----------

  /** A peer that sends one message after the other until a send fails. */
  method SendAll(socket: Socket, ms: seq<Message>) returns (ok: bool, ghost sent: nat)
    requires forall m :: m in ms ==> Sendable(m)
    requires socket.outgoing == []
    modifies socket
    ensures sent <= |Stream(ms)| && socket.outgoing == Stream(ms)[..sent]
    ensures ok ==> sent == |Stream(ms)|
    ensures old(socket.Reliable()) ==> ok
  {
    hide Frame, Sendable;
    var i := 0;
    ok := true;
    sent := 0;
    while i < |ms|
      invariant i <= |ms|
      invariant socket.outgoing + Stream(ms[i..]) == Stream(ms)
      invariant old(socket.Reliable()) ==> socket.Reliable()
    {
      ghost var before := socket.outgoing;
      assert ms[i..][0] == ms[i] && ms[i..][1..] == ms[i + 1..];
      var r; ghost var part;
      r, part := socket.SendMessage(Some(MessageHandle(Some(ms[i]))));
      if r < 0 {
        sent := |socket.outgoing|;
        assert socket.outgoing == (before + Stream(ms[i..]))[..sent];
        return false, sent;
      }
      assert before + (Frame(ms[i]) + Stream(ms[i + 1..])) == before + Frame(ms[i]) + Stream(ms[i + 1..]);
      i := i + 1;
    }
    sent := |socket.outgoing|;
  }

  /** A peer that receives one message after the other until a receive fails. */
  method ReceiveAll(socket: Socket) returns (messages: seq<MessageHandle>)
    modifies socket
    ensures messages <= Received(old(socket.incoming))
    ensures old(socket.Reliable()) ==> messages == Received(old(socket.incoming))
  {
    hide NextMessage;
    messages := [];
    while true
      invariant messages + Received(socket.incoming) == Received(old(socket.incoming))
      invariant old(socket.Reliable()) ==> socket.Reliable()
      decreases |socket.incoming|
    {
      ghost var stream := socket.incoming;
      var message := socket.ReceiveMessage();
      if message == None {
        return;
      }
      messages := messages + [message.value];
    }
  }

  /**
   * One peer sends, and the other receives what went out. However the bytes are cut into chunks, and however often the
   * calls are interrupted, the messages that arrive are the first of those that were sent, and all of them unless a
   * call fails.
   */
  method Converse(ms: seq<Message>, sending: seq<Outcome>, receiving: seq<Outcome>)
    returns (arrived: seq<MessageHandle>)
    requires forall m :: m in ms ==> Sendable(m) && ContentPresent(m.content)
    ensures |arrived| <= |ms| && forall i :: 0 <= i < |arrived| ==> arrived[i] == MessageHandle(Some(ms[i]))
    ensures Failed !in sending && Failed !in receiving ==> |arrived| == |ms|
  {
    hide Frame, Sendable, NextMessage;
    var sender := new Socket([], sending);
    var ok; ghost var sent;
    ok, sent := SendAll(sender, ms);
    var receiver := new Socket(sender.outgoing, receiving);
    arrived := ReceiveAll(receiver);
    CutStream(ms, sent);
    AllComplete(ms);
    HandlesAt(ms);
  }

  lemma {:induction false} HandlesAt(ms: seq<Message>)
    ensures forall i :: 0 <= i < |ms| ==> Handles(ms)[i] == MessageHandle(Some(Arriving(ms[i])))
  {
    if ms != [] {
      HandlesAt(ms[1..]);
    }
  }
}
