/** The browser's reader of lobby messages: the same prefix, no size limit, its own buffer. */
module LobbyStream {
  import opened Wrappers
  import opened Framing

  datatype ReceiveResult = Received(message: seq<byte>) | ServerClosed | StreamError

  // A whole message is at the front.
  predicate HasMessage(b: seq<byte>) {
    |b| >= 4 && |b| >= 4 + U32FromBytes(b)
  }

  // The messages at the front of a byte stream.
  function MessagesOf(stream: seq<byte>): seq<seq<byte>>
    decreases |stream|
  {
    if HasMessage(stream) then
      var n := 4 + U32FromBytes(stream);
      [stream[4..n]] + MessagesOf(stream[n..])
    else []
  }

  // Chunks up to an empty one (taken as the end) or a failed read.
  function Readable(chunks: seq<Option<seq<byte>>>): seq<byte> {
    if chunks == [] || chunks[0].None? || chunks[0].value == [] then []
    else chunks[0].value + Readable(chunks[1..])
  }

  // Whether the readable part ends in a failed read.
  predicate Fails(chunks: seq<Option<seq<byte>>>) {
    chunks != [] && (chunks[0].None? || (chunks[0].value != [] && Fails(chunks[1..])))
  }

  class RecvStream {
    var buffer: seq<byte>
    var connected: bool
    var chunks: seq<Option<seq<byte>>>   // what the transport has yet to deliver

    constructor (chunks: seq<Option<seq<byte>>>)
      ensures buffer == [] && connected && this.chunks == chunks
    {
      buffer, connected := [], true;
      this.chunks := chunks;
    }

    // Everything that can still be read.
    function Pending(): seq<byte>
      reads this
    {
      buffer + Readable(chunks)
    }

    // One turn of a fill loop: `false` when no more bytes will come.
    method Fill() returns (more: bool, failed: bool)
      modifies this
      ensures Pending() == old(Pending())
      ensures old(buffer) <= buffer
      ensures more ==> |chunks| < |old(chunks)| && connected == old(connected) && Fails(chunks) == Fails(old(chunks))
      ensures !more ==> buffer == old(buffer) == Pending() && !connected && failed == Fails(old(chunks))
    {
      if chunks == [] {
        connected := false;
        return false, false;
      }
      var chunk := chunks[0];
      if chunk.None? {
        connected := false;
        chunks := [chunk];
        return false, true;
      }
      if chunk.value == [] {
        connected := false;
        return false, false;
      }
      ConcatAssociative(buffer, chunk.value, Readable(chunks[1..]));
      buffer, chunks := buffer + chunk.value, chunks[1..];
      return true, false;
    }

    // Bytes beyond the message stay for the next call.
    method RecvMessage() returns (r: ReceiveResult)
      modifies this
      ensures HasMessage(old(Pending())) <==> r.Received?
      ensures r.Received? ==>
                && old(Pending()) == U32ToBytes(|r.message|) + r.message + Pending()
                && |r.message| < U32_MODULUS
                && connected == old(connected) && Fails(chunks) == Fails(old(chunks))
      ensures !r.Received? ==> !connected && (r.StreamError? <==> Fails(old(chunks)))
      ensures !r.Received? ==> Pending() == old(Pending())
    {
      while |buffer| < 4
        invariant Pending() == old(Pending()) && connected == old(connected) && Fails(chunks) == Fails(old(chunks))
        decreases |chunks|
      {
        var more, failed := Fill();
        if !more {
          return if failed then StreamError else ServerClosed;
        }
      }
      var len := U32FromBytes(buffer);
      ghost var prefix := buffer[..4];
      while |buffer| < 4 + len
        invariant Pending() == old(Pending()) && connected == old(connected) && Fails(chunks) == Fails(old(chunks))
        invariant |buffer| >= 4 && buffer[..4] == prefix
        decreases |chunks|
      {
        assert Pending()[..4] == prefix;
        var more, failed := Fill();
        if !more {
          return if failed then StreamError else ServerClosed;
        }
      }
      HeaderBytes(buffer);
      assert Pending()[..4] == prefix;
      var message := buffer[4..4 + len];
      assert Pending() == U32ToBytes(len) + message + (buffer[4 + len..] + Readable(chunks));
      buffer := buffer[4 + len..];
      return Received(message);
    }

    // A client that keeps receiving until the stream ends.
    method ReceiveAll() returns (messages: seq<seq<byte>>, last: ReceiveResult)
      modifies this
      ensures messages == MessagesOf(old(Pending()))
      ensures last == if Fails(old(chunks)) then StreamError else ServerClosed
      ensures !connected
    {
      messages := [];
      last := RecvMessage();
      ghost var left := old(Pending());
      assert messages + MessagesOf(left) == MessagesOf(left);
      while last.Received?
        invariant MessagesOf(old(Pending())) == messages + MessagesOf(left)
        invariant HasMessage(left) <==> last.Received?
        invariant last.Received? ==>
                  left == U32ToBytes(|last.message|) + last.message + Pending() && |last.message| < U32_MODULUS
        invariant last.Received? ==> Fails(chunks) == Fails(old(chunks))
        invariant !last.Received? ==> !connected && last == if Fails(old(chunks)) then StreamError else ServerClosed
        decreases |left|
      {
        MessagesStep(last.message, Pending());
        ConcatAssociative(messages, [last.message], MessagesOf(Pending()));
        messages := messages + [last.message];
        left := Pending();
        last := RecvMessage();
      }
      assert messages + [] == messages;
    }
  }

  lemma MessagesStep(m: seq<byte>, rest: seq<byte>)
    requires |m| < U32_MODULUS
    ensures MessagesOf(FrameMessage(m) + rest) == [m] + MessagesOf(rest)
  {
    var s := FrameMessage(m) + rest;
    assert s[..4] == U32ToBytes(|m|) && U32ToBytes(|m|)[..4] == U32ToBytes(|m|);
    assert s[4..4 + |m|] == m && s[4 + |m|..] == rest;
  }

  // The reader inverts the writer (a four-byte length, then the bytes) on all messages whose length
  // fits the prefix, with whatever follows left unread.
  lemma {:induction false} ReaderInvertsWriter(sent: seq<seq<byte>>, rest: seq<byte>)
    requires forall i | 0 <= i < |sent| :: |sent[i]| < U32_MODULUS
    ensures MessagesOf(Frames(sent) + rest) == sent + MessagesOf(rest)
  {
    if sent == [] {
      assert Frames(sent) + rest == rest;
    } else {
      ReaderInvertsWriter(sent[1..], rest);
      ConcatAssociative(FrameMessage(sent[0]), Frames(sent[1..]), rest);
      MessagesStep(sent[0], Frames(sent[1..]) + rest);
      ConcatAssociative([sent[0]], sent[1..], MessagesOf(rest));
      HeadAndTail(sent);
    }
  }

  // On a stream without a length above the limit it agrees with `MessageBuffer`.
  lemma {:induction false} AgreesWithMessageBuffer(stream: seq<byte>)
    requires !Corrupt(Parse(stream).tail)
    ensures MessagesOf(stream) == Parse(stream).messages
    decreases |stream|
  {
    if Complete(stream) {
      AgreesWithMessageBuffer(AfterHead(stream));
    }
  }

  function Delivered(chunks: seq<seq<byte>>): seq<Option<seq<byte>>> {
    seq(|chunks|, i requires 0 <= i < |chunks| => Some(chunks[i]))
  }

  predicate NoneEmpty(chunks: seq<seq<byte>>) {
    forall i | 0 <= i < |chunks| :: chunks[i] != []
  }

  lemma {:induction false} DeliveredIsReadable(chunks: seq<seq<byte>>)
    requires NoneEmpty(chunks)
    ensures Readable(Delivered(chunks)) == Flatten(chunks) && !Fails(Delivered(chunks))
  {
    if chunks == [] {
    } else {
      DeliveredIsReadable(chunks[1..]);
      assert Delivered(chunks)[1..] == Delivered(chunks[1..]);
    }
  }

  // An empty chunk or a failed read ends the stream, whatever comes behind it; only the latter is an error.
  lemma {:induction false} StopsReading(chunks: seq<seq<byte>>, last: Option<seq<byte>>,
      rest: seq<Option<seq<byte>>>)
    requires NoneEmpty(chunks) && (last.None? || last.value == [])
    ensures Readable(Delivered(chunks) + [last] + rest) == Flatten(chunks)
    ensures Fails(Delivered(chunks) + [last] + rest) <==> last.None?
  {
    var all := Delivered(chunks) + [last] + rest;
    if chunks == [] {
      assert all[0] == last;
    } else {
      StopsReading(chunks[1..], last, rest);
      assert all[0] == Some(chunks[0]) && all[1..] == Delivered(chunks[1..]) + [last] + rest;
    }
  }

  // End to end: the lobby writer's messages, cut into any non-empty chunks, are received as they were
  // sent, and then the stream is reported as closed by the server.
  method ReceiveWhatWasSent(ghost sent: seq<seq<byte>>, chunks: seq<seq<byte>>)
      returns (messages: seq<seq<byte>>, last: ReceiveResult)
    requires forall i | 0 <= i < |sent| :: |sent[i]| < U32_MODULUS
    requires NoneEmpty(chunks) && Flatten(chunks) == Frames(sent)
    ensures messages == sent && last == ServerClosed
  {
    var stream := new RecvStream(Delivered(chunks));
    DeliveredIsReadable(chunks);
    assert stream.Pending() == Frames(sent) + [];
    ReaderInvertsWriter(sent, []);
    assert sent + MessagesOf([]) == sent;
    messages, last := stream.ReceiveAll();
  }
}
