/** The client's per-channel task: identify, then read and write until something ends it. */
module ClientChannel {
  import opened Wrappers
  import opened Framing
  import opened Codecs

  datatype InternalEvent<M> = Message(message: M) | Disconnected

  // What one turn of the select loop finds.
  datatype Wake =
    | Chunk(data: seq<byte>)                     // bytes from the transport
    | ReadEnded                                  // end of stream or read error
    | Outgoing(data: seq<byte>, written: bool)   // a frame to write, and whether the write succeeds
    | OutgoingClosed                             // every sender for this channel is gone

  datatype Ending = StillOpen | Lost | Quiet

  // All bytes read before the script itself ends the task.
  function Received(script: seq<Wake>): seq<byte> {
    if script == [] then []
    else match script[0]
      case Chunk(data) => data + Received(script[1..])
      case Outgoing(_, true) => Received(script[1..])
      case _ => []
  }

  function EndingOf(script: seq<Wake>): Ending {
    if script == [] then StillOpen
    else match script[0]
      case Chunk(_) => EndingOf(script[1..])
      case Outgoing(_, true) => EndingOf(script[1..])
      case OutgoingClosed => Quiet
      case _ => Lost
  }

  function Writes(script: seq<Wake>): seq<seq<byte>> {
    if script == [] then []
    else match script[0]
      case Chunk(_) => Writes(script[1..])
      case Outgoing(data, true) => [data] + Writes(script[1..])
      case _ => []
  }

  // Whether the task ends here of itself: not at a chunk or at a write that succeeds.
  predicate Ends(wake: Wake) {
    !wake.Chunk? && !(wake.Outgoing? && wake.written)
  }

  predicate StopsAt(script: seq<Wake>, k: nat) {
    k < |script| && Ends(script[k]) && forall i | 0 <= i < k :: !Ends(script[i])
  }

  // What comes first in a script: only a closed handle ends the task without a loss.
  lemma FirstWake(data: seq<byte>, rest: seq<Wake>)
    ensures Received([Chunk(data)] + rest) == data + Received(rest)
    ensures Writes([Chunk(data)] + rest) == Writes(rest)
    ensures Received([Outgoing(data, true)] + rest) == Received(rest)
    ensures Writes([Outgoing(data, true)] + rest) == [data] + Writes(rest)
    ensures EndingOf([Chunk(data)] + rest) == EndingOf([Outgoing(data, true)] + rest) == EndingOf(rest)
    ensures EndingOf([ReadEnded] + rest) == EndingOf([Outgoing(data, false)] + rest) == Lost
    ensures EndingOf([OutgoingClosed] + rest) == Quiet
    ensures EndingOf([]) == StillOpen
  {
    assert ([Chunk(data)] + rest)[1..] == rest;
    assert ([Outgoing(data, true)] + rest)[1..] == rest;
  }

  // The task reads and writes what it is woken for, in order, until a wake ends it.
  lemma {:induction false} WakesConcat(a: seq<Wake>, b: seq<Wake>)
    requires forall wake | wake in a :: !Ends(wake)
    ensures Received(a + b) == Received(a) + Received(b) && Writes(a + b) == Writes(a) + Writes(b)
    ensures EndingOf(a + b) == EndingOf(b)
  {
    if a == [] {
      assert a + b == b;
    } else {
      assert (a + b)[1..] == a[1..] + b && (a + b)[0] == a[0] && a[0] in a;
      WakesConcat(a[1..], b);
      match a[0] {
        case Chunk(data) => ConcatAssociative(data, Received(a[1..]), Received(b));
        case Outgoing(data, _) => ConcatAssociative([data], Writes(a[1..]), Writes(b));
        case _ =>
      }
    }
  }

  lemma EndedAt(script: seq<Wake>, i: nat)
    requires i <= |script| && (i < |script| ==> Ends(script[i]))
    ensures Received(script[i..]) == [] && Writes(script[i..]) == []
    ensures EndingOf(script[i..]) ==
            if i == |script| then StillOpen else if script[i].OutgoingClosed? then Quiet else Lost
  {
  }

  // Nothing behind the wake that ends the task matters.
  lemma StopDecides(script: seq<Wake>, k: nat)
    requires StopsAt(script, k)
    ensures Received(script) == Received(script[..k]) && Writes(script) == Writes(script[..k])
    ensures EndingOf(script) == if script[k].OutgoingClosed? then Quiet else Lost
  {
    assert script == script[..k] + script[k..];
    assert forall wake | wake in script[..k] :: !Ends(wake);
    WakesConcat(script[..k], script[k..]);
    EndedAt(script, k);
  }

  // The i-th wake, if it is a write the task makes, is written behind those before it.
  lemma WrittenInOrder(script: seq<Wake>, i: nat)
    requires i < |script| && script[i].Outgoing? && forall wake | wake in script[..i + 1] :: !Ends(wake)
    ensures |Writes(script[..i])| < |Writes(script)| && Writes(script)[|Writes(script[..i])|] == script[i].data
  {
    assert script == script[..i] + script[i..] && script[i..] == [script[i]] + script[i + 1..];
    assert script[..i + 1] == script[..i] + [script[i]] && script[i] in script[..i + 1];
    assert !Ends(script[i]) && script[i] == Outgoing(script[i].data, true);
    WakesConcat(script[..i], script[i..]);
    FirstWake(script[i].data, script[i + 1..]);
  }

  function OutgoingAt(script: seq<Wake>): set<nat> {
    set i: nat | i < |script| && script[i].Outgoing?
  }

  lemma OneMoreOutgoing(script: seq<Wake>, wake: Wake)
    ensures |OutgoingAt(script + [wake])| == |OutgoingAt(script)| + if wake.Outgoing? then 1 else 0
  {
    var before, now := OutgoingAt(script), OutgoingAt(script + [wake]);
    assert now == before + if wake.Outgoing? then {|script|} else {};
    assert |script| !in before;
  }

  // As many writes as wakes for one.
  lemma {:induction false} WritesCount(script: seq<Wake>)
    requires forall wake | wake in script :: !Ends(wake)
    ensures |Writes(script)| == |OutgoingAt(script)|
    decreases |script|
  {
    if script == [] {
    } else {
      var n := |script| - 1;
      WritesCount(script[..n]);
      assert script == script[..n] + [script[n]] && script[n] in script;
      WakesConcat(script[..n], [script[n]]);
      assert Writes([script[n]]) == if script[n].Outgoing? then [script[n].data] else [];
      OneMoreOutgoing(script[..n], script[n]);
    }
  }

  function Messages<M>(messages: seq<M>): seq<InternalEvent<M>> {
    seq(|messages|, i requires 0 <= i < |messages| => Message(messages[i]))
  }

  // What the bridge is told.  It depends on the bytes and not on how they were cut.
  function Reported<C(!new), M(!new)>(codec: Codec<C, M>, channel: C, bytes: seq<byte>,
      ending: Ending): seq<InternalEvent<M>>
  {
    var p := Parse(bytes);
    Messages(DecodeAll(codec, channel, p.messages))
    + if Corrupt(p.tail) || ending == Lost then [Disconnected] else []
  }

  // After `i` wakes the task goes on: it has read `bytes`, decoded `messages` from them and written `sent`.
  ghost predicate ReadSoFar<C(!new), M(!new)>(codec: Codec<C, M>, channel: C, script: seq<Wake>, i: nat,
      bytes: seq<byte>, messages: seq<M>, sent: seq<seq<byte>>)
  {
    && i <= |script|
    && Received(script) == bytes + Received(script[i..])
    && EndingOf(script) == EndingOf(script[i..])
    && Writes(script) == sent + Writes(script[i..])
    && !Corrupt(Parse(bytes).tail)
    && messages == DecodeAll(codec, channel, Parse(bytes).messages)
  }

  // One more chunk, of which the buffer has drained `payloads`.
  lemma OneMoreChunk<C(!new), M(!new)>(codec: Codec<C, M>, channel: C, script: seq<Wake>, i: nat, bytes: seq<byte>,
      messages: seq<M>, sent: seq<seq<byte>>, payloads: seq<seq<byte>>)
    requires ReadSoFar(codec, channel, script, i, bytes, messages, sent) && i < |script| && script[i].Chunk?
    requires payloads == Parse(Parse(bytes).tail + script[i].data).messages
    ensures var more := messages + DecodeAll(codec, channel, payloads);
            var p := Parse(bytes + script[i].data);
            if Corrupt(p.tail)
            then Reported(codec, channel, Received(script), EndingOf(script)) == Messages(more) + [Disconnected]
                 && sent <= Writes(script) && Corrupt(Parse(Received(script)).tail)
            else ReadSoFar(codec, channel, script, i + 1, bytes + script[i].data, more, sent)
    ensures Parse(bytes + script[i].data).tail == Parse(Parse(bytes).tail + script[i].data).tail
  {
    var data, rest := script[i].data, script[i + 1..];
    assert script[i..][1..] == rest;
    ParseAppend(bytes, data);
    DecodeAllConcat(codec, channel, Parse(bytes).messages, payloads);
    ConcatAssociative(bytes, data, Received(rest));
    if Corrupt(Parse(bytes + data).tail) {
      ParseBehindCorrupt(bytes + data, Received(rest));
    }
  }

  lemma OneMoreWrite<C(!new), M(!new)>(codec: Codec<C, M>, channel: C, script: seq<Wake>, i: nat, bytes: seq<byte>,
      messages: seq<M>, sent: seq<seq<byte>>)
    requires ReadSoFar(codec, channel, script, i, bytes, messages, sent)
    requires i < |script| && script[i].Outgoing? && script[i].written
    ensures ReadSoFar(codec, channel, script, i + 1, bytes, messages, sent + [script[i].data])
  {
    assert script[i..][1..] == script[i + 1..];
    ConcatAssociative(sent, [script[i].data], Writes(script[i + 1..]));
  }

  // Nothing more is read, because a wake ends the task or none is left.
  lemma NothingMoreRead<C(!new), M(!new)>(codec: Codec<C, M>, channel: C, script: seq<Wake>, i: nat, bytes: seq<byte>,
      messages: seq<M>, sent: seq<seq<byte>>)
    requires ReadSoFar(codec, channel, script, i, bytes, messages, sent)
    requires i < |script| ==> Ends(script[i])
    ensures Reported(codec, channel, Received(script), EndingOf(script)) ==
              Messages(messages) + if i < |script| && !script[i].OutgoingClosed? then [Disconnected] else []
    ensures sent == Writes(script) && !Corrupt(Parse(Received(script)).tail)
    ensures EndingOf(script).StillOpen? <==> i == |script|
  {
    EndedAt(script, i);
    assert bytes + [] == bytes && sent + [] == sent;
  }

  // The select loop: the events and the frames written until a wake ends it.
  method SelectLoop<C(!new), M(!new)>(codec: Codec<C, M>, channel: C, script: seq<Wake>)
      returns (events: seq<InternalEvent<M>>, sent: seq<seq<byte>>, finished: bool)
    ensures events == Reported(codec, channel, Received(script), EndingOf(script))
    ensures sent <= Writes(script)
    ensures !Corrupt(Parse(Received(script)).tail) ==> sent == Writes(script)
    ensures finished <==> Corrupt(Parse(Received(script)).tail) || EndingOf(script) != StillOpen
  {
    var buffer := new MessageBuffer();
    var messages: seq<M> := [];
    ghost var bytes: seq<byte> := [];
    var i := 0;
    sent := [];
    while i < |script|
      invariant 0 <= i <= |script| && buffer.buffer == Parse(bytes).tail
      invariant ReadSoFar(codec, channel, script, i, bytes, messages, sent)
    {
      match script[i] {
        case Chunk(data) =>
          var payloads, failed := buffer.Drain(data);
          OneMoreChunk(codec, channel, script, i, bytes, messages, sent, payloads);
          bytes, messages := bytes + data, messages + DecodeAll(codec, channel, payloads);
          if failed {
            return Messages(messages) + [Disconnected], sent, true;
          }
        case Outgoing(data, true) =>
          OneMoreWrite(codec, channel, script, i, bytes, messages, sent);
          sent := sent + [data];
        case OutgoingClosed =>
          NothingMoreRead(codec, channel, script, i, bytes, messages, sent);
          return Messages(messages) + [], sent, true;
        case _ =>
          NothingMoreRead(codec, channel, script, i, bytes, messages, sent);
          return Messages(messages) + [Disconnected], sent, true;
      }
      i := i + 1;
    }
    NothingMoreRead(codec, channel, script, i, bytes, messages, sent);
    return Messages(messages) + [], sent, false;
  }

  // The loss is told whenever the task ends, but for a closed handle: after the messages decoded from
  // what was read, and only then.
  method RunChannel<C(!new), M(!new)>(codec: Codec<C, M>, channel: C, idWritten: bool, script: seq<Wake>)
      returns (events: seq<InternalEvent<M>>, written: seq<seq<byte>>, finished: bool)
    ensures !idWritten ==> events == [Disconnected] && written == [] && finished
    ensures idWritten ==> events == Reported(codec, channel, Received(script), EndingOf(script))
    ensures idWritten ==> written != [] && written[0] == FrameMessage([codec.toId(channel)])
    ensures idWritten ==> written[1..] <= Writes(script)
    ensures idWritten && !Corrupt(Parse(Received(script)).tail) ==> written[1..] == Writes(script)
    ensures idWritten ==> (finished <==> Corrupt(Parse(Received(script)).tail) || EndingOf(script) != StillOpen)
    ensures idWritten ==>
              forall k: nat | StopsAt(script, k) && !Corrupt(Parse(Received(script[..k])).tail) ::
                && events == Messages(DecodeAll(codec, channel, Parse(Received(script[..k])).messages))
                             + (if script[k].OutgoingClosed? then [] else [Disconnected])
                && written[1..] == Writes(script[..k]) && finished
    ensures idWritten && Corrupt(Parse(Received(script)).tail) ==>
              events == Messages(DecodeAll(codec, channel, Parse(Received(script)).messages)) + [Disconnected]
    ensures idWritten && !Corrupt(Parse(Received(script)).tail) && (forall wake | wake in script :: !Ends(wake)) ==>
              events == Messages(DecodeAll(codec, channel, Parse(Received(script)).messages)) && !finished
  {
    if !idWritten {
      return [Disconnected], [], true;
    }
    var sent: seq<seq<byte>>;
    events, sent, finished := SelectLoop(codec, channel, script);
    written := [FrameMessage([codec.toId(channel)])] + sent;
    forall k: nat | StopsAt(script, k) {
      StopDecides(script, k);
    }
    if forall wake | wake in script :: !Ends(wake) {
      NothingStops(script);
    }
  }

  lemma NothingStops(script: seq<Wake>)
    requires forall wake | wake in script :: !Ends(wake)
    ensures EndingOf(script) == StillOpen
  {
    assert script + [] == script;
    WakesConcat(script, []);
  }

  // Two runs that read the same bytes and end the same way report the same events.
  lemma ChunkingDoesNotMatter<C(!new), M(!new)>(codec: Codec<C, M>, channel: C, chunks: seq<seq<byte>>,
      bytes: seq<byte>)
    requires Flatten(chunks) == bytes
    ensures Reported(codec, channel, Received(Chunks(chunks)), EndingOf(Chunks(chunks)))
         == Reported(codec, channel, bytes, StillOpen)
  {
    ReceivedChunks(chunks);
  }

  function Chunks(chunks: seq<seq<byte>>): seq<Wake> {
    seq(|chunks|, i requires 0 <= i < |chunks| => Chunk(chunks[i]))
  }

  lemma {:induction false} ReceivedChunks(chunks: seq<seq<byte>>)
    ensures Received(Chunks(chunks)) == Flatten(chunks) && EndingOf(Chunks(chunks)) == StillOpen
  {
    if chunks == [] {
    } else {
      ReceivedChunks(chunks[1..]);
      assert Chunks(chunks)[1..] == Chunks(chunks[1..]);
    }
  }
}
