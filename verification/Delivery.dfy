/**
 * One channel end to end: the actor's routing offers frames to a bounded queue, the transport writes
 * them to a byte stream, and the client reads that stream in chunks of its own.
 */
module Delivery {
  import opened Wrappers
  import opened Framing
  import opened Codecs
  import opened ActorTables
  import opened Routing

  const READ_BUFFER: nat := 64 * 1024

  datatype Link<M> = Link(
    queue: seq<seq<byte>>,   // accepted frames not yet written
    wire: seq<byte>,         // written bytes not yet read
    held: seq<byte>,         // the client's message buffer
    failed: bool,            // the client has met a bad length
    accepted: seq<M>,        // messages the queue has taken
    decoded: seq<M>)         // messages the client has decoded

  datatype Event<M> =
    | Route(messages: seq<M>)   // one call of `route_outputs`, as far as it concerns this channel
    | Write                     // the transport takes a frame from the queue
    | Read(n: nat)              // the client reads some of what has arrived

  // A message of this channel whose payload fits a frame.
  predicate Fits<M(!new)>(codec: Codec<ChannelType, M>, channel: ChannelType, m: M) {
    && codec.channelOf(m) == Some(channel) && codec.encode(m).Some? && |codec.encode(m).value| <= MAX_MESSAGE_SIZE
  }

  predicate Sendable<M(!new)>(codec: Codec<ChannelType, M>, channel: ChannelType, messages: seq<M>)
    ensures Sendable(codec, channel, messages) ==> Encodable(codec, messages)
  {
    forall i | 0 <= i < |messages| :: Fits(codec, channel, messages[i])
  }

  predicate Enabled<M(!new)>(codec: Codec<ChannelType, M>, channel: ChannelType, l: Link<M>, e: Event<M>) {
    match e
    case Route(messages) => Sendable(codec, channel, messages)
    case Write => l.queue != []
    case Read(n) => !l.failed && 0 < n <= |l.wire| && n <= READ_BUFFER
  }

  function After<M(!new)>(codec: Codec<ChannelType, M>, channel: ChannelType, l: Link<M>, e: Event<M>): Link<M>
    requires Enabled(codec, channel, l, e)
  {
    match e
    case Route(messages) =>
      l.(queue := OfferAll(l.queue, Framed(Payloads(codec, messages)), QUEUE_CAPACITY),
         accepted := l.accepted + messages[..Room(|l.queue|, |messages|, QUEUE_CAPACITY)])
    case Write => l.(queue := l.queue[1..], wire := l.wire + l.queue[0])
    case Read(n) =>
      var p := Parse(l.held + l.wire[..n]);
      l.(wire := l.wire[n..], held := if Corrupt(p.tail) then [] else p.tail, failed := Corrupt(p.tail),
         decoded := l.decoded + DecodeAll(codec, channel, p.messages))
  }

  predicate Possible<M(!new)>(codec: Codec<ChannelType, M>, channel: ChannelType, run: seq<Event<M>>)
    decreases |run|, 0
  {
    run != [] ==>
      var n := |run| - 1;
      Possible(codec, channel, run[..n]) && Enabled(codec, channel, Reached(codec, channel, run[..n]), run[n])
  }

  function Reached<M(!new)>(codec: Codec<ChannelType, M>, channel: ChannelType, run: seq<Event<M>>): Link<M>
    requires Possible(codec, channel, run)
    decreases |run|, 1
  {
    if run == [] then Link([], [], [], false, [], [])
    else After(codec, channel, Reached(codec, channel, run[..|run| - 1]), run[|run| - 1])
  }

  lemma PayloadsConcat<M(!new)>(codec: Codec<ChannelType, M>, a: seq<M>, b: seq<M>)
    requires Encodable(codec, a) && Encodable(codec, b)
    ensures Encodable(codec, a + b) && Payloads(codec, a + b) == Payloads(codec, a) + Payloads(codec, b)
  {
  }

  // The accepted messages the client has not decoded yet.
  function Owed<M>(l: Link<M>): seq<M> {
    if |l.decoded| <= |l.accepted| then l.accepted[|l.decoded|..] else []
  }

  // Nothing accepted is lost: what is owed is held, on the wire and queued, in this order.
  ghost predicate Conserved<M(!new)>(codec: Codec<ChannelType, M>, channel: ChannelType, l: Link<M>) {
    && l.decoded <= l.accepted && Sendable(codec, channel, Owed(l))
    && Frames(Payloads(codec, Owed(l))) == l.held + (l.wire + Flatten(l.queue))
    && Incomplete(l.held) && !l.failed
  }

  lemma {:induction false} DecodeInvertsEncode<M(!new)>(codec: Codec<ChannelType, M>, channel: ChannelType,
      messages: seq<M>)
    requires codec.Lawful() && Encodable(codec, messages)
    requires forall i | 0 <= i < |messages| :: codec.channelOf(messages[i]) == Some(channel)
    ensures DecodeAll(codec, channel, Payloads(codec, messages)) == messages
  {
    if messages == [] {
    } else {
      DecodeInvertsEncode(codec, channel, messages[1..]);
      assert Payloads(codec, messages)[1..] == Payloads(codec, messages[1..]);
      HeadAndTail(messages);
    }
  }

  lemma {:induction false} FlattenFramed(payloads: seq<seq<byte>>)
    ensures Flatten(Framed(payloads)) == Frames(payloads)
  {
    if payloads == [] {
    } else {
      FlattenFramed(payloads[1..]);
      assert Framed(payloads)[1..] == Framed(payloads[1..]);
    }
  }

  lemma RouteConserves<M(!new)>(codec: Codec<ChannelType, M>, channel: ChannelType, l: Link<M>, messages: seq<M>)
    requires Conserved(codec, channel, l) && Sendable(codec, channel, messages)
    ensures Conserved(codec, channel, After(codec, channel, l, Route(messages)))
  {
    var k := Room(|l.queue|, |messages|, QUEUE_CAPACITY);
    var taken := messages[..k];
    var l' := After(codec, channel, l, Route(messages));
    assert Owed(l') == Owed(l) + taken;
    PayloadsConcat(codec, Owed(l), taken);
    FramesConcat(Payloads(codec, Owed(l)), Payloads(codec, taken));
    QueuedBytes(codec, l.queue, messages, k);
    AppendBehind(l.held, l.wire, Flatten(l.queue), Frames(Payloads(codec, taken)));
  }

  lemma QueuedBytes<M(!new)>(codec: Codec<ChannelType, M>, queue: seq<seq<byte>>, messages: seq<M>, k: nat)
    requires Encodable(codec, messages) && k <= |messages|
    ensures Flatten(queue + Framed(Payloads(codec, messages))[..k])
            == Flatten(queue) + Frames(Payloads(codec, messages[..k]))
  {
    var frames := Framed(Payloads(codec, messages[..k]));
    assert Framed(Payloads(codec, messages))[..k] == frames;
    FlattenFramed(Payloads(codec, messages[..k]));
    FlattenConcat(queue, frames);
  }

  lemma AppendBehind<T>(a: seq<T>, b: seq<T>, c: seq<T>, d: seq<T>)
    ensures (a + (b + c)) + d == a + (b + (c + d))
  {
  }

  // Reading a beginning of what is owed decodes a beginning of it.
  lemma ReadingOwed<M(!new)>(codec: Codec<ChannelType, M>, channel: ChannelType, owed: seq<M>, x: seq<byte>,
      y: seq<byte>)
    requires codec.Lawful() && Sendable(codec, channel, owed) && Frames(Payloads(codec, owed)) == x + y
    ensures Incomplete(Parse(x).tail)
    ensures var got := DecodeAll(codec, channel, Parse(x).messages);
            got <= owed && Frames(Payloads(codec, owed[|got|..])) == Parse(x).tail + y
  {
    var payloads := Payloads(codec, owed);
    ParseOfPrefix(payloads, x, y);
    var k := |Parse(x).messages|;
    assert Parse(x).messages == Payloads(codec, owed[..k]);
    DecodeInvertsEncode(codec, channel, owed[..k]);
    assert payloads[k..] == Payloads(codec, owed[k..]);
  }

  // The bytes ahead of the client, seen as those it has after reading `n` more and the rest.
  lemma BytesAfterRead<T>(held: seq<T>, wire: seq<T>, queued: seq<T>, n: nat)
    requires n <= |wire|
    ensures held + (wire + queued) == (held + wire[..n]) + (wire[n..] + queued)
  {
    assert wire == wire[..n] + wire[n..];
    ConcatAssociative(wire[..n], wire[n..], queued);
    ConcatAssociative(held, wire[..n], wire[n..] + queued);
  }

  // Decoding a beginning of what is owed takes it off.
  lemma OwedAfterDecoding<M(!new)>(l: Link<M>, l': Link<M>, got: seq<M>)
    requires l.decoded <= l.accepted && got <= Owed(l)
    requires l'.accepted == l.accepted && l'.decoded == l.decoded + got
    ensures l'.decoded <= l'.accepted && Owed(l') == Owed(l)[|got|..]
  {
    assert l.accepted == l.decoded + Owed(l);
    assert Owed(l) == got + Owed(l)[|got|..];
    ConcatAssociative(l.decoded, got, Owed(l)[|got|..]);
  }

  lemma ReadConserves<M(!new)>(codec: Codec<ChannelType, M>, channel: ChannelType, l: Link<M>, n: nat)
    requires codec.Lawful() && Conserved(codec, channel, l) && Enabled(codec, channel, l, Read(n))
    ensures Conserved(codec, channel, After(codec, channel, l, Read(n)))
  {
    var seen, rest := l.held + l.wire[..n], l.wire[n..] + Flatten(l.queue);
    BytesAfterRead(l.held, l.wire, Flatten(l.queue), n);
    ReadingOwed(codec, channel, Owed(l), seen, rest);
    OwedAfterDecoding(l, After(codec, channel, l, Read(n)), DecodeAll(codec, channel, Parse(seen).messages));
  }

  lemma StepConserves<M(!new)>(codec: Codec<ChannelType, M>, channel: ChannelType, l: Link<M>, e: Event<M>)
    requires codec.Lawful() && Conserved(codec, channel, l) && Enabled(codec, channel, l, e)
    ensures Conserved(codec, channel, After(codec, channel, l, e))
  {
    match e {
      case Route(messages) => RouteConserves(codec, channel, l, messages);
      case Write => ConcatAssociative(l.wire, l.queue[0], Flatten(l.queue[1..]));
      case Read(n) => ReadConserves(codec, channel, l, n);
    }
  }

  // However the outputs come, however many are dropped on a full queue and however the bytes are
  // cut, the client decodes the accepted messages in order and never meets a bad length; once
  // everything has been written and read it has decoded exactly those.
  lemma {:induction false} SurvivorsArriveInOrder<M(!new)>(codec: Codec<ChannelType, M>, channel: ChannelType,
      run: seq<Event<M>>)
    requires codec.Lawful() && Possible(codec, channel, run)
    ensures var l := Reached(codec, channel, run);
            && Conserved(codec, channel, l)
            && l.decoded <= l.accepted && !l.failed
            && (l.queue == [] && l.wire == [] ==> l.decoded == l.accepted && l.held == [])
    decreases |run|
  {
    if run == [] {
    } else {
      var n := |run| - 1;
      SurvivorsArriveInOrder(codec, channel, run[..n]);
      StepConserves(codec, channel, Reached(codec, channel, run[..n]), run[n]);
    }
    var l := Reached(codec, channel, run);
    if l.queue == [] && l.wire == [] {
      DrainedLinkIsComplete(codec, channel, l);
    }
  }

  lemma DrainedLinkIsComplete<M(!new)>(codec: Codec<ChannelType, M>, channel: ChannelType, l: Link<M>)
    requires Conserved(codec, channel, l) && l.queue == [] && l.wire == []
    ensures l.decoded == l.accepted && l.held == []
  {
    var owed := Payloads(codec, Owed(l));
    assert Frames(owed) == l.held;
    if owed != [] {
      FrameReadBack(owed[0], Frames(owed[1..]));
      assert false;
    }
  }
}
