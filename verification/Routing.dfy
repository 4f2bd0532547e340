/** Addressing: which channels an actor output goes to, and the bounded queues it is offered to. */
module Routing {
  import opened Wrappers
  import opened Ids
  import opened Framing
  import opened Codecs
  import opened ActorTables
  import opened Connections
  import opened Discipline

  const QUEUE_CAPACITY: nat := 256
  const SELF_CAPACITY: nat := 64

  datatype Output<M> = ToUser(user: UserId, message: M) | Broadcast(message: M) | Internal(message: M)

  type Entries = map<ChannelId, (UserId, ChannelType)>

  // The channel type of an output that goes on the network and can be encoded.
  function NetworkType<M(!new)>(codec: Codec<ChannelType, M>, output: Output<M>): Option<ChannelType> {
    if output.Internal? || codec.encode(output.message).None? then None else codec.channelOf(output.message)
  }

  predicate Addresses<M(!new)>(codec: Codec<ChannelType, M>, entries: Entries, output: Output<M>, c: ChannelId) {
    && c in entries && NetworkType(codec, output) == Some(entries[c].1)
    && (output.ToUser? ==> entries[c].0 == output.user)
  }

  predicate Encodable<M(!new)>(codec: Codec<ChannelType, M>, messages: seq<M>) {
    forall i | 0 <= i < |messages| :: codec.encode(messages[i]).Some?
  }

  // The messages addressed to one channel, in output order.
  function MessagesFor<M(!new)>(codec: Codec<ChannelType, M>, entries: Entries, outputs: seq<Output<M>>,
      c: ChannelId): (ms: seq<M>)
    ensures Encodable(codec, ms)
    ensures ms != [] ==> c in entries
    ensures forall m | m in ms :: codec.channelOf(m) == Some(entries[c].1)
  {
    if outputs == [] then []
    else
      var n := |outputs| - 1;
      MessagesFor(codec, entries, outputs[..n], c)
      + if Addresses(codec, entries, outputs[n], c) then [outputs[n].message] else []
  }

  function Internals<M(!new)>(outputs: seq<Output<M>>): seq<M> {
    if outputs == [] then []
    else
      var n := |outputs| - 1;
      Internals(outputs[..n]) + if outputs[n].Internal? then [outputs[n].message] else []
  }

  // What one output of each kind is addressed to: a broadcast to every channel of its type, a message for
  // a user to that user's channel of the type, and an internal message to no channel.
  lemma MessagesForOne<M(!new)>(codec: Codec<ChannelType, M>, entries: Entries, m: M, c: ChannelId)
    ensures var onItsType := c in entries && codec.encode(m).Some? && codec.channelOf(m) == Some(entries[c].1);
            && MessagesFor(codec, entries, [Broadcast(m)], c) == (if onItsType then [m] else [])
            && MessagesFor(codec, entries, [Internal(m)], c) == []
            && forall u ::
                 MessagesFor(codec, entries, [ToUser(u, m)], c) == if onItsType && entries[c].0 == u then [m] else []
  {
    assert MessagesFor(codec, entries, [], c) == [];
  }

  // Together with the single outputs this is what any outputs are addressed to.
  lemma {:induction false} MessagesForConcat<M(!new)>(codec: Codec<ChannelType, M>, entries: Entries,
      a: seq<Output<M>>, b: seq<Output<M>>, c: ChannelId)
    ensures MessagesFor(codec, entries, a + b, c) ==
            MessagesFor(codec, entries, a, c) + MessagesFor(codec, entries, b, c)
    decreases |b|
  {
    if b == [] {
      assert a + b == a;
    } else {
      var n := |b| - 1;
      assert (a + b)[..|a + b| - 1] == a + b[..n];
      MessagesForConcat(codec, entries, a, b[..n], c);
    }
  }

  // Only internal messages are for the actor itself, in output order.
  lemma InternalsOfOne<M(!new)>(m: M)
    ensures Internals([Internal(m)]) == [m] && Internals([Broadcast(m)]) == []
    ensures forall u :: Internals([ToUser(u, m)]) == []
  {
    assert Internals<M>([]) == [];
  }

  lemma {:induction false} InternalsConcat<M(!new)>(a: seq<Output<M>>, b: seq<Output<M>>)
    ensures Internals(a + b) == Internals(a) + Internals(b)
    decreases |b|
  {
    if b == [] {
      assert a + b == a;
    } else {
      var n := |b| - 1;
      assert (a + b)[..|a + b| - 1] == a + b[..n];
      InternalsConcat(a, b[..n]);
    }
  }

  function Payloads<M(!new)>(codec: Codec<ChannelType, M>, messages: seq<M>): (r: seq<seq<byte>>)
    requires Encodable(codec, messages)
    ensures |r| == |messages|
  {
    seq(|messages|, i requires 0 <= i < |messages| => codec.encode(messages[i]).value)
  }

  function Framed(payloads: seq<seq<byte>>): (r: seq<seq<byte>>)
    ensures |r| == |payloads|
  {
    seq(|payloads|, i requires 0 <= i < |payloads| => FrameMessage(payloads[i]))
  }

  // The frames offered to one channel.
  function FramesFor<M(!new)>(codec: Codec<ChannelType, M>, entries: Entries, outputs: seq<Output<M>>,
      c: ChannelId): seq<seq<byte>>
  {
    Framed(Payloads(codec, MessagesFor(codec, entries, outputs, c)))
  }

  // `try_send`: dropped whole when the queue is full.
  function Offer<T>(queue: seq<T>, item: T, capacity: nat): seq<T> {
    if |queue| < capacity then queue + [item] else queue
  }

  // How many of `n` offers a queue of length `len` takes.
  function Room(len: nat, n: nat, capacity: nat): (k: nat)
    ensures k <= n
  {
    if len + n <= capacity then n else if len <= capacity then capacity - len else 0
  }

  // One after another, a queue takes offers until it is full.
  function OfferAll<T>(queue: seq<T>, items: seq<T>, capacity: nat): seq<T> {
    queue + items[..Room(|queue|, |items|, capacity)]
  }

  lemma OfferOneMore<T>(queue: seq<T>, items: seq<T>, item: T, capacity: nat)
    ensures OfferAll(queue, items + [item], capacity) == Offer(OfferAll(queue, items, capacity), item, capacity)
  {
    var k := Room(|queue|, |items|, capacity);
    assert (items + [item])[..k] == items[..k];
    if k == |items| && |queue| + k < capacity {
      assert (items + [item])[..k + 1] == items + [item];
      assert items[..k] == items;
    }
  }

  // Everything is taken if it fits; otherwise the queue is filled.  Nothing in it is lost or moved.
  lemma OfferedUpToCapacity<T>(queue: seq<T>, items: seq<T>, capacity: nat)
    requires |queue| <= capacity
    ensures var after := OfferAll(queue, items, capacity);
            && queue <= after <= queue + items
            && |after| == if |queue| + |items| <= capacity then |queue| + |items| else capacity
  {
  }

  // The write queues of a room's channels (`RoomShared::channels`).
  class Outbox {
    var queues: map<ChannelId, seq<seq<byte>>>

    constructor (queues: map<ChannelId, seq<seq<byte>>>)
      ensures this.queues == queues
    {
      this.queues := queues;
    }

    method SendTo(ids: set<ChannelId>, data: seq<byte>)
      modifies this
      ensures queues.Keys == old(queues).Keys
      ensures forall c | c in queues ::
                queues[c] == if c in ids then Offer(old(queues)[c], data, QUEUE_CAPACITY) else old(queues)[c]
      ensures forall c | c in queues ::
                queues[c] == old(queues)[c] + if c in ids && |old(queues)[c]| < QUEUE_CAPACITY then [data] else []
    {
      var todo := ids;
      while todo != {}
        invariant todo <= ids && queues.Keys == old(queues).Keys
        invariant forall c | c in queues ::
                    queues[c] == if c in ids && c !in todo then Offer(old(queues)[c], data, QUEUE_CAPACITY)
                        else old(queues)[c]
        decreases todo
      {
        var id :| id in todo;
        if id in queues {
          queues := queues[id := Offer(queues[id], data, QUEUE_CAPACITY)];
        }
        todo := todo - {id};
      }
    }
  }

  lemma FramesForOneMore<M(!new)>(codec: Codec<ChannelType, M>, entries: Entries, outputs: seq<Output<M>>,
      output: Output<M>, c: ChannelId)
    ensures FramesFor(codec, entries, outputs + [output], c)
         == if Addresses(codec, entries, output, c)
            then FramesFor(codec, entries, outputs, c) + [FrameMessage(codec.encode(output.message).value)]
            else FramesFor(codec, entries, outputs, c)
  {
    assert (outputs + [output])[..|outputs|] == outputs;
    var ms := MessagesFor(codec, entries, outputs, c);
    if Addresses(codec, entries, output, c) {
      assert Payloads(codec, ms + [output.message]) == Payloads(codec, ms) + [codec.encode(output.message).value];
      assert Framed(Payloads(codec, ms) + [codec.encode(output.message).value])
          == Framed(Payloads(codec, ms)) + [FrameMessage(codec.encode(output.message).value)];
    } else {
      assert ms + [] == ms;
    }
  }

  // What one output does to one queue.
  lemma OfferedOneMore<M(!new)>(codec: Codec<ChannelType, M>, entries: Entries, outputs: seq<Output<M>>,
      output: Output<M>, c: ChannelId, queue: seq<seq<byte>>)
    ensures OfferAll(queue, FramesFor(codec, entries, outputs + [output], c), QUEUE_CAPACITY)
         == var now := OfferAll(queue, FramesFor(codec, entries, outputs, c), QUEUE_CAPACITY);
            if Addresses(codec, entries, output, c)
            then Offer(now, FrameMessage(codec.encode(output.message).value), QUEUE_CAPACITY)
            else now
  {
    FramesForOneMore(codec, entries, outputs, output, c);
    if Addresses(codec, entries, output, c) {
      var frame := FrameMessage(codec.encode(output.message).value);
      OfferOneMore(queue, FramesFor(codec, entries, outputs, c), frame, QUEUE_CAPACITY);
    }
  }

  // One output on its way: offered to the queue of every channel it addresses, and no other.  A broadcast
  // addresses all channels of the message's type, a message for a user only that user's.
  method RouteOne<M(!new)>(codec: Codec<ChannelType, M>, entries: Entries, output: Output<M>, outbox: Outbox)
    modifies outbox
    ensures outbox.queues.Keys == old(outbox.queues).Keys
    ensures forall c | c in outbox.queues ::
              var queue := old(outbox.queues)[c];
              outbox.queues[c] == if Addresses(codec, entries, output, c)
                                  then Offer(queue, FrameMessage(codec.encode(output.message).value), QUEUE_CAPACITY)
                                  else queue
    ensures forall c | c in outbox.queues ::
              var queue, m := old(outbox.queues)[c], output.message;
              outbox.queues[c] == if && c in entries && codec.channelOf(m) == Some(entries[c].1)
                                     && (output.Broadcast? || output == ToUser(entries[c].0, m))
                                     && codec.encode(m).Some? && |queue| < QUEUE_CAPACITY
                                  then queue + [FrameMessage(codec.encode(m).value)]
                                  else queue
  {
    if !output.Internal? {
      var channel := codec.channelOf(output.message);
      if channel.Some? {
        var data := codec.encode(output.message);
        if data.Some? {
          var ids := set c | c in entries && entries[c].1 == channel.value
              && (output.ToUser? ==> entries[c].0 == output.user);
          outbox.SendTo(ids, FrameMessage(data.value));
        }
      }
    }
  }

  // What a single broadcast or internal message comes to.
  lemma FramesForOne<M(!new)>(codec: Codec<ChannelType, M>, entries: Entries, m: M, c: ChannelId)
    ensures FramesFor(codec, entries, [Internal(m)], c) == []
    ensures FramesFor(codec, entries, [Broadcast(m)], c) ==
              if c in entries && codec.channelOf(m) == Some(entries[c].1) && codec.encode(m).Some?
              then [FrameMessage(codec.encode(m).value)]
              else []
  {
    MessagesForOne(codec, entries, m, c);
  }

  lemma OfferedSingle<M(!new)>(codec: Codec<ChannelType, M>, entries: Entries, m: M, c: ChannelId,
      queue: seq<seq<byte>>)
    ensures OfferAll(queue, FramesFor(codec, entries, [Internal(m)], c), QUEUE_CAPACITY) == queue
    ensures OfferAll(queue, FramesFor(codec, entries, [Broadcast(m)], c), QUEUE_CAPACITY) ==
              if && c in entries && codec.channelOf(m) == Some(entries[c].1)
                 && codec.encode(m).Some? && |queue| < QUEUE_CAPACITY
              then queue + [FrameMessage(codec.encode(m).value)]
              else queue
  {
    FramesForOne(codec, entries, m, c);
  }

  lemma SingleOutput<M(!new)>(codec: Codec<ChannelType, M>, entries: Entries, outputs: seq<Output<M>>,
      queues: map<ChannelId, seq<seq<byte>>>, selfQueue: seq<M>)
    requires |outputs| == 1
    ensures outputs[0].Broadcast? ==>
              var m := outputs[0].message;
              && OfferAll(selfQueue, Internals(outputs), SELF_CAPACITY) == selfQueue
              && forall c | c in queues ::
                   OfferAll(queues[c], FramesFor(codec, entries, outputs, c), QUEUE_CAPACITY) ==
                     if && c in entries && codec.channelOf(m) == Some(entries[c].1)
                        && codec.encode(m).Some? && |queues[c]| < QUEUE_CAPACITY
                     then queues[c] + [FrameMessage(codec.encode(m).value)]
                     else queues[c]
    ensures outputs[0].Internal? ==>
              && OfferAll(selfQueue, Internals(outputs), SELF_CAPACITY) ==
                 selfQueue + (if |selfQueue| < SELF_CAPACITY then [outputs[0].message] else [])
              && forall c | c in queues ::
                   OfferAll(queues[c], FramesFor(codec, entries, outputs, c), QUEUE_CAPACITY) == queues[c]
  {
    var m := outputs[0].message;
    assert outputs[0].Broadcast? ==> outputs == [Broadcast(m)];
    assert outputs[0].Internal? ==> outputs == [Internal(m)];
    InternalsOfOne(m);
    forall c | c in queues {
      OfferedSingle(codec, entries, m, c, queues[c]);
    }
  }

  // `route_outputs`: each channel's queue is offered exactly the frames of the messages addressed to
  // it, in output order; internal messages go to the actor's own queue.
  method RouteOutputs<M(!new)>(codec: Codec<ChannelType, M>, entries: Entries, outputs: seq<Output<M>>, outbox: Outbox,
      selfQueue: seq<M>)
      returns (selfQueue': seq<M>)
    modifies outbox
    ensures selfQueue' == OfferAll(selfQueue, Internals(outputs), SELF_CAPACITY)
    ensures outbox.queues.Keys == old(outbox.queues).Keys
    ensures forall c | c in outbox.queues ::
              outbox.queues[c] == OfferAll(old(outbox.queues)[c], FramesFor(codec, entries, outputs, c), QUEUE_CAPACITY)
    ensures |outputs| == 1 && outputs[0].Broadcast? ==>
              var m := outputs[0].message;
              && selfQueue' == selfQueue
              && forall c | c in outbox.queues ::
                   var queue := old(outbox.queues)[c];
                   outbox.queues[c] == if && c in entries && codec.channelOf(m) == Some(entries[c].1)
                                          && codec.encode(m).Some? && |queue| < QUEUE_CAPACITY
                                       then queue + [FrameMessage(codec.encode(m).value)]
                                       else queue
    ensures |outputs| == 1 && outputs[0].Internal? ==>
              && outbox.queues == old(outbox.queues)
              && selfQueue' == selfQueue + if |selfQueue| < SELF_CAPACITY then [outputs[0].message] else []
  {
    selfQueue' := selfQueue;
    var i := 0;
    ghost var before := outbox.queues;
    assert outputs[..0] == [];
    while i < |outputs|
      invariant 0 <= i <= |outputs|
      invariant selfQueue' == OfferAll(selfQueue, Internals(outputs[..i]), SELF_CAPACITY)
      invariant outbox.queues.Keys == before.Keys
      invariant forall c | c in outbox.queues ::
                  outbox.queues[c] == OfferAll(before[c], FramesFor(codec, entries, outputs[..i], c), QUEUE_CAPACITY)
    {
      var output := outputs[i];
      assert outputs[..i + 1] == outputs[..i] + [output];
      assert (outputs[..i] + [output])[..i] == outputs[..i];
      RouteOne(codec, entries, output, outbox);
      forall c | c in outbox.queues
        ensures outbox.queues[c] == OfferAll(before[c], FramesFor(codec, entries, outputs[..i + 1], c), QUEUE_CAPACITY)
      {
        OfferedOneMore(codec, entries, outputs[..i], output, c, before[c]);
      }
      if output.Internal? {
        OfferOneMore(selfQueue, Internals(outputs[..i]), output.message, SELF_CAPACITY);
        selfQueue' := Offer(selfQueue', output.message, SELF_CAPACITY);
      } else {
        assert Internals(outputs[..i]) + [] == Internals(outputs[..i]);
      }
      i := i + 1;
    }
    assert outputs[..i] == outputs;
    if |outputs| == 1 {
      SingleOutput(codec, entries, outputs, before, selfQueue);
    }
  }

  // A message for a connected, orderly user is addressed to exactly one channel: a live
  // one of that user and of the message's type.
  lemma OneCopyPerConnectedUser<M(!new)>(codec: Codec<ChannelType, M>, types: set<ChannelType>, steps: seq<Step>,
      u: UserId, m: M)
    requires Possible(|types|, steps) && OrderlyRun(types, steps, u)
    requires u in Reached(|types|, steps).tables.connected
    requires codec.encode(m).Some? && codec.channelOf(m).Some? && codec.channelOf(m).value in types
    ensures var s := Reached(|types|, steps);
            exists c ::
              && c in LiveTasks(s, u)
              && forall d :: Addresses(codec, s.tables.userChannels, ToUser(u, m), d) <==> d == c
  {
    var s := Reached(|types|, steps);
    var channel := codec.channelOf(m).value;
    ConnectedHasOneLiveChannelEach(types, steps, u, channel);
    var c :| c in s.tables.userChannels && s.tables.userChannels[c] == (u, channel) && c in LiveTasks(s, u)
          && (forall d | d in s.tables.userChannels && s.tables.userChannels[d] == (u, channel) :: d == c);
    forall d
      ensures Addresses(codec, s.tables.userChannels, ToUser(u, m), d) <==> d == c
    {
      assert Addresses(codec, s.tables.userChannels, ToUser(u, m), d) ==> s.tables.userChannels[d] == (u, channel);
    }
  }
}
