/** From client to server: what a client's channel task writes, as the server's channel task reads it. */
module Uplink {
  import opened Wrappers
  import opened Framing
  import opened Codecs
  import opened ActorTables
  import opened ClientChannel
  import opened Routing
  import opened ServerReads
  import Links = Delivery

  // The id frame, and a frame for each message.
  function Opening<M(!new)>(codec: Codec<ChannelType, M>, channel: ChannelType, messages: seq<M>): seq<seq<byte>>
    requires Encodable(codec, messages)
  {
    [[codec.toId(channel)]] + Payloads(codec, messages)
  }

  // What a client's task has written, if it is given the frames of some messages: its id frame and the
  // frames of a beginning of them.
  lemma WrittenIsOpening<M(!new)>(codec: Codec<ChannelType, M>, channel: ChannelType, script: seq<Wake>,
      written: seq<seq<byte>>, messages: seq<M>)
    requires Encodable(codec, messages) && Writes(script) == Framed(Payloads(codec, messages))
    requires written != [] && written[0] == FrameMessage([codec.toId(channel)]) && written[1..] <= Writes(script)
    ensures |written| - 1 <= |messages|
    ensures Flatten(written) == Frames(Opening(codec, channel, messages[..|written| - 1]))
  {
    var sent := messages[..|written| - 1];
    assert written[1..] == Framed(Payloads(codec, sent));
    Links.FlattenFramed(Payloads(codec, sent));
    assert Opening(codec, channel, sent)[1..] == Payloads(codec, sent);
  }

  lemma OpeningIsSized<M(!new)>(codec: Codec<ChannelType, M>, channel: ChannelType, messages: seq<M>)
    requires Links.Sendable(codec, channel, messages)
    ensures Sized(Opening(codec, channel, messages))
  {
    forall i | 0 <= i < |messages|
      ensures |Payloads(codec, messages)[i]| <= MAX_MESSAGE_SIZE
    {
      assert Links.Fits(codec, channel, messages[i]);
    }
  }

  // Some of what was written has arrived: its reading is a beginning of the opening.
  lemma ArrivedReading<M(!new)>(codec: Codec<ChannelType, M>, channel: ChannelType, messages: seq<M>, bytes: seq<byte>)
    requires codec.Lawful() && Links.Sendable(codec, channel, messages)
    requires bytes <= Frames(Opening(codec, channel, messages))
    ensures Parse(bytes).messages <= Opening(codec, channel, messages) && Incomplete(Parse(bytes).tail)
    ensures bytes == Frames(Opening(codec, channel, messages)) ==>
            Parse(bytes).messages == Opening(codec, channel, messages)
  {
    var all := Opening(codec, channel, messages);
    OpeningIsSized(codec, channel, messages);
    var rest := Frames(all)[|bytes|..];
    assert Frames(all) == bytes + rest;
    ParseOfPrefix(all, bytes, rest);
    if rest == [] {
      RoundTrip(all);
    }
  }

  lemma VerdictOnOpening<M(!new)>(codec: Codec<ChannelType, M>, channel: ChannelType, messages: seq<M>,
      bytes: seq<byte>)
    requires codec.Lawful() && Links.Sendable(codec, channel, messages)
    requires bytes <= Frames(Opening(codec, channel, messages))
    ensures Verdict(codec, bytes) == if Parse(bytes).messages == [] then Closed else Identified(channel)
  {
    ArrivedReading(codec, channel, messages, bytes);
    if Parse(bytes).messages != [] {
      assert Complete(bytes) && HeadPayload(bytes) == [codec.toId(channel)];
    }
  }

  // Behind the id frame come the messages.
  lemma DecodedOpening<M(!new)>(codec: Codec<ChannelType, M>, channel: ChannelType, messages: seq<M>,
      read: seq<seq<byte>>)
    requires codec.Lawful() && Links.Sendable(codec, channel, messages)
    requires read != [] && read <= Opening(codec, channel, messages)
    ensures DecodeAll(codec, channel, read[1..]) == messages[..|read| - 1]
  {
    var got := messages[..|read| - 1];
    assert read[1..] == Payloads(codec, got);
    assert forall i | 0 <= i < |got| :: Links.Fits(codec, channel, messages[i]);
    Links.DecodeInvertsEncode(codec, channel, got);
  }

  // However the bytes are cut, and however much of them has arrived: the server's task knows the channel
  // by its type or is still waiting for the id frame, and has forwarded a beginning of the messages the
  // client wrote.  If everything has arrived it has identified the channel, and if the id frame was
  // complete before the last chunk, it has forwarded all of them.
  method ServerReadsClient<M(!new)>(codec: Codec<ChannelType, M>, ghost channel: ChannelType, ghost messages: seq<M>,
      chunks: seq<seq<byte>>)
      returns (outcome: Identification<ChannelType>, used: nat, forwarded: seq<M>)
    requires codec.Lawful() && Links.Sendable(codec, channel, messages)
    requires Flatten(chunks) <= Frames(Opening(codec, channel, messages))
    ensures outcome == Identified(channel) || (outcome == Closed && forwarded == [])
    ensures forwarded <= messages
    ensures Flatten(chunks) == Frames(Opening(codec, channel, messages)) ==>
              && outcome == Identified(channel) && FirstItemAt(chunks, used)
              && forwarded == if used < |chunks| then messages else []
  {
    ArrivedReading(codec, channel, messages, Flatten(chunks));
    VerdictOnOpening(codec, channel, messages, Flatten(chunks));
    outcome, used, forwarded := ReadChannel(codec, chunks);
    if outcome.Identified? && used < |chunks| {
      DecodedOpening(codec, channel, messages, Parse(Flatten(chunks)).messages);
    }
  }
}
