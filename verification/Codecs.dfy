/** What the framework asks of a game's message type, and nothing more. */
module Codecs {
  import opened Wrappers
  import opened Framing

  // The `ChannelMessage` trait.  `encode` and `decode` may fail.
  datatype Codec<!C(!new), !M(!new)> = Codec(
    channelOf: M -> Option<C>,
    encode: M -> Option<seq<byte>>,
    decode: (C, seq<byte>) -> Option<M>,
    toId: C -> byte,
    fromId: byte -> Option<C>)
  {
    // A message decodes, on its own channel, to itself; ids name channels.
    ghost predicate Lawful() {
      && (forall m | channelOf(m).Some? && encode(m).Some? ::
            decode(channelOf(m).value, encode(m).value) == Some(m))
      && (forall c :: fromId(toId(c)) == Some(c))
    }
  }

  // Payloads that do not decode are logged and skipped.
  function DecodeAll<C(!new), M(!new)>(codec: Codec<C, M>, channel: C, payloads: seq<seq<byte>>): seq<M> {
    if payloads == [] then []
    else
      var rest := DecodeAll(codec, channel, payloads[1..]);
      var m := codec.decode(channel, payloads[0]);
      if m.Some? then [m.value] + rest else rest
  }

  // What fails to decode costs nothing but itself.
  lemma DecodeAllOfOne<C(!new), M(!new)>(codec: Codec<C, M>, channel: C, payload: seq<byte>, m: M)
    ensures codec.decode(channel, payload) == Some(m) ==> DecodeAll(codec, channel, [payload]) == [m]
    ensures codec.decode(channel, payload).None? ==> DecodeAll(codec, channel, [payload]) == []
  {
    assert DecodeAll(codec, channel, []) == [];
  }

  lemma {:induction false} DecodeAllConcat<C(!new), M(!new)>(codec: Codec<C, M>, channel: C, a: seq<seq<byte>>,
      b: seq<seq<byte>>)
    ensures DecodeAll(codec, channel, a + b) == DecodeAll(codec, channel, a) + DecodeAll(codec, channel, b)
  {
    if a == [] {
      assert a + b == b;
    } else {
      DecodeAllConcat(codec, channel, a[1..], b);
      assert (a + b)[1..] == a[1..] + b;
    }
  }
}
