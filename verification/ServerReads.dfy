/**
 * The reads of one server channel task: first the frame that names the channel type, then the
 * messages.  One buffer serves both phases, so bytes that arrive together with the id frame are
 * kept, but they are looked at only when the next chunk comes.
 */
module ServerReads {
  import opened Wrappers
  import opened Framing
  import opened Codecs

  datatype Identification<C> = Identified(channel: C) | Refused | Closed

  // The verdict on the first item of the stream, however it was cut.
  function Verdict<C(!new), M(!new)>(codec: Codec<C, M>, stream: seq<byte>): Identification<C> {
    if Incomplete(stream) then Closed
    else if Corrupt(stream) then Refused
    else
      var id := HeadPayload(stream);
      if |id| == 1 && codec.fromId(id[0]).Some? then Identified(codec.fromId(id[0]).value) else Refused
  }

  // The id frame must be one byte that names a channel type; a length above the limit is refused as soon
  // as the header is there, and without a whole frame there is no verdict but that the stream closed.
  lemma OneKnownByteIdentifies<C(!new), M(!new)>(codec: Codec<C, M>, id: seq<byte>, rest: seq<byte>)
    requires |id| <= MAX_MESSAGE_SIZE
    ensures |id| != 1 ==> Verdict(codec, FrameMessage(id) + rest) == Refused
    ensures |id| == 1 && codec.fromId(id[0]).None? ==> Verdict(codec, FrameMessage(id) + rest) == Refused
    ensures |id| == 1 && codec.fromId(id[0]).Some? ==>
              Verdict(codec, FrameMessage(id) + rest) == Identified(codec.fromId(id[0]).value)
  {
    FrameReadBack(id, rest);
  }

  lemma VerdictWithoutFrame<C(!new), M(!new)>(codec: Codec<C, M>, stream: seq<byte>)
    ensures |stream| < 4 ==> Verdict(codec, stream) == Closed
    ensures |stream| >= 4 && U32FromBytes(stream) > MAX_MESSAGE_SIZE ==> Verdict(codec, stream) == Refused
    ensures |stream| >= 4 && U32FromBytes(stream) <= MAX_MESSAGE_SIZE && |stream| < 4 + U32FromBytes(stream) ==>
              Verdict(codec, stream) == Closed
  {
  }

  // The number of chunks up to and including the one that completes the first item.
  ghost predicate FirstItemAt(chunks: seq<seq<byte>>, k: nat) {
    && 0 < k <= |chunks|
    && Incomplete(Flatten(chunks[..k - 1]))
    && !Incomplete(Flatten(chunks[..k]))
  }

  lemma FirstItemIsStable(s: seq<byte>, t: seq<byte>)
    requires !Incomplete(s)
    ensures Corrupt(s) ==> Corrupt(s + t)
    ensures Complete(s) ==>
            Complete(s + t) && HeadPayload(s + t) == HeadPayload(s) && AfterHead(s + t) == AfterHead(s) + t
  {
    assert (s + t)[..4] == s[..4];
    if Complete(s) {
      var n := 4 + U32FromBytes(s);
      assert (s + t)[4..n] == s[4..n];
      assert (s + t)[n..] == s[n..] + t;
    }
  }

  // The identification loop.  `used` chunks are read; the rest of the last one stays in the buffer.
  method Identify<C(!new), M(!new)>(codec: Codec<C, M>, buffer: MessageBuffer, chunks: seq<seq<byte>>)
      returns (outcome: Identification<C>, used: nat)
    requires buffer.buffer == []
    modifies buffer
    ensures outcome == Verdict(codec, Flatten(chunks))
    ensures outcome.Closed? ==> used == |chunks|
    ensures !outcome.Closed? ==> FirstItemAt(chunks, used)
    ensures outcome.Identified? ==>
              Complete(Flatten(chunks[..used])) && buffer.buffer == AfterHead(Flatten(chunks[..used]))
  {
    used := 0;
    assert chunks[..0] == [];
    while used < |chunks|
      invariant used <= |chunks|
      invariant buffer.buffer == Flatten(chunks[..used]) && Incomplete(buffer.buffer)
    {
      ghost var seen := Flatten(chunks[..used + 1]);
      FlattenTake(chunks, used);
      buffer.Push(chunks[used]);
      var item := buffer.TryExtract();
      used := used + 1;
      if item.Some? {
        if used < |chunks| { FlattenTake(chunks, used); } else { assert chunks[..used] == chunks; }
        if item.value.Frame? {
          FrameReadBack(item.value.payload, buffer.buffer);
        }
        assert Flatten(chunks) == seen + if used < |chunks| then Flatten(chunks[used..]) else [];
        FirstItemIsStable(seen, if used < |chunks| then Flatten(chunks[used..]) else []);
        match item.value {
          case Frame(id) =>
            if |id| == 1 {
              var channel := codec.fromId(id[0]);
              if channel.Some? {
                return Identified(channel.value), used;
              }
            }
            return Refused, used;
          case InvalidFrame(_) =>
            return Refused, used;
        }
      }
    }
    assert chunks[..used] == chunks;
    return Closed, used;
  }

  // The frames handed to `decode` when `held` bytes are waiting and `chunks` arrive.  After a bad
  // length only the current chunk is given up: reading goes on with the next one.
  function FramesServed(held: seq<byte>, chunks: seq<seq<byte>>): seq<seq<byte>>
    decreases |chunks|
  {
    if chunks == [] then []
    else
      var p := Parse(held + chunks[0]);
      p.messages + FramesServed(if Corrupt(p.tail) then [] else p.tail, chunks[1..])
  }

  // The message loop.
  method Serve<C(!new), M(!new)>(codec: Codec<C, M>, channel: C, buffer: MessageBuffer, chunks: seq<seq<byte>>)
      returns (forwarded: seq<M>)
    modifies buffer
    ensures forwarded == DecodeAll(codec, channel, FramesServed(old(buffer.buffer), chunks))
  {
    forwarded := [];
    ghost var payloads: seq<seq<byte>> := [];
    var i := 0;
    while i < |chunks|
      invariant 0 <= i <= |chunks|
      invariant FramesServed(old(buffer.buffer), chunks) == payloads + FramesServed(buffer.buffer, chunks[i..])
      invariant forwarded == DecodeAll(codec, channel, payloads)
    {
      assert chunks[i..][1..] == chunks[i + 1..];
      var drained, failed := buffer.Drain(chunks[i]);
      DecodeAllConcat(codec, channel, payloads, drained);
      ConcatAssociative(payloads, drained, FramesServed(buffer.buffer, chunks[i + 1..]));
      payloads := payloads + drained;
      forwarded := forwarded + DecodeAll(codec, channel, drained);
      i := i + 1;
    }
    assert payloads + [] == payloads;
  }

  // Chunk by chunk or at once: the frames served are those of the stream, up to a bad length.
  lemma {:induction false} ServedIsParse(held: seq<byte>, chunks: seq<seq<byte>>)
    requires chunks != []
    ensures Parse(held + Flatten(chunks)).messages <= FramesServed(held, chunks)
    ensures !Corrupt(Parse(held + Flatten(chunks)).tail) ==>
              FramesServed(held, chunks) == Parse(held + Flatten(chunks)).messages
    decreases |chunks|
  {
    var s, rest := held + chunks[0], chunks[1..];
    var q := Parse(s);
    ConcatAssociative(held, chunks[0], Flatten(rest));
    if Corrupt(q.tail) {
      ParseBehindCorrupt(s, Flatten(rest));
    } else if rest == [] {
      assert held + Flatten(chunks) == s;
      assert q.messages + [] == q.messages;
    } else {
      ParseAppend(s, Flatten(rest));
      ServedIsParse(q.tail, rest);
      PrefixBehind(q.messages, Parse(q.tail + Flatten(rest)).messages, FramesServed(q.tail, rest));
    }
  }

  lemma PrefixBehind<T>(a: seq<T>, b: seq<T>, c: seq<T>)
    requires b <= c
    ensures a + b <= a + c
  {
  }

  // The stream seen from behind the id frame.
  lemma BehindIdFrame(chunks: seq<seq<byte>>, used: nat)
    requires used < |chunks| && Complete(Flatten(chunks[..used]))
    ensures var p := Parse(Flatten(chunks));
            var q := Parse(AfterHead(Flatten(chunks[..used])) + Flatten(chunks[used..]));
            && Complete(Flatten(chunks))
            && p.messages == [HeadPayload(Flatten(chunks))] + q.messages && p.tail == q.tail
  {
    FlattenTake(chunks, used);
    FirstItemIsStable(Flatten(chunks[..used]), Flatten(chunks[used..]));
  }

  // Decoding keeps prefixes.
  lemma DecodePrefix<C(!new), M(!new)>(codec: Codec<C, M>, channel: C, a: seq<seq<byte>>, b: seq<seq<byte>>)
    requires a <= b
    ensures DecodeAll(codec, channel, a) <= DecodeAll(codec, channel, b)
  {
    DecodeAllConcat(codec, channel, a, b[|a|..]);
    assert a + b[|a|..] == b;
  }

  // Both phases.  With the id frame completed by chunk `used`: nothing is forwarded if that was the
  // last chunk; otherwise exactly the frames behind the id frame are, none lost and none twice, up
  // to the first bad length.
  method ReadChannel<C(!new), M(!new)>(codec: Codec<C, M>, chunks: seq<seq<byte>>)
      returns (outcome: Identification<C>, used: nat, forwarded: seq<M>)
    ensures outcome == Verdict(codec, Flatten(chunks))
    ensures !outcome.Closed? ==> FirstItemAt(chunks, used)
    ensures !outcome.Identified? ==> forwarded == []
    ensures outcome.Identified? && used == |chunks| ==> forwarded == []
    ensures outcome.Identified? ==>
              && Complete(Flatten(chunks[..used]))
              && forwarded
                  == DecodeAll(codec, outcome.channel, FramesServed(AfterHead(Flatten(chunks[..used])), chunks[used..]))
    ensures outcome.Identified? && used < |chunks| ==>
              var p := Parse(Flatten(chunks));
              && p.messages != [] && p.messages[0] == HeadPayload(Flatten(chunks))
              && DecodeAll(codec, outcome.channel, p.messages[1..]) <= forwarded
              && (!Corrupt(p.tail) ==> forwarded == DecodeAll(codec, outcome.channel, p.messages[1..]))
  {
    var buffer := new MessageBuffer();
    outcome, used := Identify(codec, buffer, chunks);
    forwarded := [];
    if outcome.Identified? && used < |chunks| {
      BehindIdFrame(chunks, used);
      ServedIsParse(buffer.buffer, chunks[used..]);
      DecodePrefix(codec, outcome.channel, Parse(Flatten(chunks)).messages[1..],
          FramesServed(buffer.buffer, chunks[used..]));
      forwarded := Serve(codec, outcome.channel, buffer, chunks[used..]);
    }
  }

  // ---------- where chunking matters ----------

  // No complete frame starts at `from` or later.
  ghost predicate Barren(b: seq<byte>, from: nat) {
    forall j | from <= j <= |b| :: !Complete(b[j..])
  }

  lemma BarrenBehind(a: seq<byte>, b: seq<byte>, i: nat, k: nat)
    requires Barren(a + b, i) && i <= |a| + k
    ensures Barren(b, k)
  {
    forall j | k <= j <= |b|
      ensures !Complete(b[j..])
    {
      assert (a + b)[|a| + j..] == b[j..];
    }
  }

  // Such bytes yield nothing, however they come.
  lemma {:induction false} BarrenServesNothing(held: seq<byte>, chunks: seq<seq<byte>>)
    requires Barren(held + Flatten(chunks), 0)
    ensures FramesServed(held, chunks) == []
    decreases |chunks|
  {
    if chunks == [] {
    } else {
      var s, rest := held + chunks[0], Flatten(chunks[1..]);
      ConcatAssociative(held, chunks[0], rest);
      assert !Complete(s) by {
        assert (s + rest)[0..] == s + rest;
        if Complete(s) { FirstItemIsStable(s, rest); }
      }
      if Corrupt(s) {
        BarrenBehind(s, rest, 0, 0);
        assert [] + rest == rest;
        BarrenServesNothing([], chunks[1..]);
      } else {
        BarrenServesNothing(s, chunks[1..]);
      }
    }
  }

  // The first place behind the header after the last good frame at which a chunk can begin, when
  // `held` is already there as the chunks come.
  function FirstCut(held: seq<byte>, bytes: seq<byte>): nat {
    var header := |Frames(Parse(held + bytes).messages)| + 4;
    if header >= |held| then header else |held|
  }

  // Nothing that a cut behind the bad length could bring back.
  ghost predicate NothingToResume(held: seq<byte>, bytes: seq<byte>) {
    Corrupt(Parse(held + bytes).tail) ==> Barren(held + bytes, FirstCut(held, bytes))
  }

  // The bad length came with a chunk: what follows it yields nothing.
  lemma NothingAfterBadChunk(held: seq<byte>, chunk: seq<byte>, rest: seq<byte>)
    requires Corrupt(Parse(held + chunk).tail) && NothingToResume(held, chunk + rest)
    ensures Barren(rest, 0)
  {
    ConcatAssociative(held, chunk, rest);
    ParseBehindCorrupt(held + chunk, rest);
    BarrenBehind(held + chunk, rest, FirstCut(held, chunk + rest), 0);
  }

  lemma ReadOn(s: seq<byte>, rest: seq<byte>)
    ensures var q := Parse(s);
            && s + rest == Frames(q.messages) + (q.tail + rest)
            && Parse(s + rest).tail == Parse(q.tail + rest).tail
            && |Frames(Parse(s + rest).messages)| == |Frames(q.messages)| + |Frames(Parse(q.tail + rest).messages)|
  {
    var q := Parse(s);
    ParseAppend(s, rest);
    FramesConcat(q.messages, Parse(q.tail + rest).messages);
    ConcatAssociative(Frames(q.messages), q.tail, rest);
  }

  // A chunk moves the places where chunks begin, but none forward.
  lemma CutAfterChunk(held: seq<byte>, chunk: seq<byte>, rest: seq<byte>)
    ensures FirstCut(held, chunk + rest) <= |Frames(Parse(held + chunk).messages)| +
            FirstCut(Parse(held + chunk).tail, rest)
  {
    ConcatAssociative(held, chunk, rest);
    ReadOn(held + chunk, rest);
  }

  // The bad length is yet to come.
  lemma NothingAfterGoodChunk(held: seq<byte>, chunk: seq<byte>, rest: seq<byte>)
    requires Corrupt(Parse(held + (chunk + rest)).tail) && NothingToResume(held, chunk + rest)
    ensures NothingToResume(Parse(held + chunk).tail, rest)
  {
    var q := Parse(held + chunk);
    ConcatAssociative(held, chunk, rest);
    ReadOn(held + chunk, rest);
    CutAfterChunk(held, chunk, rest);
    BarrenBehind(Frames(q.messages), q.tail + rest, FirstCut(held, chunk + rest), FirstCut(q.tail, rest));
  }

  // Then the bytes are served as in one piece.
  lemma {:induction false} ServedAsOne(held: seq<byte>, chunks: seq<seq<byte>>)
    requires chunks != [] && NothingToResume(held, Flatten(chunks))
    ensures FramesServed(held, chunks) == Parse(held + Flatten(chunks)).messages
    decreases |chunks|
  {
    if !Corrupt(Parse(held + Flatten(chunks)).tail) {
      ServedIsParse(held, chunks);
    } else {
      var s, rest := held + chunks[0], Flatten(chunks[1..]);
      var q := Parse(s);
      ConcatAssociative(held, chunks[0], rest);
      if Corrupt(q.tail) {
        NothingAfterBadChunk(held, chunks[0], rest);
        ParseBehindCorrupt(s, rest);
        assert [] + rest == rest;
        BarrenServesNothing([], chunks[1..]);
        assert q.messages + [] == q.messages;
      } else {
        NothingAfterGoodChunk(held, chunks[0], rest);
        ParseAppend(s, rest);
        assert chunks[1..] == [] ==> s + rest == s;
        ServedAsOne(q.tail, chunks[1..]);
      }
    }
  }

  // Cutting a stream behind its bad length.
  lemma CutBehindBadLength(s: seq<byte>, j: nat)
    requires Corrupt(Parse(s).tail) && |Frames(Parse(s).messages)| + 4 <= j <= |s|
    ensures Corrupt(Parse(s[..j]).tail)
  {
    var p := Parse(s);
    var k := j - |Frames(p.messages)|;
    TakeBehind(Frames(p.messages), p.tail, k);
    BadHeader(p.tail, k);
    ParseUnique(s[..j], Parsed(p.messages, p.tail[..k]));
  }

  lemma BadHeader(b: seq<byte>, k: nat)
    requires Corrupt(b) && 4 <= k <= |b|
    ensures Corrupt(b[..k]) && !Complete(b[..k])
  {
    assert b[..k][..4] == b[..4];
  }

  lemma TakeBehind<T>(a: seq<T>, b: seq<T>, k: nat)
    requires k <= |b|
    ensures (a + b)[..|a| + k] == a + b[..k]
  {
  }

  // A complete frame behind the bad length is lost in the same chunk and served in a chunk of its own.
  lemma ResumedInTwo(held: seq<byte>, x: seq<byte>, y: seq<byte>)
    requires Corrupt(Parse(held + x).tail)
    ensures FramesServed(held, [x + y]) == Parse(held + x).messages
    ensures FramesServed(held, [x, y]) == Parse(held + x).messages + Parse(y).messages
  {
    ServedOne(held, x + y);
    ConcatAssociative(held, x, y);
    ParseBehindCorrupt(held + x, y);
    var two: seq<seq<byte>> := [x, y];
    assert two[1..] == [y];
    ServedOne([], y);
    assert [] + y == y;
  }

  ghost predicate Chunking(chunks: seq<seq<byte>>, bytes: seq<byte>) {
    chunks != [] && Flatten(chunks) == bytes
  }

  ghost predicate ServedAlike(held: seq<byte>, bytes: seq<byte>) {
    forall a: seq<seq<byte>>, b: seq<seq<byte>> | Chunking(a, bytes) && Chunking(b, bytes) ::
      FramesServed(held, a) == FramesServed(held, b)
  }

  lemma ServedApart(held: seq<byte>, bytes: seq<byte>, a: seq<seq<byte>>, b: seq<seq<byte>>)
    requires Chunking(a, bytes) && Chunking(b, bytes) && |FramesServed(held, a)| != |FramesServed(held, b)|
    ensures !ServedAlike(held, bytes)
  {
  }

  lemma FrameBehindIsServedDifferently(held: seq<byte>, x: seq<byte>, y: seq<byte>)
    requires Corrupt(Parse(held + x).tail) && Complete(y)
    ensures !ServedAlike(held, x + y)
  {
    TwoChunks(x, y);
    ResumedInTwo(held, x, y);
    assert |Parse(y).messages| > 0;
    ServedApart(held, x + y, [x + y], [x, y]);
  }

  lemma FrameAtCut(held: seq<byte>, bytes: seq<byte>, j: nat)
    requires Corrupt(Parse(held + bytes).tail) && FirstCut(held, bytes) <= j <= |held + bytes|
    requires Complete((held + bytes)[j..])
    ensures !ServedAlike(held, bytes)
  {
    var x, y := bytes[..j - |held|], bytes[j - |held|..];
    CutBehindBadLength(held + bytes, j);
    CutBehindHeld(held, bytes, j);
    FrameBehindIsServedDifferently(held, x, y);
  }

  lemma CutBehindHeld<T>(held: seq<T>, bytes: seq<T>, j: nat)
    requires |held| <= j <= |held + bytes|
    ensures var x, y := bytes[..j - |held|], bytes[j - |held|..];
            (held + bytes)[..j] == held + x && (held + bytes)[j..] == y && bytes == x + y
  {
  }

  // Two ways to cut the same bytes can be served differently if and only if they contain a bad length
  // and a complete frame starts at a place behind its header where a chunk can begin: the inner `break`
  // gives up the current chunk only.  For all bytes, and whatever the buffer held before; chunks may be
  // empty.
  lemma ChunkingMattersExactly(held: seq<byte>, bytes: seq<byte>)
    ensures ServedAlike(held, bytes) <==> NothingToResume(held, bytes)
  {
    if NothingToResume(held, bytes) {
      forall a: seq<seq<byte>>, b: seq<seq<byte>> | Chunking(a, bytes) && Chunking(b, bytes)
        ensures FramesServed(held, a) == FramesServed(held, b)
      {
        ServedAsOne(held, a);
        ServedAsOne(held, b);
      }
    } else {
      var j :| FirstCut(held, bytes) <= j <= |held + bytes| && Complete((held + bytes)[j..]);
      FrameAtCut(held, bytes, j);
    }
  }

  lemma TwoChunks(x: seq<byte>, y: seq<byte>)
    ensures Flatten([x + y]) == Flatten([x, y]) == x + y
  {
    var one, two: seq<seq<byte>> := [x + y], [x, y];
    assert one[1..] == [] && two[1..] == [y];
    FlattenConcat([x], [y]);
    assert [x] + [y] == two;
  }

  lemma ServedOne(held: seq<byte>, chunk: seq<byte>)
    ensures FramesServed(held, [chunk]) == Parse(held + chunk).messages
  {
    var one: seq<seq<byte>> := [chunk];
    assert one[1..] == [];
    assert Parse(held + chunk).messages + [] == Parse(held + chunk).messages;
  }
}
