/**
 * Length-prefixed framing: a four-byte big-endian length followed by that many bytes.
 *
 * The reference definition is `IsParse`: a stream is a list of frames followed by a tail that
 * yields nothing.  Such a reading is unique (`ParseUnique`), so every reader that is shown to
 * produce one has produced the only one, whatever chunks it was fed.
 */
module Framing {
  import opened Wrappers

  type byte = x: int | 0 <= x < 256

  const MAX_MESSAGE_SIZE: nat := 10 * 1024 * 1024

  // One item of `MessageIterator`: a message, or `FramingError::InvalidFrame`.
  datatype FrameResult = Frame(payload: seq<byte>) | InvalidFrame(len: nat)

  // ---------- frames ----------

  // The `width` bytes of `n`, most significant first.
  function BigEndian(n: nat, width: nat): (r: seq<byte>)
    ensures |r| == width
  {
    if width == 0 then [] else BigEndian(n / 256, width - 1) + [n % 256]
  }

  function BigEndianValue(b: seq<byte>): nat {
    if b == [] then 0 else BigEndianValue(b[..|b| - 1]) * 256 + b[|b| - 1] as int
  }

  function Pow256(width: nat): nat {
    if width == 0 then 1 else Pow256(width - 1) * 256
  }

  lemma {:induction false} BigEndianRoundTrip(n: nat, width: nat)
    requires n < Pow256(width)
    ensures BigEndianValue(BigEndian(n, width)) == n
  {
    if width == 0 {
    } else {
      BigEndianRoundTrip(n / 256, width - 1);
      assert BigEndian(n, width)[..width - 1] == BigEndian(n / 256, width - 1);
    }
  }

  lemma {:induction false} BigEndianOfValue(b: seq<byte>)
    ensures BigEndianValue(b) < Pow256(|b|)
    ensures BigEndian(BigEndianValue(b), |b|) == b
  {
    if b == [] {
    } else {
      BigEndianOfValue(b[..|b| - 1]);
    }
  }

  const U32_WIDTH: nat := 4

  // `(n as u32).to_be_bytes()`
  function U32ToBytes(n: nat): (r: seq<byte>)
    ensures |r| == 4 && U32FromBytes(r) == Wrap32(n)
  {
    BigEndianRoundTrip(Wrap32(n), U32_WIDTH);
    var r := BigEndian(Wrap32(n), U32_WIDTH);
    assert r[..4] == r;
    r
  }

  // `u32::from_be_bytes` of the first four bytes
  function U32FromBytes(b: seq<byte>): (n: nat)
    requires |b| >= 4
    ensures n < U32_MODULUS
  {
    BigEndianOfValue(b[..4]);
    BigEndianValue(b[..4])
  }

  function FrameMessage(payload: seq<byte>): (r: seq<byte>)
    ensures |r| == 4 + |payload|
  {
    U32ToBytes(|payload|) + payload
  }

  // The header on the wire: the length cut to 32 bits, its most significant byte first.
  lemma BytesOfTheHeader(payload: seq<byte>)
    ensures var n := Wrap32(|payload|);
            FrameMessage(payload)[..4] == [n / 0x100_0000, n / 0x1_0000 % 256, n / 0x100 % 256, n % 256]
    ensures FrameMessage(payload)[4..] == payload
  {
    var n := Wrap32(|payload|);
    FourBytes(n);
    DivideTwice(n);
    assert FrameMessage(payload)[..4] == U32ToBytes(|payload|);
  }

  lemma FourBytes(n: nat)
    requires n < U32_MODULUS
    ensures BigEndian(n, 4) == [n / 256 / 256 / 256 % 256, n / 256 / 256 % 256, n / 256 % 256, n % 256]
  {
    assert BigEndian(n / 256 / 256 / 256, 1) == [n / 256 / 256 / 256 % 256] by {
      assert BigEndian(n / 256 / 256 / 256 / 256, 0) == [];
    }
    assert BigEndian(n / 256 / 256, 2) == BigEndian(n / 256 / 256 / 256, 1) + [n / 256 / 256 % 256];
    assert BigEndian(n / 256, 3) == BigEndian(n / 256 / 256, 2) + [n / 256 % 256];
  }

  lemma DivideTwice(n: nat)
    requires n < U32_MODULUS
    ensures n / 256 / 256 == n / 0x1_0000 && n / 256 / 256 / 256 == n / 0x100_0000 < 256
  {
  }

  function Frames(payloads: seq<seq<byte>>): seq<byte> {
    if payloads == [] then [] else FrameMessage(payloads[0]) + Frames(payloads[1..])
  }

  predicate Sized(payloads: seq<seq<byte>>) {
    forall i | 0 <= i < |payloads| :: |payloads[i]| <= MAX_MESSAGE_SIZE
  }

  // More bytes are needed before anything can be said.
  predicate Incomplete(b: seq<byte>) {
    |b| < 4 || (U32FromBytes(b) <= MAX_MESSAGE_SIZE && |b| < 4 + U32FromBytes(b))
  }

  // The next length prefix is larger than any frame may be.
  predicate Corrupt(b: seq<byte>) {
    |b| >= 4 && U32FromBytes(b) > MAX_MESSAGE_SIZE
  }

  // A complete frame is at the front.
  predicate Complete(b: seq<byte>) {
    |b| >= 4 && U32FromBytes(b) <= MAX_MESSAGE_SIZE && |b| >= 4 + U32FromBytes(b)
  }

  function HeadPayload(b: seq<byte>): (p: seq<byte>)
    requires Complete(b)
    ensures |p| <= MAX_MESSAGE_SIZE
    ensures b == FrameMessage(p) + AfterHead(b)
  {
    HeaderBytes(b);
    b[4..4 + U32FromBytes(b)]
  }

  function AfterHead(b: seq<byte>): (r: seq<byte>)
    requires Complete(b)
    ensures |r| < |b|
  {
    b[4 + U32FromBytes(b)..]
  }

  lemma HeaderBytes(b: seq<byte>)
    requires |b| >= 4
    ensures U32ToBytes(U32FromBytes(b)) == b[..4]
  {
    BigEndianOfValue(b[..4]);
    assert |b[..4]| == U32_WIDTH;
  }

  // Framing is invertible at the front of a stream exactly up to the size limit: a larger
  // payload is never read back, whether its length is refused or was cut to 32 bits.
  lemma FrameReadBack(p: seq<byte>, rest: seq<byte>)
    ensures var s := FrameMessage(p) + rest;
            (Complete(s) && HeadPayload(s) == p && AfterHead(s) == rest) <==> |p| <= MAX_MESSAGE_SIZE
  {
    var s := FrameMessage(p) + rest;
    assert s[..4] == U32ToBytes(|p|);
    assert U32ToBytes(|p|)[..4] == U32ToBytes(|p|);
    if |p| <= MAX_MESSAGE_SIZE {
      assert s[4..4 + |p|] == p && s[4 + |p|..] == rest;
    }
  }

  lemma {:induction false} FramesConcat(a: seq<seq<byte>>, b: seq<seq<byte>>)
    ensures Frames(a + b) == Frames(a) + Frames(b)
  {
    if a == [] {
      assert a + b == b;
    } else {
      FramesConcat(a[1..], b);
      assert (a + b)[1..] == a[1..] + b;
      ConcatAssociative(FrameMessage(a[0]), Frames(a[1..]), Frames(b));
    }
  }

  lemma FramesSnoc(a: seq<seq<byte>>, p: seq<byte>)
    ensures Frames(a + [p]) == Frames(a) + FrameMessage(p)
  {
    FramesConcat(a, [p]);
    assert Frames([p]) == FrameMessage(p) + Frames([]);
  }

  // ---------- the reading of a stream ----------

  datatype Parsed = Parsed(messages: seq<seq<byte>>, tail: seq<byte>)

  ghost predicate IsParse(stream: seq<byte>, p: Parsed) {
    && stream == Frames(p.messages) + p.tail
    && Sized(p.messages)
    && !Complete(p.tail)
  }

  // The one-shot reader of a whole stream; it stops at the first bad length.
  function Parse(stream: seq<byte>): (p: Parsed)
    ensures IsParse(stream, p)
    decreases |stream|
  {
    if Complete(stream) then
      var rest := Parse(AfterHead(stream));
      var r := Parsed([HeadPayload(stream)] + rest.messages, rest.tail);
      assert r.messages[1..] == rest.messages;
      r
    else
      Parsed([], stream)
  }

  lemma ParseStep(p: seq<byte>, rest: seq<byte>)
    requires |p| <= MAX_MESSAGE_SIZE
    ensures Parse(FrameMessage(p) + rest) == Parsed([p] + Parse(rest).messages, Parse(rest).tail)
  {
    FrameReadBack(p, rest);
  }

  lemma {:induction false} ParseBehindFrames(payloads: seq<seq<byte>>, rest: seq<byte>)
    requires Sized(payloads)
    ensures Parse(Frames(payloads) + rest) == Parsed(payloads + Parse(rest).messages, Parse(rest).tail)
  {
    if payloads == [] {
      assert Frames(payloads) + rest == rest;
    } else {
      ParseBehindFrames(payloads[1..], rest);
      ParseStep(payloads[0], Frames(payloads[1..]) + rest);
      ConcatAssociative(FrameMessage(payloads[0]), Frames(payloads[1..]), rest);
      ConcatAssociative([payloads[0]], payloads[1..], Parse(rest).messages);
      HeadAndTail(payloads);
    }
  }

  lemma ParseUnique(stream: seq<byte>, p: Parsed)
    requires IsParse(stream, p)
    ensures Parse(stream) == p
  {
    ParseBehindFrames(p.messages, p.tail);
  }

  // What more bytes do to a reading: they continue from the tail.
  lemma ParseAppend(s: seq<byte>, t: seq<byte>)
    ensures Parse(s + t) == Parsed(Parse(s).messages + Parse(Parse(s).tail + t).messages,
                                   Parse(Parse(s).tail + t).tail)
  {
    var p := Parse(s);
    ParseBehindFrames(p.messages, p.tail + t);
    ConcatAssociative(Frames(p.messages), p.tail, t);
  }

  lemma CorruptIsStable(b: seq<byte>, t: seq<byte>)
    requires Corrupt(b)
    ensures Corrupt(b + t) && Parse(b + t) == Parsed([], b + t)
  {
    assert (b + t)[..4] == b[..4];
  }

  // Behind a bad length everything is lost, whatever it is.
  lemma ParseBehindCorrupt(s: seq<byte>, t: seq<byte>)
    requires Corrupt(Parse(s).tail)
    ensures Parse(s + t) == Parsed(Parse(s).messages, Parse(s).tail + t)
    ensures Corrupt(Parse(s).tail + t)
  {
    ParseAppend(s, t);
    CorruptIsStable(Parse(s).tail, t);
    NothingMore(Parse(s).messages);
  }

  lemma NothingMore<T>(s: seq<T>)
    ensures s + [] == s
  {
  }

  // A stream cut inside its first frame yields nothing yet.
  lemma CutInFirstFrame(payload: seq<byte>, rest: seq<byte>, x: seq<byte>, y: seq<byte>)
    requires |payload| <= MAX_MESSAGE_SIZE && FrameMessage(payload) + rest == x + y
    requires |x| < 4 + |payload|
    ensures Incomplete(x) && Parse(x) == Parsed([], x)
  {
    FrameReadBack(payload, rest);
    if |x| >= 4 {
      assert x[..4] == (x + y)[..4] == (FrameMessage(payload) + rest)[..4];
    }
  }

  // Feeding any prefix of a well-formed stream yields the payloads in order, never a bad length,
  // and leaves the beginning of the next frame.
  lemma {:induction false} ParseOfPrefix(payloads: seq<seq<byte>>, x: seq<byte>, y: seq<byte>)
    requires Sized(payloads) && Frames(payloads) == x + y
    ensures Parse(x).messages <= payloads
    ensures Parse(x).tail + y == Frames(payloads[|Parse(x).messages|..])
    ensures Incomplete(Parse(x).tail)
  {
    if payloads == [] {
      assert x == [] && y == [];
      assert payloads[0..] == [];
    } else {
      var first, rest := payloads[0], payloads[1..];
      var n := 4 + |first|;
      if n <= |x| {
        CutAfterFirstFrame(first, Frames(rest), x, y);
        ParseStep(first, x[n..]);
        ParseOfPrefix(rest, x[n..], y);
        assert payloads[|Parse(x).messages|..] == rest[|Parse(x[n..]).messages|..];
        assert rest[..|Parse(x[n..]).messages|] == Parse(x[n..]).messages;
      } else {
        CutInFirstFrame(first, Frames(rest), x, y);
        assert payloads[0..] == payloads;
      }
    }
  }

  lemma CutAfterFirstFrame(payload: seq<byte>, rest: seq<byte>, x: seq<byte>, y: seq<byte>)
    requires FrameMessage(payload) + rest == x + y && 4 + |payload| <= |x|
    ensures x == FrameMessage(payload) + x[4 + |payload|..]
    ensures rest == x[4 + |payload|..] + y
  {
    var n := 4 + |payload|;
    assert x[..n] == (x + y)[..n] == FrameMessage(payload);
    assert (x + y)[n..] == x[n..] + y;
  }

  // ... exactly those whose frames are complete in the prefix.
  lemma PrefixYieldsCompleteFrames(payloads: seq<seq<byte>>, n: nat)
    requires Sized(payloads) && n <= |Frames(payloads)|
    ensures var k := |Parse(Frames(payloads)[..n]).messages|;
            && k <= |payloads| && Parse(Frames(payloads)[..n]).messages == payloads[..k]
            && |Frames(payloads[..k])| <= n
            && (k < |payloads| ==> n < |Frames(payloads[..k + 1])|)
  {
    var x, y := Frames(payloads)[..n], Frames(payloads)[n..];
    assert x + y == Frames(payloads);
    ParseOfPrefix(payloads, x, y);
    var k := |Parse(x).messages|;
    if k < |payloads| {
      assert payloads[..k + 1] == payloads[..k] + [payloads[k]];
      FramesSnoc(payloads[..k], payloads[k]);
      var tail, rest := Parse(x).tail, payloads[k..];
      if 4 + |payloads[k]| <= |tail| {
        CutAfterFirstFrame(payloads[k], Frames(rest[1..]), tail, y);
        FrameReadBack(payloads[k], tail[4 + |payloads[k]|..]);
        assert false;
      }
    }
  }

  // Round trip: the whole stream gives the whole list and leaves nothing behind.
  lemma RoundTrip(payloads: seq<seq<byte>>)
    ensures Parse(Frames(payloads)) == Parsed(payloads, []) <==> Sized(payloads)
  {
    if Sized(payloads) {
      ParseUnique(Frames(payloads), Parsed(payloads, []));
    }
  }

  // What is kept between reads is bounded.
  lemma RetainedIsBounded(b: seq<byte>)
    requires Incomplete(b)
    ensures |b| <= MAX_MESSAGE_SIZE + 3
  {
  }

  // ---------- the incremental buffer ----------

  class MessageBuffer {
    var buffer: seq<byte>

    constructor ()
      ensures buffer == []
    {
      buffer := [];
    }

    // `push` extends the buffer; draining is left to the iterator.
    method Push(data: seq<byte>)
      modifies this
      ensures buffer == old(buffer) + data
    {
      buffer := buffer + data;
    }

    // `MessageIterator::next`.  Every result strictly shrinks the buffer.
    method TryExtract() returns (r: Option<FrameResult>)
      modifies this
      ensures r.None? ==> buffer == old(buffer) && Incomplete(buffer)
      ensures r.Some? ==> |buffer| < |old(buffer)|
      ensures r.Some? && r.value.Frame? ==>
                old(buffer) == FrameMessage(r.value.payload) + buffer && |r.value.payload| <= MAX_MESSAGE_SIZE
      ensures r.Some? && r.value.InvalidFrame? ==>
                Corrupt(old(buffer)) && r.value.len == U32FromBytes(old(buffer)) && buffer == []
    {
      if |buffer| < 4 {
        return None;
      }
      var len := U32FromBytes(buffer);
      if len > MAX_MESSAGE_SIZE {
        buffer := [];
        return Some(InvalidFrame(len));
      }
      if |buffer| < 4 + len {
        return None;
      }
      HeaderBytes(buffer);
      var message := buffer[4..4 + len];
      buffer := buffer[4 + len..];
      return Some(Frame(message));
    }

    // `for result in buffer.push(&data)` run until the iterator ends or an error stops it: the
    // drained messages are the reading of what was held plus what came.
    method Drain(data: seq<byte>) returns (messages: seq<seq<byte>>, failed: bool)
      modifies this
      ensures messages == Parse(old(buffer) + data).messages
      ensures failed == Corrupt(Parse(old(buffer) + data).tail)
      ensures buffer == if failed then [] else Parse(old(buffer) + data).tail
      ensures Incomplete(buffer) && |buffer| <= MAX_MESSAGE_SIZE + 3
    {
      ghost var stream := buffer + data;
      Push(data);
      messages, failed := [], false;
      ghost var before := stream;
      var next := TryExtract();
      while next.Some? && next.value.Frame?
        invariant stream == Frames(messages) + before && Sized(messages)
        invariant next.None? ==> buffer == before && Incomplete(buffer)
        invariant next.Some? && next.value.Frame? ==>
                    before == FrameMessage(next.value.payload) + buffer && |next.value.payload| <= MAX_MESSAGE_SIZE
        invariant next.Some? && next.value.InvalidFrame? ==> Corrupt(before) && buffer == []
        decreases |before|
      {
        FramesSnoc(messages, next.value.payload);
        ConcatAssociative(Frames(messages), FrameMessage(next.value.payload), buffer);
        messages := messages + [next.value.payload];
        before := buffer;
        next := TryExtract();
      }
      failed := next.Some?;
      ParseUnique(stream, Parsed(messages, before));
    }
  }
}
