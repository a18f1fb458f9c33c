/** Length-prefixed frames on a byte stream that arrives in arbitrary chunks. */
module Framing {
  import opened Wrappers
  import opened Bytes
  import opened Encoding

  datatype FrameError = MessageTooLong | InvalidFrameLength

  // ---------- Specification ----------

  function Frame(message: bytes, max: nat): Result<bytes, FrameError> {
    if |message| > max || |message| >= U32_LIMIT then Err(MessageTooLong)
    else Ok(WriteU32(|message|) + message)
  }

  /** The messages found in a buffer, what is left of it, and whether a bad length stopped the scan. */
  datatype Parsed = Parsed(messages: seq<bytes>, rest: bytes, bad: bool)

  function Parse(buffer: bytes, max: nat): Parsed {
    if |buffer| < 4 then Parsed([], buffer, false)
    else
      var n := ReadU32(buffer);
      if n == 0 || n > max then Parsed([], buffer, true)
      else if |buffer| < 4 + n then Parsed([], buffer, false)
      else
        var tail := Parse(buffer[4 + n..], max);
        Parsed([buffer[4..4 + n]] + tail.messages, tail.rest, tail.bad)
  }

  /** Lengths that the sender can frame and the receiver accepts. */
  predicate Sendable(message: bytes, max: nat) {
    1 <= |message| <= max && |message| < U32_LIMIT
  }

  predicate AllSendable(messages: seq<bytes>, max: nat) {
    forall i :: 0 <= i < |messages| ==> Sendable(messages[i], max)
  }

  /** The frames of several messages, one after the other. */
  function Frames(messages: seq<bytes>): bytes
    requires forall i :: 0 <= i < |messages| ==> |messages[i]| < U32_LIMIT
  {
    if messages == [] then [] else WriteU32(|messages[0]|) + messages[0] + Frames(messages[1..])
  }

  // ---------- Implementation ----------

  /** A frame is refused only for its length, and a receiver that finds it first in its buffer takes the message out again. */
  method FrameMessage(message: bytes, max: nat) returns (r: Result<bytes, FrameError>)
    ensures r == Frame(message, max)
    ensures r.Ok? <==> |message| <= max && |message| < U32_LIMIT
    ensures r.Ok? && message != [] ==> forall more: bytes ::
      Parse(r.value + more, max) == Parsed([message] + Parse(more, max).messages, Parse(more, max).rest, Parse(more, max).bad)
  {
    hide Parse, WriteU32;
    forall more: bytes | Sendable(message, max)
      ensures Parse(WriteU32(|message|) + message + more, max) ==
        Parsed([message] + Parse(more, max).messages, Parse(more, max).rest, Parse(more, max).bad)
    {
      FrameParse(message, more, max);
    }
    if |message| > max {
      return Err(MessageTooLong);
    }
    if |message| >= U32_LIMIT {
      return Err(MessageTooLong);
    }
    var lengthBuffer := WriteU32(|message|);
    r := Ok(lengthBuffer + message);
  }

  /** Scans with a cursor; the messages are those handed to the callback before any throw. */
  method ParseMessages(buffer: bytes, max: nat) returns (messages: seq<bytes>, r: Result<bytes, FrameError>)
    ensures messages == Parse(buffer, max).messages
    ensures r == if Parse(buffer, max).bad then Err(InvalidFrameLength) else Ok(Parse(buffer, max).rest)
  {
    hide ReadU32, Parse;
    var cursor := 0;
    messages := [];
    assert buffer[0..] == buffer;
    while |buffer| - cursor >= 4
      invariant 0 <= cursor <= |buffer|
      invariant Parse(buffer, max).messages == messages + Parse(buffer[cursor..], max).messages
      invariant Parse(buffer, max).rest == Parse(buffer[cursor..], max).rest
      invariant Parse(buffer, max).bad == Parse(buffer[cursor..], max).bad
      decreases |buffer| - cursor
    {
      var view := buffer[cursor..];
      ParseStep(view, max);
      var messageLength := ReadU32(view);
      if messageLength == 0 || messageLength > max {
        return messages, Err(InvalidFrameLength);
      }
      if |buffer| - cursor >= 4 + messageLength {
        var message := buffer[cursor + 4..cursor + 4 + messageLength];
        SliceOfSlice(buffer, cursor, 4, 4 + messageLength);
        ghost var tail := Parse(buffer[cursor + 4 + messageLength..], max).messages;
        assert messages + ([message] + tail) == (messages + [message]) + tail;
        messages := messages + [message];
        cursor := cursor + 4 + messageLength;
      } else {
        break;
      }
    }
    ParseStep(buffer[cursor..], max);
    r := Ok(buffer[cursor..]);
  }

  lemma SliceOfSlice(s: bytes, c: nat, i: nat, j: nat)
    requires i <= j && c + j <= |s|
    ensures s[c..][i..j] == s[c + i..c + j] && s[c..][j..] == s[c + j..]
  {
  }

  lemma ParseStep(buffer: bytes, max: nat)
    ensures
      Parse(buffer, max) ==
        if |buffer| < 4 then Parsed([], buffer, false)
        else if ReadU32(buffer) == 0 || ReadU32(buffer) > max then Parsed([], buffer, true)
        else if |buffer| < 4 + ReadU32(buffer) then Parsed([], buffer, false)
        else
          var tail := Parse(buffer[4 + ReadU32(buffer)..], max);
          Parsed([buffer[4..4 + ReadU32(buffer)]] + tail.messages, tail.rest, tail.bad)
  {
    hide ReadU32;
  }

  /** The receiving side of one connection: what arrives is appended, then scanned. */
  class FrameReader {
    const max: nat
    var receivedBuffer: bytes
    var delivered: seq<bytes>

    constructor (max: nat)
      ensures this.max == max && receivedBuffer == [] && delivered == []
    {
      this.max := max;
      receivedBuffer := [];
      delivered := [];
    }

    /** A throw leaves the whole concatenation in the buffer. */
    method OnData(data: bytes) returns (failed: bool)
      modifies this
      ensures Stream(receivedBuffer, delivered, failed) == Feed(Stream(old(receivedBuffer), old(delivered), false), data, max)
    {
      receivedBuffer := receivedBuffer + data;
      var messages, r := ParseMessages(receivedBuffer, max);
      delivered := delivered + messages;
      if r.Ok? {
        receivedBuffer := r.value;
      }
      failed := r.Err?;
    }
  }

  datatype Stream = Stream(buffer: bytes, delivered: seq<bytes>, failed: bool)

  function Feed(s: Stream, data: bytes, max: nat): Stream {
    var p := Parse(s.buffer + data, max);
    Stream(if p.bad then s.buffer + data else p.rest, s.delivered + p.messages, p.bad)
  }

  /** Chunk after chunk, up to the first throw. */
  function Run(s: Stream, chunks: seq<bytes>, max: nat): Stream
    decreases |chunks|
  {
    if chunks == [] || s.failed then s else Run(Feed(s, chunks[0], max), chunks[1..], max)
  }

  function Joined(chunks: seq<bytes>): bytes {
    if chunks == [] then [] else chunks[0] + Joined(chunks[1..])
  }

  // ---------- Chunking does not matter ----------

  /** Scanning a concatenation continues where scanning its first part stopped. */
  lemma {:induction false} ParseAppend(a: bytes, b: bytes, max: nat)
    ensures
      var p := Parse(a, max);
      var q := Parse(p.rest + b, max);
      Parse(a + b, max).messages == (if p.bad then p.messages else p.messages + q.messages) &&
      Parse(a + b, max).bad == (p.bad || q.bad) &&
      (!p.bad ==> Parse(a + b, max).rest == q.rest)
    decreases |a|
  {
    hide ReadU32, Parse;
    ParseStep(a, max);
    ParseStep(a + b, max);
    ReadU32Prefix(a, b);
    var q := Parse(a + b, max);
    assert [] + q.messages == q.messages;
    if |a| >= 4 && 0 < ReadU32(a) <= max && |a| >= 4 + ReadU32(a) {
      var n := ReadU32(a);
      ParseAppend(a[4 + n..], b, max);
      assert (a + b)[4 + n..] == a[4 + n..] + b;
      assert (a + b)[4..4 + n] == a[4..4 + n];
    }
  }

  lemma ReadU32Prefix(a: bytes, b: bytes)
    ensures |a| >= 4 ==> ReadU32(a + b) == ReadU32(a)
  {
  }

  /** What is left over holds no complete message and no bad length. */
  lemma {:induction false} RestIsStable(a: bytes, max: nat)
    requires !Parse(a, max).bad
    ensures Parse(Parse(a, max).rest, max) == Parsed([], Parse(a, max).rest, false)
    decreases |a|
  {
    hide ReadU32;
    if |a| >= 4 {
      var n := ReadU32(a);
      if |a| >= 4 + n {
        RestIsStable(a[4 + n..], max);
      }
    }
  }

  lemma {:induction false} RunFrom(s: Stream, chunks: seq<bytes>, max: nat)
    requires !s.failed && Parse(s.buffer, max) == Parsed([], s.buffer, false)
    ensures
      var p := Parse(s.buffer + Joined(chunks), max);
      var r := Run(s, chunks, max);
      r.delivered == s.delivered + p.messages && r.failed == p.bad && (!p.bad ==> r.buffer == p.rest)
    decreases |chunks|
  {
    hide Parse;
    if chunks == [] {
      assert s.buffer + [] == s.buffer;
    } else {
      var all := s.buffer + Joined(chunks);
      var t := Feed(s, chunks[0], max);
      assert all == (s.buffer + chunks[0]) + Joined(chunks[1..]);
      ParseAppend(s.buffer + chunks[0], Joined(chunks[1..]), max);
      if !t.failed {
        RestIsStable(s.buffer + chunks[0], max);
        RunFrom(t, chunks[1..], max);
      }
    }
  }

  /**
   * Up to the first bad length, the messages delivered, the failure and the
   * leftover depend only on the bytes received, not on how they were cut.
   */
  lemma ChunkingIrrelevant(chunks: seq<bytes>, max: nat)
    ensures
      var p := Parse(Joined(chunks), max);
      var r := Run(Stream([], [], false), chunks, max);
      r.delivered == p.messages && r.failed == p.bad && (!p.bad ==> r.buffer == p.rest)
  {
    RunFrom(Stream([], [], false), chunks, max);
    assert [] + Joined(chunks) == Joined(chunks);
  }

  // ---------- Frames are delivered ----------

  lemma {:induction false} FramesParse(messages: seq<bytes>, tail: bytes, max: nat)
    requires AllSendable(messages, max)
    ensures
      Parse(Frames(messages) + tail, max) ==
        Parsed(messages + Parse(tail, max).messages, Parse(tail, max).rest, Parse(tail, max).bad)
    decreases |messages|
  {
    hide Parse, WriteU32, ReadU32;
    if messages == [] {
      assert [] + tail == tail;
      assert [] + Parse(tail, max).messages == Parse(tail, max).messages;
    } else {
      var more := Frames(messages[1..]) + tail;
      FramesParse(messages[1..], tail, max);
      FrameParse(messages[0], more, max);
      assert Frames(messages) + tail == WriteU32(|messages[0]|) + messages[0] + more;
      assert [messages[0]] + (messages[1..] + Parse(tail, max).messages) == messages + Parse(tail, max).messages;
    }
  }

  lemma FrameParse(m: bytes, more: bytes, max: nat)
    requires Sendable(m, max)
    ensures
      Parse(WriteU32(|m|) + m + more, max) ==
        Parsed([m] + Parse(more, max).messages, Parse(more, max).rest, Parse(more, max).bad)
  {
    hide Parse, WriteU32, ReadU32;
    var buffer := WriteU32(|m|) + m + more;
    assert buffer == WriteU32(|m|) + (m + more);
    U32RoundTrip(|m|, m + more);
    assert buffer[4..4 + |m|] == m && buffer[4 + |m|..] == more;
    ParseStep(buffer, max);
  }

  /**
   * A scan splits its buffer into complete frames and a remainder that holds no further one: it begins
   * with the length 0 or one over the limit exactly when the scan reports a bad length.
   */
  lemma {:induction false} ParseInverse(a: bytes, max: nat)
    ensures AllSendable(Parse(a, max).messages, max)
    ensures a == Frames(Parse(a, max).messages) + Parse(a, max).rest
    ensures
      var p := Parse(a, max);
      && (p.bad <==> |p.rest| >= 4 && (ReadU32(p.rest) == 0 || ReadU32(p.rest) > max))
      && (!p.bad && |p.rest| >= 4 ==> |p.rest| - 4 < ReadU32(p.rest))
    decreases |a|
  {
    hide Parse, WriteU32, ReadU32;
    var p := Parse(a, max);
    ParseStep(a, max);
    if p.messages != [] {
      var n := ReadU32(a);
      ParseInverse(a[4 + n..], max);
      WriteReadU32(a);
      assert p.messages[1..] == Parse(a[4 + n..], max).messages;
      assert a == a[..4] + a[4..4 + n] + a[4 + n..];
    }
  }

  lemma WriteReadU32(a: bytes)
    requires |a| >= 4
    ensures WriteU32(ReadU32(a)) == a[..4]
  {
    var n := ReadU32(a);
    var q2 := 256 * a[0] as int + a[1] as int;
    var q1 := 256 * q2 + a[2] as int;
    assert n / 256 == q1 && q1 / 256 == q2 && n / 0x1_0000 == q2 && n / 0x100_0000 == q2 / 256;
  }

  /** Framed messages of length 1 to max are delivered exactly, in any chunks; nothing is left over. */
  lemma FramedMessagesArrive(messages: seq<bytes>, chunks: seq<bytes>, max: nat)
    requires AllSendable(messages, max) && Joined(chunks) == Frames(messages)
    ensures Run(Stream([], [], false), chunks, max) == Stream([], messages, false)
  {
    ChunkingIrrelevant(chunks, max);
    FramesParse(messages, [], max);
    assert Frames(messages) + [] == Frames(messages);
    assert messages + [] == messages;
  }

  /** An accepted frame is one message exactly when the message is not empty. */
  lemma SingleFrame(message: bytes, max: nat)
    requires Frame(message, max).Ok?
    ensures Parse(Frame(message, max).value, max) ==
      if message == [] then Parsed([], Frame(message, max).value, true) else Parsed([message], [], false)
  {
    U32RoundTrip(|message|, message);
    if message != [] {
      assert Frames([]) == [] && [message][1..] == [];
      assert Frames([message]) + [] == Frame(message, max).value;
      FramesParse([message], [], max);
    }
  }
}
