/** One direction of a TCP connection seen as a queue of messages. */
module Pipes {
  import opened Wrappers
  import opened Bytes
  import opened Encoding
  import opened Framing

  /**
   * Bytes written but not arrived, the receiver's partial frame, and the
   * messages scanned but not handled yet, in the order of its message queue.
   */
  datatype Pipe = Pipe(inflight: bytes, buffer: bytes, queue: seq<bytes>) {

    function Write(frame: bytes): Pipe {
      this.(inflight := inflight + frame)
    }

    /** The next n bytes arrive as one chunk. */
    function Arrive(n: nat, max: nat): Option<Pipe>
      requires n <= |inflight|
    {
      var p := Parse(buffer + inflight[..n], max);
      if p.bad then None else Some(Pipe(inflight[n..], p.rest, queue + p.messages))
    }

    function Pop(): Pipe
      requires queue != []
    {
      this.(queue := queue[1..])
    }
  }

  const EMPTY := Pipe([], [], [])

  /** The pipe holds exactly these messages, first to be handled first. */
  ghost predicate Carries(p: Pipe, messages: seq<bytes>, max: nat) {
    && AllSendable(messages, max)
    && |p.queue| <= |messages|
    && p.queue == messages[..|p.queue|]
    && p.buffer + p.inflight == Frames(messages[|p.queue|..])
    && Parse(p.buffer, max) == Parsed([], p.buffer, false)
  }

  lemma EmptyCarries(max: nat)
    ensures Carries(EMPTY, [], max)
  {
    assert [] + [] == Frames([]);
  }

  lemma {:induction false} FramesSnoc(messages: seq<bytes>, m: bytes)
    requires |m| < U32_LIMIT && forall i :: 0 <= i < |messages| ==> |messages[i]| < U32_LIMIT
    ensures Frames(messages + [m]) == Frames(messages) + (WriteU32(|m|) + m)
    decreases |messages|
  {
    hide WriteU32;
    if messages == [] {
      assert [] + [m] == [m] && [m][1..] == [];
      assert Frames([]) == [];
    } else {
      FramesSnoc(messages[1..], m);
      assert (messages + [m])[1..] == messages[1..] + [m];
    }
  }

  lemma WriteCarries(p: Pipe, messages: seq<bytes>, m: bytes, max: nat)
    requires Carries(p, messages, max) && Frame(m, max).Ok? && m != []
    ensures Carries(p.Write(Frame(m, max).value), messages + [m], max)
  {
    hide Parse, WriteU32;
    var n := |p.queue|;
    FramesSnoc(messages[n..], m);
    assert (messages + [m])[n..] == messages[n..] + [m];
    assert (messages + [m])[..n] == messages[..n];
    var f := WriteU32(|m|) + m;
    assert p.buffer + (p.inflight + f) == (p.buffer + p.inflight) + f;
  }

  /** However many bytes arrive, the messages carried stay the same and no length is bad. */
  lemma ArriveCarries(p: Pipe, messages: seq<bytes>, n: nat, max: nat)
    requires Carries(p, messages, max) && n <= |p.inflight|
    ensures p.Arrive(n, max).Some? && Carries(p.Arrive(n, max).value, messages, max)
  {
    hide Parse, Frames;
    var pending := messages[|p.queue|..];
    var a, b := p.buffer + p.inflight[..n], p.inflight[n..];
    assert a + b == p.buffer + p.inflight;
    FramesParse(pending, [], max);
    ParseStep([], max);
    assert Frames(pending) + [] == Frames(pending) && pending + [] == pending;
    assert Parse(a + b, max) == Parsed(pending, [], false);
    ParseAppend(a, b, max);
    var found := Parse(a, max);
    var later := Parse(found.rest + b, max);
    assert !found.bad && pending == found.messages + later.messages && later.rest == [];
    RestIsStable(a, max);
    ParseInverse(found.rest + b, max);
    assert Frames(later.messages) + [] == Frames(later.messages);
    var q := p.Arrive(n, max).value;
    assert later.messages == messages[|q.queue|..];
    assert q.queue == messages[..|q.queue|];
  }

  lemma PopCarries(p: Pipe, messages: seq<bytes>, max: nat)
    requires Carries(p, messages, max) && p.queue != []
    ensures messages != [] && p.queue[0] == messages[0] && Carries(p.Pop(), messages[1..], max)
  {
    hide Parse, Frames;
    var n := |p.queue|;
    assert messages[1..][n - 1..] == messages[n..];
    assert p.Pop().queue == messages[1..][..n - 1];
  }

  /** Once every byte has arrived, every message is in the queue. */
  lemma AllArrived(p: Pipe, messages: seq<bytes>, max: nat)
    requires Carries(p, messages, max) && p.inflight == []
    ensures p.queue == messages && p.buffer == []
  {
    hide Parse, Frames;
    var pending := messages[|p.queue|..];
    assert p.buffer + [] == p.buffer;
    assert Frames(pending) + [] == Frames(pending);
    FramesParse(pending, [], max);
    ParseStep([], max);
    assert pending == [];
  }
}
