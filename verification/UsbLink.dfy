/**
 The gateway's USB link: received bytes are pushed one at a time through the parser, errors only
 resynchronise, and complete frames go to a bounded receive queue.
 */
module UsbLink {
  import opened Bytes
  import opened UsbFrame
  import opened UsbParser
  import opened UsbStream

  /** One injected chunk: pending octets, queue, result code. A full queue ends the chunk early. */
  function Injected(p: seq<byte>, queue: seq<seq<byte>>, data: seq<byte>, cap: nat, depth: nat)
    : (seq<byte>, seq<seq<byte>>, EspErr)
    decreases |data|
  {
    if data == [] then (p, queue, EspOk)
    else
      var (q, e) := Next(p, data[0], cap);
      if e.Emitted? && |queue| >= depth then (q, queue, Timeout)
      else Injected(q, queue + Emission(e), data[1..], cap, depth)
  }

  class Link {
    const parser: Parser
    const frameBuf: array<byte>
    const maxFrameLen: nat
    const queueDepth: nat
    var rxQueue: seq<seq<byte>>

    ghost predicate Valid()
      reads this, parser, parser.buffer
    {
      && parser.Valid() && frameBuf != parser.buffer && frameBuf.Length == CAPACITY
      && 0 < maxFrameLen <= CAPACITY && 0 < queueDepth
      && |rxQueue| <= queueDepth
    }

    constructor (depth: nat, maxLen: nat)
      requires maxLen <= CAPACITY
      ensures Valid() && rxQueue == [] && parser.Pending() == []
      ensures queueDepth == (if depth > 0 then depth else 4)
      ensures maxFrameLen == (if maxLen > 0 then maxLen else CAPACITY)
    {
      parser := new Parser();
      frameBuf := new byte[CAPACITY](_ => 0);
      queueDepth := if depth > 0 then depth else 4;
      maxFrameLen := if maxLen > 0 then maxLen else CAPACITY;
      rxQueue := [];
    }

    /** `usb_link_queue_received_frame` */
    method QueueReceivedFrame(frame: seq<byte>) returns (err: EspErr)
      modifies this`rxQueue
      ensures err == if |frame| == 0 || |frame| > CAPACITY then InvalidArg
                     else if |old(rxQueue)| >= queueDepth then Timeout else EspOk
      ensures rxQueue == if err == EspOk then old(rxQueue) + [frame] else old(rxQueue)
    {
      if |frame| == 0 || |frame| > CAPACITY {
        return InvalidArg;
      }
      if |rxQueue| >= queueDepth {
        return Timeout;
      }
      rxQueue := rxQueue + [frame];
      err := EspOk;
    }

    /** The loop body of `usb_link_inject_rx_bytes`: an error of the parser only resets it. */
    method InjectOctet(b: byte) returns (err: EspErr)
      requires Valid()
      modifies this`rxQueue, parser, parser.buffer, frameBuf
      ensures Valid()
      ensures var (q, e) := Next(old(parser.Pending()), b, maxFrameLen);
              && parser.Pending() == q
              && (e.Emitted? && |old(rxQueue)| >= queueDepth ==> err == Timeout && rxQueue == old(rxQueue))
              && (!(e.Emitted? && |old(rxQueue)| >= queueDepth) ==>
                    err == EspOk && rxQueue == old(rxQueue) + Emission(e))
    {
      ghost var p := parser.Pending();
      ScanOne(p, b, maxFrameLen);
      assert rxQueue + [] == rxQueue;
      var frameLen: nat, ready: bool;
      err, frameLen, ready := parser.Push([b], frameBuf, maxFrameLen);
      if err != EspOk {
        parser.Reset();
        return EspOk;
      }
      if ready {
        assert frameBuf[..frameLen] == Next(p, b, maxFrameLen).1.frame;
        err := QueueReceivedFrame(frameBuf[..frameLen]);
      }
    }

    /** `usb_link_inject_rx_bytes` */
    method InjectRxBytes(data: seq<byte>) returns (err: EspErr)
      requires Valid()
      modifies this`rxQueue, parser, parser.buffer, frameBuf
      ensures Valid()
      ensures data == [] ==> err == InvalidArg && rxQueue == old(rxQueue) && parser.Pending() == old(parser.Pending())
      ensures data != [] ==>
                (parser.Pending(), rxQueue, err)
                == Injected(old(parser.Pending()), old(rxQueue), data, maxFrameLen, queueDepth)
    {
      if data == [] {
        return InvalidArg;
      }
      err := EspOk;
      var offset := 0;
      ghost var goal := Injected(parser.Pending(), rxQueue, data, maxFrameLen, queueDepth);
      while offset < |data|
        invariant 0 <= offset <= |data| && Valid() && err == EspOk
        invariant goal == Injected(parser.Pending(), rxQueue, data[offset..], maxFrameLen, queueDepth)
      {
        assert data[offset..][0] == data[offset] && data[offset..][1..] == data[offset + 1..];
        err := InjectOctet(data[offset]);
        if err != EspOk {
          break;
        }
        offset := offset + 1;
      }
      if err == EspOk {
        assert data[offset..] == [];
      }
    }

    /** `usb_link_receive_frame` with room for a whole frame and no waiting. */
    method ReceiveFrame() returns (r: (EspErr, seq<byte>))
      modifies this`rxQueue
      ensures old(rxQueue) == [] ==> r == (Timeout, []) && rxQueue == []
      ensures old(rxQueue) != [] ==> r == (EspOk, old(rxQueue)[0]) && rxQueue == old(rxQueue)[1..]
    {
      if rxQueue == [] {
        return (Timeout, []);
      }
      r := (EspOk, rxQueue[0]);
      rxQueue := rxQueue[1..];
    }
  }

  /** `usb_link_init`: zero asks for the defaults, and a limit beyond the buffer is refused. */
  method Init(depth: nat, maxLen: nat) returns (err: EspErr, link: Link?)
    ensures err == if maxLen > CAPACITY then InvalidSize else EspOk
    ensures err == EspOk <==> link != null
    ensures err == EspOk ==> && link.Valid() && link.rxQueue == [] && link.parser.Pending() == []
                             && link.queueDepth == (if depth > 0 then depth else 4)
                             && link.maxFrameLen == (if maxLen > 0 then maxLen else CAPACITY)
  {
    if maxLen > CAPACITY {
      return InvalidSize, null;
    }
    link := new Link(depth, maxLen);
    err := EspOk;
  }

  lemma ScanOne(p: seq<byte>, b: byte, cap: nat)
    ensures Scan(p, [b], cap) == Next(p, b, cap)
  {
    var (q, e) := Next(p, b, cap);
    assert [b][1..] == [];
    assert Scan(q, [], cap) == (q, Quiet);
  }

  lemma FeedFirst(p: seq<byte>, data: seq<byte>, cap: nat)
    requires data != []
    ensures var (q, e) := Next(p, data[0], cap);
            var rest := Feed(q, data[1..], cap);
            Feed(p, data, cap) == Progress(rest.pending, Emission(e) + rest.frames)
  {
    FeedOne(p, data[0], cap);
    FeedConcat(p, [data[0]], data[1..], cap);
    assert data == [data[0]] + data[1..];
    assert forall e: Event :: [] + Emission(e) == Emission(e);
  }

  /** What a chunk did: everything queued, or as much as fits. */
  ghost predicate Accounts(queue: seq<seq<byte>>, s: Progress, depth: nat, r: (seq<byte>, seq<seq<byte>>, EspErr))
  {
    && r.2 == (if |queue| + |s.frames| <= depth then EspOk else Timeout)
    && (r.2 == EspOk ==> r.0 == s.pending && r.1 == queue + s.frames)
    && (r.2 == Timeout ==> r.0 == [] && depth <= |queue + s.frames| && r.1 == (queue + s.frames)[..depth])
  }

  lemma OneMoreOctet(queue: seq<seq<byte>>, e: Event, rest: Progress, depth: nat,
                     r: (seq<byte>, seq<seq<byte>>, EspErr))
    requires Accounts(queue + Emission(e), rest, depth, r)
    ensures Accounts(queue, Progress(rest.pending, Emission(e) + rest.frames), depth, r)
  {
    assert queue + (Emission(e) + rest.frames) == (queue + Emission(e)) + rest.frames;
  }

  /** A chunk is accepted exactly when the queue has room for every frame it completes; then the
      queue gains those frames and nothing else. Otherwise it gains as many as fit, and the parser is idle. */
  lemma {:induction false} ChunkQueuesItsFrames(p: seq<byte>, queue: seq<seq<byte>>, data: seq<byte>, cap: nat,
                                                depth: nat)
    requires |queue| <= depth
    ensures Accounts(queue, Feed(p, data, cap), depth, Injected(p, queue, data, cap, depth))
    decreases |data|
  {
    if data == [] {
      assert queue + [] == queue;
    } else {
      var (q, e) := Next(p, data[0], cap);
      FeedFirst(p, data, cap);
      var rest := Feed(q, data[1..], cap);
      if e.Emitted? && |queue| >= depth {
        assert (queue + (Emission(e) + rest.frames))[..depth] == queue;
      } else {
        ChunkQueuesItsFrames(q, queue + Emission(e), data[1..], cap, depth);
        OneMoreOctet(queue, e, rest, depth, Injected(q, queue + Emission(e), data[1..], cap, depth));
      }
    }
  }

  // ---------------------------------------------------------------------------------------------
  // Runs: chunks arriving and frames being taken out, in any order

  datatype Act = Chunk(data: seq<byte>) | Receive

  datatype Run = Run(pending: seq<byte>, queue: seq<seq<byte>>, received: seq<seq<byte>>, everFull: bool)

  function RunOf(acts: seq<Act>, cap: nat, depth: nat): Run
    decreases |acts|
  {
    if acts == [] then Run([], [], [], false)
    else
      var s := RunOf(acts[..|acts| - 1], cap, depth);
      match acts[|acts| - 1]
      case Chunk(data) =>
        var (p, queue, err) := Injected(s.pending, s.queue, data, cap, depth);
        s.(pending := p, queue := queue, everFull := s.everFull || err == Timeout)
      case Receive =>
        if s.queue == [] then s else s.(queue := s.queue[1..], received := s.received + [s.queue[0]])
  }

  function Arrived(acts: seq<Act>): seq<byte>
  {
    if acts == [] then []
    else Arrived(acts[..|acts| - 1]) + (if acts[|acts| - 1].Chunk? then acts[|acts| - 1].data else [])
  }

  /** As long as no chunk met a full queue, chunk boundaries do not matter: what was received and
      what still waits is, in order, what the whole stream contains. */
  lemma {:induction false} RunDeliversTheStream(acts: seq<Act>, cap: nat, depth: nat)
    ensures var s := RunOf(acts, cap, depth);
            && |s.queue| <= depth
            && (!s.everFull ==> Progress(s.pending, s.received + s.queue) == Feed([], Arrived(acts), cap))
    decreases |acts|
  {
    if acts != [] {
      var init := acts[..|acts| - 1];
      RunDeliversTheStream(init, cap, depth);
      var s := RunOf(init, cap, depth);
      match acts[|acts| - 1]
      case Chunk(data) =>
        ChunkQueuesItsFrames(s.pending, s.queue, data, cap, depth);
        FeedConcat([], Arrived(init), data, cap);
        var more := Feed(s.pending, data, cap).frames;
        assert s.received + (s.queue + more) == (s.received + s.queue) + more;
      case Receive =>
        assert Arrived(acts) == Arrived(init) + [] == Arrived(init);
        if s.queue != [] {
          assert s.received + s.queue == (s.received + [s.queue[0]]) + s.queue[1..];
        }
    }
  }

  /** End to end: any list of frames that fit, with harmless noise between them, cut into chunks in
      any way and read at any pace that keeps the queue from filling, arrives complete and in order. */
  lemma CleanStreamArrives(acts: seq<Act>, segments: seq<Segment>, tail: seq<byte>, cap: nat, depth: nat)
    requires Clean(segments, cap) && MAGIC_0 !in tail
    requires Arrived(acts) == Wire(segments) + tail
    requires !RunOf(acts, cap, depth).everFull
    ensures var s := RunOf(acts, cap, depth);
            s.pending == [] && s.received + s.queue == Frames(segments)
  {
    RunDeliversTheStream(acts, cap, depth);
    CleanStreamIsDelivered(segments, tail, cap);
  }
}
