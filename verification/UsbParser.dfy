/**
 The resynchronising byte-stream parser of the gateway firmware.

 `Next` says what one octet does to the octets collected so far; the class is the firmware's
 buffer, counters and early returns, and `Push` is proved to do what `Next` says.
 */
module UsbParser {
  import opened Bytes
  import opened UsbFrame

  const CAPACITY := 512

  /** What one octet causes. */
  datatype Event = Quiet | Emitted(frame: seq<byte>) | Failed(err: EspErr)

  function Total(p: seq<byte>): nat
    requires |p| >= 6
  {
    6 + Le16(p[4], p[5]) + 4
  }

  /** Octets the parser may hold between calls: the start of a frame that fits and is not finished. */
  predicate Unfinished(p: seq<byte>)
  {
    && |p| < CAPACITY
    && (|p| >= 1 ==> p[0] == MAGIC_0)
    && (|p| >= 2 ==> p[1] == MAGIC_1)
    && (|p| >= 6 ==> |p| < Total(p) <= CAPACITY)
  }

  /** Octets that begin with the magic, looked at once the length is known. */
  function Judged(q: seq<byte>, cap: nat): (seq<byte>, Event)
  {
    if |q| < 6 then (q, Quiet)
    else if Total(q) > CAPACITY || Total(q) > cap then ([], Failed(InvalidSize))
    else if |q| != Total(q) then (q, Quiet)
    else ([], Judgement(q))
  }

  function Judgement(q: seq<byte>): Event { if Verdict(q) != EspOk then Failed(Verdict(q)) else Emitted(q) }

  function Next(p: seq<byte>, b: byte, cap: nat): (r: (seq<byte>, Event))
    ensures r.0 == [] || r.0 == p + [b]
    ensures r.1 != Quiet ==> r.0 == []
    ensures Unfinished(p) ==> Unfinished(r.0)
    ensures r.1.Emitted? ==> r.1.frame == p + [b] && Verdict(p + [b]) == EspOk && |p + [b]| <= cap
    ensures r.1.Failed? ==> r.1.err != EspOk
  {
    if p == [] && b != MAGIC_0 then ([], Quiet)
    else if |p| == 1 && b != MAGIC_1 then ([], Quiet)
    else Judged(p + [b], cap)
  }

  /** A complete header that announces more than the buffer or the caller can take is dropped with an error, a
      complete frame is emitted or dropped with its verdict, and everything else is kept quietly. */
  lemma HeaderDecides(p: seq<byte>, b: byte, cap: nat)
    requires Unfinished(p) && 5 <= |p|
    ensures var q := p + [b];
            var total := 10 + (q[4] as int) + 256 * (q[5] as int);
            Next(p, b, cap) ==
              if total > 512 || total > cap then ([], Failed(InvalidSize))
              else if |q| != total then (q, Quiet)
              else if Verdict(q) == EspOk then ([], Emitted(q)) else ([], Failed(Verdict(q)))
  {
  }

  /** One call with several octets: it stops at the first frame or error and drops the rest. */
  function Scan(p: seq<byte>, data: seq<byte>, cap: nat): (seq<byte>, Event)
    decreases |data|
  {
    if data == [] then (p, Quiet)
    else
      var (q, e) := Next(p, data[0], cap);
      if e == Quiet then Scan(q, data[1..], cap) else (q, e)
  }

  class Parser {
    var synced: bool
    var expectedLength: u16
    var buffered: nat
    const buffer: array<byte>

    ghost predicate Valid()
      reads this, buffer
    {
      && buffer.Length == CAPACITY
      && buffered < CAPACITY
      && Unfinished(buffer[..buffered])
      && (synced <==> buffered >= 2)
      && expectedLength == if buffered >= 6 then Le16(buffer[4], buffer[5]) else 0
    }

    ghost function Pending(): seq<byte>
      requires Valid()
      reads this, buffer
    {
      buffer[..buffered]
    }

    constructor ()
      ensures Valid() && Pending() == [] && fresh(buffer)
    {
      buffer := new byte[CAPACITY](_ => 0);
      synced, expectedLength, buffered := false, 0, 0;
    }

    /** `ef_usb_parser_reset`: everything, the buffer included, becomes zero. */
    method Reset()
      requires buffer.Length == CAPACITY
      modifies this, buffer
      ensures Valid() && Pending() == []
      ensures forall i :: 0 <= i < CAPACITY ==> buffer[i] == 0
    {
      synced, expectedLength, buffered := false, 0, 0;
      forall i | 0 <= i < CAPACITY {
        buffer[i] := 0;
      }
    }

    /** The loop body of `ef_usb_parser_push`. Its branch for a full buffer is dead. */
    method Take(b: byte, frameBuf: array<byte>, cap: nat) returns (err: EspErr, frameLen: nat, ready: bool)
      requires Valid() && cap <= frameBuf.Length && frameBuf != buffer
      modifies this, buffer, frameBuf
      ensures Valid()
      ensures Pending() == Next(old(Pending()), b, cap).0
      ensures Reports(Next(old(Pending()), b, cap).1, err, frameLen, ready, old(frameBuf[..]), frameBuf[..])
    {
      ghost var p := Pending();
      if !synced {
        if buffered == 0 && b != MAGIC_0 {
          return EspOk, 0, false;
        }
        if buffered == 1 && b != MAGIC_1 {
          buffered := 0;
          return EspOk, 0, false;
        }
      }
      if buffered >= CAPACITY {
        assert false;
      }
      buffer[buffered] := b;
      buffered := buffered + 1;
      assert buffer[..buffered] == p + [b] && buffer[..buffered - 1] == p;
      if buffered == 2 && buffer[0] == MAGIC_0 && buffer[1] == MAGIC_1 {
        synced := true;
      }
      if synced && buffered >= 6 {
        err, frameLen, ready := Judge(frameBuf, cap);
        return;
      }
      return EspOk, 0, false;
    }

    /** The part of the loop body that knows the length: too long, not finished, invalid, or a frame. */
    method Judge(frameBuf: array<byte>, cap: nat) returns (err: EspErr, frameLen: nat, ready: bool)
      requires buffer.Length == CAPACITY && synced && 6 <= buffered <= CAPACITY
      requires cap <= frameBuf.Length && frameBuf != buffer
      requires Unfinished(buffer[..buffered - 1]) && buffer[0] == MAGIC_0 && buffer[1] == MAGIC_1
      modifies this, buffer, frameBuf
      ensures Valid()
      ensures Pending() == Judged(old(buffer[..buffered]), cap).0
      ensures Reports(Judged(old(buffer[..buffered]), cap).1, err, frameLen, ready, old(frameBuf[..]), frameBuf[..])
    {
      expectedLength := Le16(buffer[4], buffer[5]);
      var total := 6 + expectedLength + 4;
      if total > CAPACITY || total > cap {
        Reset();
        return InvalidSize, 0, false;
      }
      if buffered == total {
        err, frameLen, ready := Deliver(frameBuf);
        return;
      }
      return EspOk, 0, false;
    }

    /** The end of the loop body: a complete frame is validated, handed over and forgotten. */
    method Deliver(frameBuf: array<byte>) returns (err: EspErr, frameLen: nat, ready: bool)
      requires buffer.Length == CAPACITY && buffered <= CAPACITY && buffered <= frameBuf.Length && frameBuf != buffer
      modifies this, buffer, frameBuf
      ensures Valid() && Pending() == []
      ensures Reports(Judgement(old(buffer[..buffered])), err, frameLen, ready, old(frameBuf[..]), frameBuf[..])
    {
      var total, frame := buffered, buffer[..buffered];
      err := Validate(buffer, total);
      if err != EspOk {
        Reset();
        return err, 0, false;
      }
      CopyInto(frameBuf, 0, frame);
      assert frameBuf[..] == frame + old(frameBuf[total..]);
      Reset();
      return EspOk, total, true;
    }

    /** `ef_usb_parser_push`: the caller's buffer is written only when a frame is reported, and
        then only as far as the frame reaches. */
    method Push(data: seq<byte>, frameBuf: array<byte>, cap: nat) returns (err: EspErr, frameLen: nat, ready: bool)
      requires Valid() && cap <= frameBuf.Length && frameBuf != buffer
      modifies this, buffer, frameBuf
      ensures Valid()
      ensures Pending() == Scan(old(Pending()), data, cap).0
      ensures Reports(Scan(old(Pending()), data, cap).1, err, frameLen, ready, old(frameBuf[..]), frameBuf[..])
    {
      ghost var start := Pending();
      for i := 0 to |data|
        invariant Valid() && frameBuf[..] == old(frameBuf[..])
        invariant Scan(start, data, cap) == Scan(Pending(), data[i..], cap)
      {
        assert data[i..][0] == data[i] && data[i..][1..] == data[i + 1..];
        err, frameLen, ready := Take(data[i], frameBuf, cap);
        if err != EspOk || ready {
          return;
        }
      }
      err, frameLen, ready := EspOk, 0, false;
    }
  }

  /** How an event reaches the caller: the error code, the flag, the length and the copied frame. */
  ghost predicate Reports(e: Event, err: EspErr, frameLen: nat, ready: bool, before: seq<byte>, after: seq<byte>)
  {
    && err == (if e.Failed? then e.err else EspOk)
    && ready == e.Emitted?
    && frameLen == (if e.Emitted? then |e.frame| else 0)
    && frameLen <= |before|
    && after == (if e.Emitted? then e.frame else []) + before[frameLen..]
  }
}
