/**
 The on-air packet: header, optional relay extension, body. The host codec, the firmware codec and
 relay forwarding, with the identity of a packet shown to survive any number of hops.
 */
module OnAir {
  import opened Bytes
  import opened Wrappers

  const VERSION: byte := 1
  const HEADER_SIZE := 8
  const RELAY_EXTENSION_SIZE := 7

  const TYPE_STATE: byte := 1
  const TYPE_EVENT: byte := 2
  const TYPE_COMMAND_RESULT: byte := 3
  const TYPE_PENDING_DIGEST: byte := 4
  const TYPE_TINY_POLL: byte := 5
  const TYPE_COMPACT_COMMAND: byte := 6
  const TYPE_HEARTBEAT: byte := 7

  datatype Relay = Relay(origin: u16, previousHop: u16, ttl: byte, hopCount: byte, routeHint: byte)

  datatype Packet = Packet(
    version: byte, logicalType: byte, flags: byte, sequence: byte,
    source: u16, target: u16, relay: Option<Relay>, body: seq<byte>)

  /** Bit 1 of the flags announces a relay extension. */
  predicate HasRelayFlag(flags: byte) { (flags / 2) % 2 == 1 }

  function SetRelayFlag(flags: byte): (r: byte)
    ensures HasRelayFlag(r) && (HasRelayFlag(flags) ==> r == flags)
    ensures r % 2 == flags % 2 && r / 4 == flags / 4
  {
    if HasRelayFlag(flags) then flags else flags + 2
  }

  predicate HasSummaryFlag(flags: byte) { flags % 2 == 1 }

  // ---------------------------------------------------------------------------------------------
  // Wire layout

  function HeaderOctets(p: Packet): (h: seq<byte>)
    ensures |h| == HEADER_SIZE
  {
    [p.version, p.logicalType, p.flags, p.sequence, Lo(p.source), Hi(p.source), Lo(p.target), Hi(p.target)]
  }

  function RelayOctets(r: Relay): (o: seq<byte>)
    ensures |o| == RELAY_EXTENSION_SIZE
  {
    [Lo(r.origin), Hi(r.origin), Lo(r.previousHop), Hi(r.previousHop), r.ttl, r.hopCount, r.routeHint]
  }

  function Layout(p: Packet): seq<byte>
  {
    HeaderOctets(p) + (if p.relay.Some? then RelayOctets(p.relay.value) else []) + p.body
  }

  /** The packet as encoders send it: a zero version means the current one, and the relay flag
      follows the presence of a relay extension. */
  function Normal(p: Packet): Packet
  {
    p.(version := if p.version == 0 then VERSION else p.version,
       flags := if p.relay.Some? then SetRelayFlag(p.flags) else p.flags)
  }

  /** What both encoders insist on. */
  predicate Sendable(p: Packet)
  {
    && (p.version == 0 || p.version == VERSION)
    && p.body != []
    && (p.relay.None? ==> !HasRelayFlag(p.flags))
    && (p.relay.Some? ==> p.relay.value.ttl != 0)
  }

  method PutHeader(p: Packet, out: array<byte>)
    requires out.Length >= HEADER_SIZE
    modifies out
    ensures out[..] == HeaderOctets(p) + old(out[HEADER_SIZE..])
  {
    out[0] := p.version;
    out[1] := p.logicalType;
    out[2] := p.flags;
    out[3] := p.sequence;
    out[4] := Lo(p.source);
    out[5] := Hi(p.source);
    out[6] := Lo(p.target);
    out[7] := Hi(p.target);
  }

  method PutRelay(r: Relay, out: array<byte>)
    requires out.Length >= HEADER_SIZE + RELAY_EXTENSION_SIZE
    modifies out
    ensures out[..] == old(out[..HEADER_SIZE]) + RelayOctets(r) + old(out[HEADER_SIZE + RELAY_EXTENSION_SIZE..])
  {
    out[8] := Lo(r.origin);
    out[9] := Hi(r.origin);
    out[10] := Lo(r.previousHop);
    out[11] := Hi(r.previousHop);
    out[12] := r.ttl;
    out[13] := r.hopCount;
    out[14] := r.routeHint;
  }

  method PutBody(body: seq<byte>, at: nat, out: array<byte>)
    requires at + |body| <= out.Length
    modifies out
    ensures out[..] == old(out[..at]) + body + old(out[at + |body|..])
  {
    forall i | 0 <= i < |body| {
      out[at + i] := body[i];
    }
  }

  // ---------------------------------------------------------------------------------------------
  // Host codec

  method Encode(packet: Packet) returns (r: Result<seq<byte>>)
    ensures r.Ok? <==> Sendable(packet)
    ensures r.Ok? ==> r.value == Layout(Normal(packet))
  {
    var version, flags := packet.version, packet.flags;
    if version == 0 {
      version := VERSION;
    }
    if version != VERSION {
      return Err("unsupported on-air version");
    }
    if |packet.body| == 0 {
      return Err("on-air body is required");
    }
    if packet.relay.None? && HasRelayFlag(flags) {
      return Err("relay extension flag requires relay metadata");
    }
    var relaySize := 0;
    if packet.relay.Some? {
      if packet.relay.value.ttl == 0 {
        return Err("relay extension ttl exhausted");
      }
      flags := SetRelayFlag(flags);
      relaySize := RELAY_EXTENSION_SIZE;
    }
    var out := new byte[HEADER_SIZE + relaySize + |packet.body|](_ => 0);
    PutHeader(packet.(version := version, flags := flags), out);
    var bodyOffset := HEADER_SIZE;
    if packet.relay.Some? {
      PutRelay(packet.relay.value, out);
      bodyOffset := bodyOffset + RELAY_EXTENSION_SIZE;
    }
    PutBody(packet.body, bodyOffset, out);
    r := Ok(out[..]);
    assert r.value == Layout(packet.(version := version, flags := flags));
  }

  function Decode(frame: seq<byte>): Result<Packet>
  {
    if |frame| < HEADER_SIZE + 1 then Err("on-air frame too short")
    else if frame[0] != VERSION then Err("unsupported on-air version")
    else
      var bare := Packet(frame[0], frame[1], frame[2], frame[3], Le16(frame[4], frame[5]), Le16(frame[6], frame[7]),
                         None, []);
      if HasRelayFlag(frame[2]) then
        if |frame| < HEADER_SIZE + RELAY_EXTENSION_SIZE + 1 then Err("on-air relay extension frame too short")
        else
          var relay := Relay(Le16(frame[8], frame[9]), Le16(frame[10], frame[11]), frame[12], frame[13], frame[14]);
          Ok(bare.(relay := Some(relay), body := frame[HEADER_SIZE + RELAY_EXTENSION_SIZE..]))
      else Ok(bare.(body := frame[HEADER_SIZE..]))
  }

  /** Decoding what was encoded gives the packet back, normalised. */
  lemma DecodeEncode(p: Packet)
    requires Sendable(p)
    ensures Decode(Layout(Normal(p))) == Ok(Normal(p))
  {
    var n := Normal(p);
    var f := Layout(n);
    Le16Determines(f[4], f[5], n.source);
    Le16Determines(f[6], f[7], n.target);
    if n.relay.Some? {
      var r := n.relay.value;
      Le16Determines(f[8], f[9], r.origin);
      Le16Determines(f[10], f[11], r.previousHop);
      assert f[HEADER_SIZE + RELAY_EXTENSION_SIZE..] == n.body;
    } else {
      assert f[HEADER_SIZE..] == n.body;
    }
  }

  lemma HeaderBack(f: seq<byte>, p: Packet)
    requires |f| >= HEADER_SIZE
    requires p.version == f[0] && p.logicalType == f[1] && p.flags == f[2] && p.sequence == f[3]
    requires p.source == Le16(f[4], f[5]) && p.target == Le16(f[6], f[7])
    ensures HeaderOctets(p) == f[..HEADER_SIZE]
  {
    Le16Determines(f[4], f[5], p.source);
    Le16Determines(f[6], f[7], p.target);
  }

  lemma RelayBack(o: seq<byte>, r: Relay)
    requires |o| == RELAY_EXTENSION_SIZE
    requires r == Relay(Le16(o[0], o[1]), Le16(o[2], o[3]), o[4], o[5], o[6])
    ensures RelayOctets(r) == o
  {
    Le16Determines(o[0], o[1], r.origin);
    Le16Determines(o[2], o[3], r.previousHop);
  }

  lemma LayoutDecode(f: seq<byte>)
    requires Decode(f).Ok?
    ensures Layout(Decode(f).value) == f
  {
    var p := Decode(f).value;
    HeaderBack(f, p);
    if p.relay.Some? {
      var o := f[HEADER_SIZE..HEADER_SIZE + RELAY_EXTENSION_SIZE];
      RelayBack(o, p.relay.value);
      assert f == f[..HEADER_SIZE] + o + p.body;
    } else {
      assert f == f[..HEADER_SIZE] + [] + p.body;
    }
  }

  /** Encoding what was decoded gives the frame back, and is refused only for a relay lifetime of 0. */
  lemma EncodeDecode(f: seq<byte>)
    requires Decode(f).Ok?
    ensures var p := Decode(f).value;
            && Normal(p) == p && Layout(p) == f
            && (Sendable(p) <==> !(p.relay.Some? && p.relay.value.ttl == 0))
  {
    LayoutDecode(f);
  }

  // ---------------------------------------------------------------------------------------------
  // Firmware codec: same bytes, and only within the reported length

  datatype EspErr = EspOk | InvalidArg | InvalidVersion | InvalidSize

  /** `ef_onair_encode_packet` */
  method EncodePacket(packet: Packet, outBuf: array<byte>, outBufCap: nat) returns (err: EspErr, outLen: nat)
    requires outBufCap <= outBuf.Length
    modifies outBuf
    ensures err == EspOk <==> Sendable(packet) && |Layout(Normal(packet))| <= outBufCap
    ensures err == EspOk ==> && outLen == |Layout(Normal(packet))|
                             && outBuf[..] == Layout(Normal(packet)) + old(outBuf[outLen..])
    ensures err != EspOk ==> outBuf[..] == old(outBuf[..])
    ensures err == InvalidSize <==> Sendable(packet) && |Layout(Normal(packet))| > outBufCap
    ensures err == InvalidVersion <==> packet.body != [] && packet.version !in {0, VERSION}
  {
    outLen := 0;
    if |packet.body| == 0 {
      return InvalidArg, 0;
    }
    if packet.version != 0 && packet.version != VERSION {
      return InvalidVersion, 0;
    }
    if packet.relay.None? && HasRelayFlag(packet.flags) {
      return InvalidArg, 0;
    }
    if packet.relay.Some? && packet.relay.value.ttl == 0 {
      return InvalidArg, 0;
    }
    var frameLen := HEADER_SIZE + |packet.body|;
    if packet.relay.Some? {
      frameLen := frameLen + RELAY_EXTENSION_SIZE;
    }
    if frameLen > outBufCap {
      return InvalidSize, 0;
    }
    var sent := Normal(packet);
    ghost var before := outBuf[..];
    PutHeader(sent, outBuf);
    var bodyOffset := HEADER_SIZE;
    if packet.relay.Some? {
      PutRelay(packet.relay.value, outBuf);
      bodyOffset := bodyOffset + RELAY_EXTENSION_SIZE;
    }
    ghost var head := HeaderOctets(sent) + (if packet.relay.Some? then RelayOctets(packet.relay.value) else []);
    assert outBuf[..] == head + before[bodyOffset..];
    PutBody(packet.body, bodyOffset, outBuf);
    assert outBuf[..] == head + packet.body + before[frameLen..];
    err, outLen := EspOk, frameLen;
  }

  /** `ef_onair_decode_packet` looks at the length, then the version, then the extension. */
  function DecodePacket(frame: seq<byte>): (r: (EspErr, Option<Packet>))
    ensures r.0 == EspOk <==> r.1.Some?
  {
    if |frame| < HEADER_SIZE + 1 then (InvalidArg, None)
    else if frame[0] != VERSION then (InvalidVersion, None)
    else if !HasRelayFlag(frame[2]) then
      (EspOk, Some(Packet(frame[0], frame[1], frame[2], frame[3], Le16(frame[4], frame[5]), Le16(frame[6], frame[7]),
                          None, frame[HEADER_SIZE..])))
    else if |frame| < HEADER_SIZE + RELAY_EXTENSION_SIZE + 1 then (InvalidArg, None)
    else
      var relay := Relay(Le16(frame[8], frame[9]), Le16(frame[10], frame[11]), frame[12], frame[13], frame[14]);
      (EspOk, Some(Packet(frame[0], frame[1], frame[2], frame[3], Le16(frame[4], frame[5]), Le16(frame[6], frame[7]),
                          Some(relay), frame[HEADER_SIZE + RELAY_EXTENSION_SIZE..])))
  }

  lemma FirmwareDecodesLikeHost(frame: seq<byte>)
    ensures DecodePacket(frame).1 == if Decode(frame).Ok? then Some(Decode(frame).value) else None
  {
  }

  // ---------------------------------------------------------------------------------------------
  // Relay forwarding

  const FRESH_TTL: byte := 2

  /** The relay fields a forwarder starts from; a packet without extension counts as fresh. */
  function RelayView(p: Packet): Relay
  {
    if p.relay.Some? then p.relay.value else Relay(p.source, 0, FRESH_TTL, 0, 0)
  }

  predicate Forwardable(p: Packet, relayId: u16)
  {
    relayId != 0 && RelayView(p).origin != 0 && RelayView(p).ttl > 1
  }

  /** `BuildRelayForward` changes a copy of the packet, field by field. */
  method BuildRelayForward(packet: Packet, relayId: u16) returns (r: Result<Packet>)
    ensures r.Ok? <==> Forwardable(packet, relayId)
    ensures r.Ok? ==> r.value == Forwarded(packet, relayId)
  {
    if relayId == 0 {
      return Err("relay forward requires relay short id");
    }
    var origin := packet.source;
    var ttl: byte := 2;
    var hopCount: byte := 0;
    var routeHint: byte := 0;
    if packet.relay.Some? {
      origin := packet.relay.value.origin;
      ttl := packet.relay.value.ttl;
      hopCount := packet.relay.value.hopCount;
      routeHint := packet.relay.value.routeHint;
    }
    if origin == 0 {
      return Err("relay forward requires origin short id");
    }
    if ttl <= 1 {
      return Err("relay ttl exhausted");
    }
    var forwarded := packet;
    forwarded := forwarded.(flags := SetRelayFlag(packet.flags));
    forwarded := forwarded.(source := relayId);
    forwarded := forwarded.(relay := Some(Relay(origin, relayId, ttl - 1, (hopCount + 1) % 0x100, routeHint)));
    r := Ok(forwarded);
  }

  function Forwarded(p: Packet, relayId: u16): Packet
    requires Forwardable(p, relayId)
  {
    var v := RelayView(p);
    p.(flags := SetRelayFlag(p.flags), source := relayId,
       relay := Some(Relay(v.origin, relayId, v.ttl - 1, (v.hopCount + 1) % 0x100, v.routeHint)))
  }

  /** `ef_onair_build_relay_forward` refuses an empty body too. */
  method BuildRelayForwardFirmware(packet: Packet, relayId: u16) returns (err: EspErr, out: Option<Packet>)
    ensures err == EspOk <==> out.Some?
    ensures out == if Forwardable(packet, relayId) && packet.body != [] then Some(Forwarded(packet, relayId)) else None
  {
    if packet.body == [] || relayId == 0 {
      return InvalidArg, None;
    }
    var origin := packet.source;
    var ttl: byte, hopCount: byte, routeHint: byte := 2, 0, 0;
    if packet.relay.Some? {
      origin, ttl := packet.relay.value.origin, packet.relay.value.ttl;
      hopCount, routeHint := packet.relay.value.hopCount, packet.relay.value.routeHint;
    }
    if origin == 0 || ttl <= 1 {
      return InvalidArg, None;
    }
    var relay := Relay(origin, relayId, ttl - 1, (hopCount + 1) % 0x100, routeHint);
    out := Some(packet.(flags := SetRelayFlag(packet.flags), source := relayId, relay := Some(relay)));
    err := EspOk;
  }

  /** A packet that was received has a body, so both forwarders treat it alike. */
  lemma ReceivedPacketsHaveBody(f: seq<byte>)
    requires Decode(f).Ok?
    ensures Decode(f).value.body != []
  {
  }

  /** The identity of a packet on the radio, whichever relay it was heard from; the digest of the
      body is any deterministic function. */
  datatype OnAirKey = OnAirKey(source: u16, target: u16, sequence: byte, logicalType: byte, digest: seq<byte>)

  function StableKey(p: Packet, digest: seq<byte> -> seq<byte>): OnAirKey
  {
    var source := if p.relay.Some? && p.relay.value.origin != 0 then p.relay.value.origin else p.source;
    OnAirKey(source, p.target, p.sequence, p.logicalType, digest(p.body))
  }

  /** Two packets have one key exactly if they agree on origin, target, sequence, logical type and the digest of
      the body; the origin is the relay extension's unless that is zero, and otherwise the source. */
  lemma SameKeyIff(p: Packet, q: Packet, digest: seq<byte> -> seq<byte>)
    ensures StableKey(p, digest) == StableKey(q, digest) <==>
              && (if p.relay.Some? && p.relay.value.origin > 0 then p.relay.value.origin else p.source)
                 == (if q.relay.Some? && q.relay.value.origin > 0 then q.relay.value.origin else q.source)
              && p.target == q.target && p.sequence == q.sequence && p.logicalType == q.logicalType
              && digest(p.body) == digest(q.body)
  {
  }

  /** One relay at work on a wire frame: decode, forward, encode. */
  function Hop(f: seq<byte>, relayId: u16): Option<seq<byte>>
  {
    if Decode(f).Err? || !Forwardable(Decode(f).value, relayId) then None
    else
      var q := Forwarded(Decode(f).value, relayId);
      if Sendable(q) then Some(Layout(Normal(q))) else None
  }

  /** A wire frame carried over a chain of relays. */
  function Relayed(f: seq<byte>, relays: seq<u16>): Option<seq<byte>>
    decreases |relays|
  {
    if relays == [] then Some(f)
    else
      var before := Relayed(f, relays[..|relays| - 1]);
      if before.None? then None else Hop(before.value, relays[|relays| - 1])
  }

  /** `q` is `p` after some hops: same key and body, lifetime lower by the number of hops, and
      lifetime plus hop count the same modulo 256. */
  ghost predicate SamePacketAfter(p: Packet, q: Packet, hops: nat, digest: seq<byte> -> seq<byte>)
  {
    var v, w := RelayView(p), RelayView(q);
    && StableKey(q, digest) == StableKey(p, digest)
    && q.body == p.body
    && w.origin == v.origin && w.routeHint == v.routeHint
    && w.ttl + hops == v.ttl
    && (w.ttl + w.hopCount) % 0x100 == (v.ttl + v.hopCount) % 0x100
  }

  lemma HopTotal(ttl: byte, hopCount: byte)
    requires ttl > 0
    ensures (ttl - 1 + (hopCount + 1) % 0x100) % 0x100 == (ttl + hopCount) % 0x100
  {
  }

  lemma ForwardingKeepsIdentity(p: Packet, relayId: u16, digest: seq<byte> -> seq<byte>)
    requires Forwardable(p, relayId)
    ensures SamePacketAfter(p, Forwarded(p, relayId), 1, digest)
  {
    HopTotal(RelayView(p).ttl, RelayView(p).hopCount);
  }

  lemma HopDecodes(f: seq<byte>, relayId: u16)
    requires Decode(f).Ok?
    ensures Hop(f, relayId).Some? <==> Forwardable(Decode(f).value, relayId)
    ensures Hop(f, relayId).Some? ==> Decode(Hop(f, relayId).value) == Ok(Forwarded(Decode(f).value, relayId))
  {
    var p := Decode(f).value;
    if Forwardable(p, relayId) {
      DecodeEncode(Forwarded(p, relayId));
      assert Normal(Forwarded(p, relayId)) == Forwarded(p, relayId);
    }
  }

  /** Over any chain of hops the key and the body stay, the lifetime falls by one a hop, and
      lifetime plus hop count is constant modulo 256. */
  lemma {:induction false} ChainKeepsIdentity(f: seq<byte>, relays: seq<u16>, digest: seq<byte> -> seq<byte>)
    requires Decode(f).Ok? && Relayed(f, relays).Some?
    ensures Decode(Relayed(f, relays).value).Ok?
    ensures SamePacketAfter(Decode(f).value, Decode(Relayed(f, relays).value).value, |relays|, digest)
    decreases |relays|
  {
    if relays != [] {
      var init, last := relays[..|relays| - 1], relays[|relays| - 1];
      ChainKeepsIdentity(f, init, digest);
      var g := Relayed(f, init).value;
      HopDecodes(g, last);
      ForwardingKeepsIdentity(Decode(g).value, last, digest);
      SameAfterBoth(Decode(f).value, Decode(g).value, Forwarded(Decode(g).value, last), |init|, digest);
    }
  }

  lemma SameAfterBoth(p: Packet, q: Packet, r: Packet, hops: nat, digest: seq<byte> -> seq<byte>)
    requires SamePacketAfter(p, q, hops, digest) && SamePacketAfter(q, r, 1, digest)
    ensures SamePacketAfter(p, r, hops + 1, digest)
  {
  }

  /** A chain is carried to its end exactly when every relay has an id, the origin is known and the
      chain is shorter than the lifetime: t - 1 hops for lifetime t, one hop for a fresh packet. */
  lemma {:induction false} ChainSucceedsIff(f: seq<byte>, relays: seq<u16>)
    requires Decode(f).Ok? && relays != []
    ensures var v := RelayView(Decode(f).value);
            Relayed(f, relays).Some? <==> 0 !in relays && v.origin != 0 && |relays| < v.ttl
    decreases |relays|
  {
    var init, last := relays[..|relays| - 1], relays[|relays| - 1];
    assert 0 in relays <==> 0 in init || last == 0 by {
      assert relays == init + [last];
    }
    if init != [] {
      ChainSucceedsIff(f, init);
    }
    if Relayed(f, init).Some? {
      ChainKeepsIdentity(f, init, b => b);
      HopDecodes(Relayed(f, init).value, last);
    }
  }

  lemma FreshForwarded(p: Packet, relayId: u16)
    requires p.relay.None? && p.source != 0 && relayId != 0
    ensures Forwardable(p, relayId)
    ensures Forwarded(p, relayId) == p.(flags := SetRelayFlag(p.flags), source := relayId,
                                        relay := Some(Relay(p.source, relayId, 1, 1, 0)))
  {
  }

  /** One relay carries a packet without relay extension: it names itself and the origin, and leaves a lifetime of
      one. */
  lemma FreshPacketAfterOneRelay(p: Packet, relayId: u16)
    requires Sendable(p) && p.relay.None? && p.source != 0 && relayId != 0
    ensures Relayed(Layout(Normal(p)), [relayId]).Some?
    ensures Decode(Relayed(Layout(Normal(p)), [relayId]).value) ==
              Ok(Normal(p).(flags := SetRelayFlag(p.flags), source := relayId,
                            relay := Some(Relay(p.source, relayId, 1, 1, 0))))
  {
    var f := Layout(Normal(p));
    DecodeEncode(p);
    FreshForwarded(Normal(p), relayId);
    HopDecodes(f, relayId);
    assert [relayId][..0] == [] && Relayed(f, []) == Some(f);
  }

  /** No second relay carries it further. */
  lemma FreshPacketIsForwardedOnce(p: Packet, relays: seq<u16>)
    requires Sendable(p) && p.relay.None? && p.source != 0 && relays != [] && 0 !in relays
    ensures Relayed(Layout(Normal(p)), relays).Some? <==> |relays| == 1
  {
    DecodeEncode(p);
    ChainSucceedsIff(Layout(Normal(p)), relays);
  }

  // ---------------------------------------------------------------------------------------------
  // Typed bodies

  datatype Body =
    | State(keyToken: byte, valueToken: byte, eventWake: bool)
    | Event(eventCode: byte, severity: byte, valueBucket: byte, eventFlags: byte)
    | CommandResult(resultToken: u16, phaseToken: byte, reasonToken: byte)
    | PendingDigest(pendingCount: byte, digestFlags: byte)
    | TinyPoll(serviceLevel: byte)
    | CompactCommand(commandToken: u16, commandKind: byte, argument: byte, expiresInSec: byte)
    | Heartbeat(health: byte, batteryBucket: byte, linkQuality: byte, uptimeBucket: byte, heartbeatFlags: byte)

  function TypeOf(b: Body): byte
  {
    match b
    case State(_, _, _) => TYPE_STATE
    case Event(_, _, _, _) => TYPE_EVENT
    case CommandResult(_, _, _) => TYPE_COMMAND_RESULT
    case PendingDigest(_, _) => TYPE_PENDING_DIGEST
    case TinyPoll(_) => TYPE_TINY_POLL
    case CompactCommand(_, _, _, _) => TYPE_COMPACT_COMMAND
    case Heartbeat(_, _, _, _, _) => TYPE_HEARTBEAT
  }

  function BodyOctets(b: Body): seq<byte>
  {
    match b
    case State(key, value, wake) => [key, value, if wake then 1 else 0]
    case Event(code, severity, bucket, flags) => [code, severity, bucket, flags]
    case CommandResult(token, phase, reason) => [Lo(token), Hi(token), phase, reason]
    case PendingDigest(count, flags) => [count, flags]
    case TinyPoll(level) => [level]
    case CompactCommand(token, kind, argument, expires) => [Lo(token), Hi(token), kind, argument, expires]
    case Heartbeat(health, battery, quality, uptime, flags) => [health, battery, quality, uptime, flags]
  }

  /** The packet the typed encoders build: a command is addressed, everything else is announced,
      and a tiny poll is never a summary. */
  function TypedPacket(id: u16, summary: bool, sequence: byte, b: Body): Packet
  {
    Packet(0, TypeOf(b), if summary && !b.TinyPoll? then 1 else 0, sequence,
           if b.CompactCommand? then 0 else id, if b.CompactCommand? then id else 0, None, BodyOctets(b))
  }

  function DecodeBody(p: Packet): Result<Body>
  {
    var o := p.body;
    if p.logicalType == TYPE_STATE && |o| == 3 then Ok(State(o[0], o[1], o[2] != 0))
    else if p.logicalType == TYPE_EVENT && |o| == 4 then Ok(Event(o[0], o[1], o[2], o[3]))
    else if p.logicalType == TYPE_COMMAND_RESULT && |o| == 4 then Ok(CommandResult(Le16(o[0], o[1]), o[2], o[3]))
    else if p.logicalType == TYPE_PENDING_DIGEST && |o| == 2 then Ok(PendingDigest(o[0], o[1]))
    else if p.logicalType == TYPE_TINY_POLL && |o| == 1 then Ok(TinyPoll(o[0]))
    else if p.logicalType == TYPE_COMPACT_COMMAND && |o| == 5 then
      Ok(CompactCommand(Le16(o[0], o[1]), o[2], o[3], o[4]))
    else if p.logicalType == TYPE_HEARTBEAT && |o| == 5 then Ok(Heartbeat(o[0], o[1], o[2], o[3], o[4]))
    else Err("invalid frame")
  }

  lemma BodyRoundTrip(p: Packet, b: Body)
    requires p.logicalType == TypeOf(b) && p.body == BodyOctets(b)
    ensures DecodeBody(p) == Ok(b)
  {
    match b
    case CommandResult(token, _, _) => Le16Determines(Lo(token), Hi(token), token);
    case CompactCommand(token, _, _, _) => Le16Determines(Lo(token), Hi(token), token);
    case _ =>
  }

  /** A typed body comes back from the wire as it was sent, with sender or addressee, sequence and summary flag. */
  lemma TypedRoundTrip(id: u16, summary: bool, sequence: byte, b: Body)
    ensures var p := TypedPacket(id, summary, sequence, b);
            && Sendable(p) && Decode(Layout(Normal(p))) == Ok(Normal(p)) && DecodeBody(Normal(p)) == Ok(b)
            && HasSummaryFlag(Normal(p).flags) == (summary && !b.TinyPoll?)
  {
    var p := TypedPacket(id, summary, sequence, b);
    DecodeEncode(p);
    BodyRoundTrip(Normal(p), b);
  }

  /** Typed decoding loses nothing but the exact non-zero value of a state's wake octet. */
  lemma BodyIsDetermined(p: Packet)
    requires DecodeBody(p).Ok?
    ensures var b := DecodeBody(p).value;
            && TypeOf(b) == p.logicalType
            && (BodyOctets(b) == p.body <==> !(b.State? && p.body[2] > 1))
  {
    var o := p.body;
    var b := DecodeBody(p).value;
    if b.CommandResult? {
      Le16Determines(o[0], o[1], b.resultToken);
    }
    if b.CompactCommand? {
      Le16Determines(o[0], o[1], b.commandToken);
    }
    if b.State? {
      assert BodyOctets(b)[2] == if o[2] != 0 then 1 else 0;
    }
  }

  // ---------------------------------------------------------------------------------------------
  // The frames, octet by octet

  /** What each typed body looks like on the air, for a node with the given id. */
  lemma TypedFrames(id: u16, sequence: byte, b: Body)
    ensures var lo, hi, s := id % 256, id / 256, sequence;
            Layout(Normal(TypedPacket(id, true, sequence, b))) ==
              match b
              case State(k, v, wake) => [1, 1, 1, s, lo, hi, 0, 0, k, v, if wake then 1 else 0]
              case Event(code, severity, bucket, flags) => [1, 2, 1, s, lo, hi, 0, 0, code, severity, bucket, flags]
              case CommandResult(t, phase, reason) =>
                [1, 3, 1, s, lo, hi, 0, 0, t % 256, t / 256, phase, reason]
              case PendingDigest(count, flags) => [1, 4, 1, s, lo, hi, 0, 0, count, flags]
              case TinyPoll(level) => [1, 5, 0, s, lo, hi, 0, 0, level]
              case CompactCommand(t, kind, argument, expires) =>
                [1, 6, 1, s, 0, 0, lo, hi, t % 256, t / 256, kind, argument, expires]
              case Heartbeat(health, battery, quality, uptime, flags) =>
                [1, 7, 1, s, lo, hi, 0, 0, health, battery, quality, uptime, flags]
  {
  }

  /** A relayed frame: the relay flag, the relay as source, and seven octets of extension before the body. */
  lemma RelayedFrame(p: Packet, r: Relay)
    requires p.version == 1 && p.relay == Some(r) && !HasRelayFlag(p.flags)
    ensures Layout(Normal(p)) ==
              [1, p.logicalType, p.flags + 2, p.sequence, p.source % 256, p.source / 256, p.target % 256,
               p.target / 256, r.origin % 256, r.origin / 256, r.previousHop % 256, r.previousHop / 256, r.ttl,
               r.hopCount, r.routeHint] + p.body
  {
  }
}
