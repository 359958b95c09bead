/**
 The USB CDC frame: "EF", version, type, little-endian payload length, payload, checksum.
 The firmware encoder and validator and the host's encoder and decoder are shown to speak the
 same language, and no change confined to four consecutive octets turns a frame into another one.
 */
module UsbFrame {
  import opened Bytes
  import opened Crc32
  import opened Wrappers

  const MAGIC_0: byte := 0x45
  const MAGIC_1: byte := 0x46
  const VERSION: byte := 1
  const HEADER_SIZE := 6
  const CHECKSUM_SIZE := 4

  datatype EspErr = EspOk | InvalidArg | InvalidSize | InvalidResponse | NotSupported | InvalidCrc | Timeout

  predicate TypeIsValid(frameType: byte) { 1 <= frameType <= 5 }

  function Header(frameType: byte, payloadLen: u16): seq<byte>
  {
    [MAGIC_0, MAGIC_1, VERSION, frameType, Lo(payloadLen), Hi(payloadLen)]
  }

  /** The frame as it travels, defined without reference to either program. */
  function Framed(frameType: byte, payload: seq<byte>): (f: seq<byte>)
    requires |payload| < 0x1_0000
    ensures |f| == HEADER_SIZE + |payload| + CHECKSUM_SIZE
  {
    var covered := Header(frameType, |payload|) + payload;
    covered + Octets(Checksum(covered))
  }

  /** The frame octet by octet: "EF", version 1, type and length before the payload, the checksum after it, lengths
      and checksum with the low octet first. */
  lemma FramedOctets(frameType: byte, payload: seq<byte>)
    requires |payload| < 0x1_0000
    ensures var f := Framed(frameType, payload);
            && f[..6] == [0x45, 0x46, 1, frameType, |payload| % 256, |payload| / 256]
            && f[6..6 + |payload|] == payload
            && Word(f[6 + |payload|..]) == Checksum(f[..6 + |payload|])
  {
    var covered := Header(frameType, |payload|) + payload;
    var f := Framed(frameType, payload);
    assert f[..6 + |payload|] == covered && f[6 + |payload|..] == Octets(Checksum(covered));
    WordOfOctets(Checksum(covered));
  }

  /** The types 1 to 5 are valid. */
  lemma ValidTypes(t: byte)
    ensures TypeIsValid(t) <==> t == 1 || t == 2 || t == 3 || t == 4 || t == 5
  {
  }

  // ---------------------------------------------------------------------------------------------
  // The firmware side

  /** The verdict of `ef_usb_frame_validate`, check by check in its order. */
  function Verdict(frame: seq<byte>): EspErr
  {
    if |frame| < 10 then InvalidSize
    else if frame[0] != MAGIC_0 || frame[1] != MAGIC_1 then InvalidResponse
    else if frame[2] != VERSION then NotSupported
    else if !TypeIsValid(frame[3]) then InvalidArg
    else if HEADER_SIZE + Le16(frame[4], frame[5]) + CHECKSUM_SIZE != |frame| then InvalidSize
    else if Checksum(frame[..|frame| - 4]) != Word(frame[|frame| - 4..]) then InvalidCrc
    else EspOk
  }

  method Validate(frame: array<byte>, frameLen: nat) returns (err: EspErr)
    requires frameLen <= frame.Length
    ensures err == Verdict(frame[..frameLen])
  {
    if frameLen < 10 {
      return InvalidSize;
    }
    if frame[0] != MAGIC_0 || frame[1] != MAGIC_1 {
      return InvalidResponse;
    }
    if frame[2] != VERSION {
      return NotSupported;
    }
    if !TypeIsValid(frame[3]) {
      return InvalidArg;
    }
    var payloadLen := Le16(frame[4], frame[5]);
    if HEADER_SIZE + payloadLen + CHECKSUM_SIZE != frameLen {
      return InvalidSize;
    }
    var actual := ComputeCrc32(frame, HEADER_SIZE + payloadLen);
    var stored := frame[frameLen - 4..frameLen];
    assert frame[..frameLen][..frameLen - 4] == frame[..HEADER_SIZE + payloadLen];
    assert frame[..frameLen][frameLen - 4..] == stored;
    err := if actual != Word(stored) then InvalidCrc else EspOk;
  }

  /** `memcpy` into a buffer at an offset. */
  method CopyInto(buf: array<byte>, at: nat, data: seq<byte>)
    requires at + |data| <= buf.Length
    modifies buf
    ensures buf[..] == old(buf[..at]) + data + old(buf[at + |data|..])
  {
    forall i | 0 <= i < |data| {
      buf[at + i] := data[i];
    }
  }

  method WriteHeader(frameType: byte, n: u16, outBuf: array<byte>)
    requires HEADER_SIZE <= outBuf.Length
    modifies outBuf
    ensures outBuf[..] == Header(frameType, n) + old(outBuf[HEADER_SIZE..])
  {
    outBuf[0] := MAGIC_0;
    outBuf[1] := MAGIC_1;
    outBuf[2] := VERSION;
    outBuf[3] := frameType;
    outBuf[4] := n % 0x100;
    outBuf[5] := (n / 0x100) % 0x100;
  }

  method WriteCovered(frameType: byte, payload: seq<byte>, outBuf: array<byte>)
    requires |payload| < 0x1_0000 && HEADER_SIZE + |payload| <= outBuf.Length
    modifies outBuf
    ensures outBuf[..] == Header(frameType, |payload|) + payload + old(outBuf[HEADER_SIZE + |payload|..])
  {
    WriteHeader(frameType, |payload|, outBuf);
    CopyInto(outBuf, HEADER_SIZE, payload);
  }

  method AppendChecksum(n: nat, outBuf: array<byte>)
    requires n + CHECKSUM_SIZE <= outBuf.Length
    modifies outBuf
    ensures outBuf[..] == old(outBuf[..n]) + Octets(Checksum(old(outBuf[..n]))) + old(outBuf[n + CHECKSUM_SIZE..])
  {
    var crc := ComputeCrc32(outBuf, n);
    CopyInto(outBuf, n, Octets(crc));
  }

  /** `ef_usb_frame_encode`: on success exactly the frame is written and nothing beyond it. */
  method Encode(frameType: byte, payload: seq<byte>, outBuf: array<byte>, outBufCap: nat)
    returns (err: EspErr, outLen: nat)
    requires outBufCap <= outBuf.Length
    modifies outBuf
    ensures err == if !TypeIsValid(frameType) then InvalidArg
                   else if |payload| > 0xFFFF || 6 + |payload| + 4 > outBufCap then InvalidSize
                   else EspOk
    ensures err == EspOk ==> && outLen == 6 + |payload| + 4
                             && outBuf[..] == Framed(frameType, payload) + old(outBuf[outLen..])
    ensures err != EspOk ==> outBuf[..] == old(outBuf[..])
  {
    outLen := 0;
    var n := |payload|;
    var total := HEADER_SIZE + n + CHECKSUM_SIZE;
    if !TypeIsValid(frameType) {
      return InvalidArg, outLen;
    }
    if n > 0xFFFF || total > outBufCap {
      return InvalidSize, outLen;
    }
    WriteCovered(frameType, payload, outBuf);
    AppendChecksum(6 + n, outBuf);
    err, outLen := EspOk, total;
  }

  // ---------------------------------------------------------------------------------------------
  // What the validator accepts

  lemma FramedIsAccepted(frameType: byte, payload: seq<byte>)
    requires TypeIsValid(frameType) && |payload| < 0x1_0000
    ensures Verdict(Framed(frameType, payload)) == EspOk
  {
    var f := Framed(frameType, payload);
    var covered := Header(frameType, |payload|) + payload;
    assert f[..|f| - 4] == covered && f[|f| - 4..] == Octets(Checksum(covered));
    WordOfOctets(Checksum(covered));
    Le16Determines(f[4], f[5], |payload|);
  }

  lemma ChecksumOctets(w: seq<byte>)
    requires |w| == 4
    ensures Octets(Word(w)) == w
  {
    WordOfOctets(Word(w));
    WordInjective(Octets(Word(w)), w);
  }

  /** The validator accepts precisely the frames of some valid type and some payload. */
  lemma AcceptedIffFramed(f: seq<byte>)
    ensures Verdict(f) == EspOk <==>
            exists t: byte, p: seq<byte> :: TypeIsValid(t) && |p| < 0x1_0000 && f == Framed(t, p)
  {
    if Verdict(f) == EspOk {
      var p, sum := f[6..|f| - 4], f[|f| - 4..];
      Le16Determines(f[4], f[5], |p|);
      assert f[..|f| - 4] == Header(f[3], |p|) + p;
      ChecksumOctets(sum);
      assert f == Framed(f[3], p);
    }
    forall t: byte, p: seq<byte> | TypeIsValid(t) && |p| < 0x1_0000 && f == Framed(t, p)
      ensures Verdict(f) == EspOk
    {
      FramedIsAccepted(t, p);
    }
  }

  lemma AcceptedLeavesResidue(f: seq<byte>)
    requires Verdict(f) == EspOk
    ensures Register(f) == RESIDUE
  {
    assert f == f[..|f| - 4] + f[|f| - 4..];
    ChecksumIffResidue(f[..|f| - 4], f[|f| - 4..]);
  }

  /** No change confined to four consecutive octets, wherever they lie, header and checksum
      included, turns an accepted frame into another accepted one. */
  lemma BurstIsRejected(f: seq<byte>, g: seq<byte>, at: nat)
    requires Verdict(f) == EspOk && f != g
    requires at + 4 <= |f| && DiffersOnlyIn(f, g, at, 4)
    ensures Verdict(g) != EspOk
  {
    if Verdict(g) == EspOk {
      AcceptedLeavesResidue(f);
      AcceptedLeavesResidue(g);
      BurstChangesRegister(f, g, at);
    }
  }

  /** What a header with several faults is refused for: the first of them. */
  lemma FirstFaultIsNamed(f: seq<byte>)
    requires 10 <= |f|
    ensures Verdict(f) == InvalidResponse <==> f[..2] != [0x45, 0x46]
    ensures Verdict(f) == NotSupported <==> f[..2] == [0x45, 0x46] && f[2] != 1
    ensures Verdict(f) == InvalidArg <==> f[..2] == [0x45, 0x46] && f[2] == 1 && !(1 <= f[3] <= 5)
  {
    assert f[..2] == [f[0], f[1]];
  }

  /** In particular, replacing any one octet by a different value is noticed, and the error tells where it was. */
  lemma OctetReplacementIsRejected(f: seq<byte>, i: nat, b: byte)
    requires Verdict(f) == EspOk && i < |f| && b != f[i]
    ensures Verdict(f[i := b]) == if i < 2 then InvalidResponse
                                  else if i == 2 then NotSupported
                                  else if i == 3 && !(1 <= b <= 5) then InvalidArg
                                  else if i == 4 || i == 5 then InvalidSize
                                  else InvalidCrc
  {
    var at := if i + 4 <= |f| then i else |f| - 4;
    assert f[i := b][i] != f[i];
    BurstIsRejected(f, f[i := b], at);
  }

  // ---------------------------------------------------------------------------------------------
  // The host side

  /** `EncodeFrame` puts no condition on the frame type. */
  method EncodeFrame(frameType: byte, payload: seq<byte>) returns (r: Result<seq<byte>>)
    ensures r.Ok? <==> |payload| <= 0xFFFF
    ensures r.Ok? ==> r.value == Framed(frameType, payload)
  {
    if |payload| > 0xFFFF {
      return Err("payload too large for USB CDC frame");
    }
    var header := new byte[6];
    header[0], header[1] := MAGIC_0, MAGIC_1;
    header[2] := VERSION;
    header[3] := frameType;
    header[4], header[5] := Lo(|payload|), Hi(|payload|);
    assert header[..] == Header(frameType, |payload|);
    var crc := Checksum(header[..] + payload);
    var frame: seq<byte> := [];
    frame := frame + header[..];
    frame := frame + payload;
    frame := frame + Octets(crc);
    r := Ok(frame);
  }

  /** `DecodeFrame`, check by check; unlike the firmware it accepts every frame type. */
  function DecodeFrame(frame: seq<byte>): Result<(byte, seq<byte>)>
  {
    if |frame| < 10 then Err("frame too short")
    else if frame[..2] != [MAGIC_0, MAGIC_1] then Err("invalid frame magic")
    else if frame[2] != VERSION then Err("unsupported frame version")
    else
      var length := Le16(frame[4], frame[5]);
      if |frame| != 10 + length then Err("frame length does not match payload length")
      else if Checksum(frame[..|frame| - 4]) != Word(frame[|frame| - 4..]) then Err("payload CRC mismatch")
      else Ok((frame[3], frame[6..6 + length]))
  }

  lemma FramedDecodes(frameType: byte, payload: seq<byte>)
    requires |payload| < 0x1_0000
    ensures DecodeFrame(Framed(frameType, payload)) == Ok((frameType, payload))
  {
    var g := Framed(frameType, payload);
    var covered := Header(frameType, |payload|) + payload;
    assert g[..|g| - 4] == covered && g[|g| - 4..] == Octets(Checksum(covered));
    assert g[..2] == [MAGIC_0, MAGIC_1] && g[6..6 + |payload|] == payload;
    WordOfOctets(Checksum(covered));
    Le16Determines(g[4], g[5], |payload|);
  }

  lemma DecodedWasFramed(f: seq<byte>, frameType: byte, payload: seq<byte>)
    requires |payload| < 0x1_0000 && DecodeFrame(f) == Ok((frameType, payload))
    ensures f == Framed(frameType, payload)
  {
    Le16Determines(f[4], f[5], |payload|);
    assert f[0] == f[..2][0] && f[1] == f[..2][1];
    assert f[..|f| - 4] == Header(frameType, |payload|) + payload;
    ChecksumOctets(f[|f| - 4..]);
    assert f == f[..|f| - 4] + f[|f| - 4..];
  }

  /** The host decodes exactly what was framed, and only frames. */
  lemma DecodeFrameIsInverse(f: seq<byte>, frameType: byte, payload: seq<byte>)
    requires |payload| < 0x1_0000
    ensures DecodeFrame(f) == Ok((frameType, payload)) <==> f == Framed(frameType, payload)
  {
    FramedDecodes(frameType, payload);
    if DecodeFrame(f) == Ok((frameType, payload)) {
      DecodedWasFramed(f, frameType, payload);
    }
  }

  /** The firmware accepts what the host decodes to one of its five types, and nothing else. */
  lemma FirmwareAgreesWithHost(f: seq<byte>)
    ensures Verdict(f) == EspOk <==> DecodeFrame(f).Ok? && TypeIsValid(DecodeFrame(f).value.0)
  {
    if |f| >= 10 {
      assert f[..2] == [f[0], f[1]];
    }
  }
}
