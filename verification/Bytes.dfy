/** Octets and little-endian 16-bit fields, shared by the USB framing and the on-air codec. */
module Bytes {

  type byte = x: int | 0 <= x < 0x100

  type u16 = x: int | 0 <= x < 0x1_0000

  function Lo(v: u16): byte { v % 0x100 }

  function Hi(v: u16): byte { v / 0x100 }

  function Le16(lo: byte, hi: byte): u16 { lo + 0x100 * hi }

  /** The two little-endian octets and the 16-bit value determine each other. */
  lemma Le16Determines(lo: byte, hi: byte, v: u16)
    ensures v == Le16(lo, hi) <==> lo == Lo(v) && hi == Hi(v)
  {
  }

  /** `g` has the length of `f` and differs from it at most inside the window `[at, at + width)`. */
  ghost predicate DiffersOnlyIn(f: seq<byte>, g: seq<byte>, at: nat, width: nat)
  {
    && |g| == |f|
    && forall i :: 0 <= i < |f| && !(at <= i < at + width) ==> g[i] == f[i]
  }
}
