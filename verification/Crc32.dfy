/**
 The reflected CRC-32 of section 8 of RFC 1952, computed bit by bit as the gateway firmware does.
 One bit step is a linear bijection on 32-bit states, so the checksum register forgets nothing:
 that is what turns the checksum into a proof that any change confined to four consecutive
 octets is noticed.
 */
module Crc32 {
  import opened Bytes
  import opened Folds

  const POLYNOMIAL: bv32 := 0xEDB88320
  const INITIAL: bv32 := 0xFFFF_FFFF

  /** The register after a message followed by its own checksum. */
  const RESIDUE: bv32 := 0xDEBB_20E3

  // ---------------------------------------------------------------------------------------------
  // Octets as bit patterns

  lemma Successor(x: bv8)
    requires x as nat < 255
    ensures (x + 1) as nat == x as nat + 1
  {
  }

  lemma FindPattern(b: byte) returns (r: bv8)
    ensures r as nat == b
  {
    if b == 0 {
      r := 0;
    } else {
      var q := FindPattern(b - 1);
      Successor(q);
      r := q + 1;
    }
  }

  lemma CastKeepsValue(b: byte)
    ensures (b as bv8) as nat == b
  {
    var r := FindPattern(b);
    assert (r as nat) as bv8 == r;
  }

  /** The 8-bit pattern of an octet. */
  function Pattern(b: byte): (r: bv8)
    ensures r as nat == b
  {
    CastKeepsValue(b);
    b as bv8
  }

  function Bits(b: byte): bv32 { Pattern(b) as bv32 }

  function LowOctet(x: bv32): byte { ((x & 0xFF) as bv8) as nat }

  lemma PatternUnique(p: bv8, q: bv8)
    requires p as nat == q as nat
    ensures p == q
  {
    assert (p as nat) as bv8 == p;
    assert (q as nat) as bv8 == q;
  }

  /** Four octets read as a little-endian 32-bit word. */
  function Word(w: seq<byte>): bv32
    requires |w| == 4
  {
    Pack(Pattern(w[0]), Pattern(w[1]), Pattern(w[2]), Pattern(w[3]))
  }

  function Pack(a: bv8, b: bv8, c: bv8, d: bv8): bv32
  {
    (a as bv32) | ((b as bv32) << 8) | ((c as bv32) << 16) | ((d as bv32) << 24)
  }

  lemma PackInjective(a0: bv8, a1: bv8, a2: bv8, a3: bv8, b0: bv8, b1: bv8, b2: bv8, b3: bv8)
    requires Pack(a0, a1, a2, a3) == Pack(b0, b1, b2, b3)
    ensures a0 == b0 && a1 == b1 && a2 == b2 && a3 == b3
  {
  }

  lemma WordInjective(v: seq<byte>, w: seq<byte>)
    requires |v| == |w| == 4 && Word(v) == Word(w)
    ensures v == w
  {
    PackInjective(Pattern(v[0]), Pattern(v[1]), Pattern(v[2]), Pattern(v[3]),
                  Pattern(w[0]), Pattern(w[1]), Pattern(w[2]), Pattern(w[3]));
    assert v[0] == w[0] && v[1] == w[1] && v[2] == w[2] && v[3] == w[3];
  }

  function Octets(w: bv32): (r: seq<byte>)
    ensures |r| == 4
  {
    [LowOctet(w), LowOctet(w >> 8), LowOctet(w >> 16), LowOctet(w >> 24)]
  }

  lemma PackOfParts(w: bv32)
    ensures Pack((w & 0xFF) as bv8, ((w >> 8) & 0xFF) as bv8, ((w >> 16) & 0xFF) as bv8, ((w >> 24) & 0xFF) as bv8) == w
  {
  }

  lemma WordOfOctets(w: bv32)
    ensures Word(Octets(w)) == w
  {
    PackOfParts(w);
    PatternUnique(Pattern(LowOctet(w)), (w & 0xFF) as bv8);
    PatternUnique(Pattern(LowOctet(w >> 8)), ((w >> 8) & 0xFF) as bv8);
    PatternUnique(Pattern(LowOctet(w >> 16)), ((w >> 16) & 0xFF) as bv8);
    PatternUnique(Pattern(LowOctet(w >> 24)), ((w >> 24) & 0xFF) as bv8);
  }

  // ---------------------------------------------------------------------------------------------
  // The bit step

  /** One bit: shift right and, when the bit shifted out is set, add the polynomial. */
  function Step(crc: bv32): bv32
  {
    (crc >> 1) ^ (POLYNOMIAL & (0 - (crc & 1)))
  }

  lemma StepInjective(a: bv32, b: bv32)
    requires Step(a) == Step(b)
    ensures a == b
  {
  }

  lemma StepCases(a: bv32)
    ensures a & 1 == 0 ==> Step(a) == a >> 1
    ensures a & 1 != 0 ==> Step(a) == (a >> 1) ^ POLYNOMIAL
  {
  }

  lemma ShiftXor(a: bv32, b: bv32)
    ensures (a ^ b) >> 1 == (a >> 1) ^ (b >> 1)
    ensures (a ^ b) & 1 == (a & 1) ^ (b & 1)
    ensures a & 1 == 0 || a & 1 == 1
  {
  }

  lemma XorMoves(x: bv32, y: bv32, p: bv32)
    ensures (x ^ p) ^ (y ^ p) == x ^ y
    ensures (x ^ p) ^ y == (x ^ y) ^ p
    ensures x ^ (y ^ p) == (x ^ y) ^ p
  {
  }

  function Xor(a: bv32, b: bv32): bv32 { a ^ b }

  /** The bit step is linear over exclusive or. */
  lemma StepAdditive(a: bv32, b: bv32)
    ensures Step(Xor(a, b)) == Xor(Step(a), Step(b))
  {
    StepCases(a);
    StepCases(b);
    StepCases(a ^ b);
    ShiftXor(a, b);
    ShiftXor(b, a);
    XorMoves(a >> 1, b >> 1, POLYNOMIAL);
  }

  function Steps(n: nat, crc: bv32): bv32 { Iterate(Step, n, crc) }

  lemma StepsInjective(n: nat, a: bv32, b: bv32)
    requires Steps(n, a) == Steps(n, b)
    ensures a == b
  {
    forall x, y | Step(x) == Step(y) ensures x == y { StepInjective(x, y); }
    IterateInjective(Step, n, a, b);
  }

  lemma StepsAdditive(n: nat, a: bv32, b: bv32)
    ensures Steps(n, Xor(a, b)) == Xor(Steps(n, a), Steps(n, b))
  {
    forall x, y ensures Step(Xor(x, y)) == Xor(Step(x), Step(y)) { StepAdditive(x, y); }
    IterateAdditive(Step, Xor, n, a, b);
  }

  lemma EightShifts(v: bv32)
    requires v <= 0xFF_FFFF
    ensures Step(Step(Step(Step(Step(Step(Step(Step(v << 8)))))))) == v
  {
  }

  lemma EightSteps(c: bv32)
    ensures Steps(8, c) == Step(Step(Step(Step(Step(Step(Step(Step(c))))))))
  {
    IterateAdd(Step, 2, 2, c);
    IterateAdd(Step, 4, 2, c);
    IterateAdd(Step, 6, 2, c);
    TwoSteps(c);
    TwoSteps(Steps(2, c));
    TwoSteps(Steps(4, c));
    TwoSteps(Steps(6, c));
  }

  lemma TwoSteps(c: bv32)
    ensures Steps(2, c) == Step(Step(c))
  {
    assert Iterate(Step, 1, c) == Step(Iterate(Step, 0, c));
  }

  // ---------------------------------------------------------------------------------------------
  // The register over a message

  function Up(v: bv32): bv32 { v << 8 }

  function OctetSteps(crc: bv32): bv32 { Steps(8, crc) }

  function ByteStep(crc: bv32, b: byte): bv32 { OctetSteps(Xor(crc, Bits(b))) }

  function Register(data: seq<byte>): bv32 { Fold(ByteStep, INITIAL, data) }

  function Checksum(data: seq<byte>): bv32 { !Register(data) }

  lemma ByteStepForgetsNothing()
    ensures ForgetsNothing(ByteStep)
  {
    forall s, t, d | ByteStep(s, d) == ByteStep(t, d) ensures s == t {
      StepsInjective(8, Xor(s, Bits(d)), Xor(t, Bits(d)));
      XorMoves(s, t, Bits(d));
    }
  }

  lemma XorAssociative(x: bv32, y: bv32, z: bv32)
    ensures Xor(Xor(x, y), z) == Xor(x, Xor(y, z))
  {
  }

  predicate Small(v: bv32) { v <= 0xFF_FFFF }

  /** A little-endian word is its octets added up, each shifted up with all that follow it. */
  lemma NestedWord(a: bv8, b: bv8, c: bv8, d: bv8)
    ensures var r3 := d as bv32;
            var r2 := Xor(c as bv32, Up(r3));
            var r1 := Xor(b as bv32, Up(r2));
            Small(r3) && Small(r2) && Small(r1) && Pack(a, b, c, d) == Xor(a as bv32, Up(r1))
  {
  }

  lemma UpCarriedDown(v: bv32)
    requires Small(v)
    ensures OctetSteps(Up(v)) == v
  {
    EightSteps(Up(v));
    EightShifts(v);
  }

  lemma OctetStepsAdditive(x: bv32, y: bv32)
    ensures OctetSteps(Xor(x, y)) == Xor(OctetSteps(x), OctetSteps(y))
  {
    StepsAdditive(8, x, y);
  }

  /** What is due after an octet's steps may be added before them. */
  lemma AddEarly(s: bv32, x: bv32, rest: bv32)
    requires Small(rest)
    ensures Xor(OctetSteps(Xor(s, x)), rest) == OctetSteps(Xor(s, Xor(x, Up(rest))))
  {
    XorAssociative(s, x, Up(rest));
    OctetStepsAdditive(Xor(s, x), Up(rest));
    UpCarriedDown(rest);
  }

  lemma TwoEarly(s: bv32, x: bv32, y: bv32, rest: bv32)
    requires Small(rest) && Small(Xor(y, Up(rest)))
    ensures Xor(OctetSteps(Xor(OctetSteps(Xor(s, x)), y)), rest)
         == OctetSteps(OctetSteps(Xor(s, Xor(x, Up(Xor(y, Up(rest)))))))
  {
    AddEarly(OctetSteps(Xor(s, x)), y, rest);
    AddEarly(s, x, Xor(y, Up(rest)));
  }

  /** Four values added one before each octet's steps may be added together before the first. */
  lemma FourEarly(s: bv32, a: bv32, b: bv32, c: bv32, d: bv32)
    requires Small(d) && Small(Xor(c, Up(d))) && Small(Xor(b, Up(Xor(c, Up(d)))))
    ensures OctetSteps(Xor(OctetSteps(Xor(OctetSteps(Xor(OctetSteps(Xor(s, a)), b)), c)), d))
         == OctetSteps(OctetSteps(OctetSteps(OctetSteps(Xor(s, Xor(a, Up(Xor(b, Up(Xor(c, Up(d)))))))))))
  {
    TwoEarly(OctetSteps(Xor(s, a)), b, c, d);
    AddEarly(s, a, Xor(b, Up(Xor(c, Up(d)))));
  }

  lemma FourByteSteps(crc: bv32, w: seq<byte>)
    requires |w| == 4
    ensures Fold(ByteStep, crc, w) == ByteStep(ByteStep(ByteStep(ByteStep(crc, w[0]), w[1]), w[2]), w[3])
  {
    FoldFour(ByteStep, crc, w);
  }

  lemma ThirtyTwoSteps(c: bv32)
    ensures Steps(32, c) == OctetSteps(OctetSteps(OctetSteps(OctetSteps(c))))
  {
    IterateAdd(Step, 8, 8, c);
    IterateAdd(Step, 16, 8, c);
    IterateAdd(Step, 24, 8, c);
  }

  lemma PackedSteps(crc: bv32, a: bv8, b: bv8, c: bv8, d: bv8)
    ensures OctetSteps(Xor(OctetSteps(Xor(OctetSteps(Xor(OctetSteps(Xor(crc, a as bv32)), b as bv32)), c as bv32)),
                           d as bv32))
         == Steps(32, Xor(crc, Pack(a, b, c, d)))
  {
    NestedWord(a, b, c, d);
    FourEarly(crc, a as bv32, b as bv32, c as bv32, d as bv32);
    ThirtyTwoSteps(Xor(crc, Pack(a, b, c, d)));
  }

  /** Four octets enter the register as one little-endian word. */
  lemma FourOctets(crc: bv32, w: seq<byte>)
    requires |w| == 4
    ensures Fold(ByteStep, crc, w) == Steps(32, Xor(crc, Word(w)))
  {
    FourByteSteps(crc, w);
    PackedSteps(crc, Pattern(w[0]), Pattern(w[1]), Pattern(w[2]), Pattern(w[3]));
  }

  lemma ResidueOfOnes()
    ensures Steps(32, INITIAL) == RESIDUE
  {
    var a := Steps(8, INITIAL);
    var b := Steps(8, a);
    EightSteps(INITIAL);
    EightSteps(a);
    EightSteps(b);
    EightSteps(Steps(8, b));
    ThirtyTwoSteps(INITIAL);
  }

  lemma XorCancels(x: bv32, y: bv32)
    ensures Xor(x, Xor(x, y)) == y
  {
  }

  lemma ComplementByXor(x: bv32)
    ensures Xor(x, !x) == INITIAL && Xor(x, INITIAL) == !x
  {
  }

  lemma OnlyOnesLeaveResidue(x: bv32)
    ensures Steps(32, x) == RESIDUE <==> x == INITIAL
  {
    ResidueOfOnes();
    if Steps(32, x) == RESIDUE {
      StepsInjective(32, x, INITIAL);
    }
  }

  lemma RegisterAfterChecksum(data: seq<byte>, sum: seq<byte>)
    requires |sum| == 4
    ensures Register(data + sum) == Steps(32, Xor(Register(data), Word(sum)))
  {
    FoldConcat(ByteStep, INITIAL, data, sum);
    FourOctets(Register(data), sum);
  }

  /** The stored checksum is right exactly when the register over message and checksum is the residue. */
  lemma ChecksumIffResidue(data: seq<byte>, sum: seq<byte>)
    requires |sum| == 4
    ensures Word(sum) == Checksum(data) <==> Register(data + sum) == RESIDUE
  {
    RegisterAfterChecksum(data, sum);
    OnlyOnesLeaveResidue(Xor(Register(data), Word(sum)));
    ComplementByXor(Register(data));
    XorCancels(Register(data), Word(sum));
  }

  /** Any change confined to four consecutive octets changes the register. */
  lemma BurstChangesRegister(f: seq<byte>, g: seq<byte>, at: nat)
    requires at + 4 <= |f| && DiffersOnlyIn(f, g, at, 4)
    requires Register(f) == Register(g)
    ensures f == g
  {
    var head, v, w, tail := f[..at], f[at..at + 4], g[at..at + 4], f[at + 4..];
    assert f == head + v + tail && g == head + w + tail;
    ByteStepForgetsNothing();
    FoldReachesWindow(ByteStep, INITIAL, head, v, w, tail);
    var s := Fold(ByteStep, INITIAL, head);
    FourOctets(s, v);
    FourOctets(s, w);
    StepsInjective(32, Xor(s, Word(v)), Xor(s, Word(w)));
    XorCancels(s, Word(v));
    XorCancels(s, Word(w));
    WordInjective(v, w);
  }

  method RunBits(entered: bv32) returns (crc: bv32)
    ensures crc == OctetSteps(entered)
  {
    crc := entered;
    for bit := 0 to 8
      invariant crc == Iterate(Step, bit, entered)
    {
      var mask := 0 - (crc & 1);
      crc := (crc >> 1) ^ (POLYNOMIAL & mask);
    }
  }

  /** `ef_crc32`, its inner loop being `RunBits`: the checksum of the first `len` octets. */
  method ComputeCrc32(data: array<byte>, len: nat) returns (crc: bv32)
    requires len <= data.Length
    ensures crc == Checksum(data[..len])
  {
    crc := INITIAL;
    for i := 0 to len
      invariant crc == Fold(ByteStep, INITIAL, data[..i])
    {
      FoldNext(ByteStep, INITIAL, data[..], i);
      assert data[..][..i] == data[..i] && data[..][..i + 1] == data[..i + 1];
      crc := RunBits(Xor(crc, Bits(data[i])));
    }
    crc := !crc;
  }
}
