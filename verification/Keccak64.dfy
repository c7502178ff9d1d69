/** Keccak-f[1600] on lanes of 64 bits. */
module Keccak64 {
  import opened Common
  import opened KeccakSpec
  import opened KeccakLanes
  import opened KeccakSponge
  import C = KeccakContext

  /** ROL64. */
  function Rol(v: bv64, n: bv64): bv64 {
    if n < 64 then (v << n) | (v >> (64 - n)) else v
  }

  function Xor(a: bv64, b: bv64): bv64 { a ^ b }

  function And(a: bv64, b: bv64): bv64 { a & b }

  function Or(a: bv64, b: bv64): bv64 { a | b }

  function Not(a: bv64): bv64 { !a }

  function Ops64(): Ops<bv64> { Ops(Xor, And, Or, Not, Rol) }

  // --- the laws hold --------------------------------------------------------------------

  lemma RolNot0()
    ensures RotatesBy(Ops64(), 0)
  {
    forall v: bv64 ensures Rol(!v, 0) == !Rol(v, 0) {}
  }

  lemma RolNot1()
    ensures RotatesBy(Ops64(), 1)
  {
    forall v: bv64 ensures Rol(!v, 1) == !Rol(v, 1) {}
  }

  lemma RolNot3()
    ensures RotatesBy(Ops64(), 3)
  {
    forall v: bv64 ensures Rol(!v, 3) == !Rol(v, 3) {}
  }

  lemma RolNot15()
    ensures RotatesBy(Ops64(), 15)
  {
    forall v: bv64 ensures Rol(!v, 15) == !Rol(v, 15) {}
  }

  lemma RolNot21()
    ensures RotatesBy(Ops64(), 21)
  {
    forall v: bv64 ensures Rol(!v, 21) == !Rol(v, 21) {}
  }

  lemma RolNot25()
    ensures RotatesBy(Ops64(), 25)
  {
    forall v: bv64 ensures Rol(!v, 25) == !Rol(v, 25) {}
  }

  lemma RolNot28()
    ensures RotatesBy(Ops64(), 28)
  {
    forall v: bv64 ensures Rol(!v, 28) == !Rol(v, 28) {}
  }

  lemma RolNot36()
    ensures RotatesBy(Ops64(), 36)
  {
    forall v: bv64 ensures Rol(!v, 36) == !Rol(v, 36) {}
  }

  lemma RolNot41()
    ensures RotatesBy(Ops64(), 41)
  {
    forall v: bv64 ensures Rol(!v, 41) == !Rol(v, 41) {}
  }

  lemma RolNot43()
    ensures RotatesBy(Ops64(), 43)
  {
    forall v: bv64 ensures Rol(!v, 43) == !Rol(v, 43) {}
  }

  lemma RolNot56()
    ensures RotatesBy(Ops64(), 56)
  {
    forall v: bv64 ensures Rol(!v, 56) == !Rol(v, 56) {}
  }

  lemma RolNot62()
    ensures RotatesBy(Ops64(), 62)
  {
    forall v: bv64 ensures Rol(!v, 62) == !Rol(v, 62) {}
  }

  lemma XorAssociates(a: bv64, b: bv64, c: bv64)
    ensures Xor(Xor(a, b), c) == Xor(a, Xor(b, c)) && Xor(a, b) == Xor(b, a)
  {
  }

  lemma XorGroup64()
    ensures XorGroup(Ops64())
  {
    forall a, b, c ensures Xor(Xor(a, b), c) == Xor(a, Xor(b, c)) && Xor(a, b) == Xor(b, a) { XorAssociates(a, b, c); }
  }

  lemma XorComplements(a: bv64, b: bv64)
    ensures Xor(Not(a), b) == Not(Xor(a, b))
  {
  }

  lemma XorNots64()
    ensures XorNots(Ops64())
  {
    forall a, b ensures Xor(Not(a), b) == Not(Xor(a, b)) { XorComplements(a, b); }
  }

  lemma NotNot(a: bv64)
    ensures Not(Not(a)) == a && Rol(a, 0) == a
  {
  }

  lemma NotTwice64()
    ensures NotTwice(Ops64())
  {
    forall a ensures Not(Not(a)) == a && Rol(a, 0) == a { NotNot(a); }
  }

  lemma OrComplements(a: bv64, b: bv64)
    ensures Or(Not(a), Not(b)) == Not(And(a, b))
  {
  }

  lemma DeMorgan64()
    ensures DeMorgan(Ops64())
  {
    forall a, b ensures Or(Not(a), Not(b)) == Not(And(a, b)) { OrComplements(a, b); }
  }

  lemma Lawful64()
    ensures Lawful(Ops64())
  {
    XorGroup64();
    XorNots64();
    NotTwice64();
    DeMorgan64();
  }

  lemma Rotates64()
    ensures Rotates(Ops64())
  {
    forall n | IsOffset(n) ensures RotatesBy(Ops64(), n) {
      RolNot0(); RolNot1(); RolNot3(); RolNot15(); RolNot21(); RolNot25();
      RolNot28(); RolNot36(); RolNot41(); RolNot43(); RolNot56(); RolNot62();
    }
  }

  // --- the round constants (section 3.2.5) --------------------------------------------

  /** The shift register of algorithm 5 after `t` steps, R[j] being bit j. */
  function Register(t: nat): bv8 {
    if t == 0 then 1 else RegisterNext(Register(t - 1))
  }

  function RegisterNext(r: bv8): bv8 {
    if r & 0x80 == 0 then r << 1 else (r << 1) ^ 0x71
  }

  function RcBit(r: bv8): bv64 {
    if r & 1 == 1 then 1 else 0
  }

  function RcWord(r0: bv8, r1: bv8, r2: bv8, r3: bv8, r4: bv8, r5: bv8, r6: bv8): bv64 {
    RcBit(r0) | (RcBit(r1) << 1) | (RcBit(r2) << 3) | (RcBit(r3) << 7) | (RcBit(r4) << 15) | (RcBit(r5) << 31)
    | (RcBit(r6) << 63)
  }

  /** Bit 2^j - 1 of round constant `k` is output 7 k + j of the register. */
  function RoundConstant(k: nat): bv64 {
    var t := 7 * k;
    RcWord(Register(t), Register(t + 1), Register(t + 2), Register(t + 3), Register(t + 4), Register(t + 5),
           Register(t + 6))
  }

  /** The table RC. */
  const RC: seq<bv64> := [
    0x0000000000000001, 0x0000000000008082, 0x800000000000808A, 0x8000000080008000,
    0x000000000000808B, 0x0000000080000001, 0x8000000080008081, 0x8000000000008009,
    0x000000000000008A, 0x0000000000000088, 0x0000000080008009, 0x000000008000000A,
    0x000000008000808B, 0x800000000000008B, 0x8000000000008089, 0x8000000000008003,
    0x8000000000008002, 0x8000000000000080, 0x000000000000800A, 0x800000008000000A,
    0x8000000080008081, 0x8000000000008080, 0x0000000080000001, 0x8000000080008008
  ]

  lemma {:induction false} Seven(t: nat, r0: bv8, r1: bv8, r2: bv8, r3: bv8, r4: bv8, r5: bv8, r6: bv8)
    requires Register(t) == r0
    requires r1 == RegisterNext(r0) && r2 == RegisterNext(r1) && r3 == RegisterNext(r2)
    requires r4 == RegisterNext(r3) && r5 == RegisterNext(r4) && r6 == RegisterNext(r5)
    ensures Register(t + 1) == r1 && Register(t + 2) == r2 && Register(t + 3) == r3
    ensures Register(t + 4) == r4 && Register(t + 5) == r5 && Register(t + 6) == r6
    ensures Register(t + 7) == RegisterNext(r6)
  {
    assert Register(t + 1) == RegisterNext(Register(t));
    assert Register(t + 2) == RegisterNext(Register(t + 1));
    assert Register(t + 3) == RegisterNext(Register(t + 2));
    assert Register(t + 4) == RegisterNext(Register(t + 3));
    assert Register(t + 5) == RegisterNext(Register(t + 4));
    assert Register(t + 6) == RegisterNext(Register(t + 5));
    assert Register(t + 7) == RegisterNext(Register(t + 6));
  }

  lemma RoundConstants0()
    ensures RoundConstant(0) == 0x0000000000000001 && RoundConstant(1) == 0x0000000000008082 && RoundConstant(2) == 0x800000000000808A
    ensures RoundConstant(3) == 0x8000000080008000 && RoundConstant(4) == 0x000000000000808B && RoundConstant(5) == 0x0000000080000001
    ensures Register(42) == 0x35
  {
    Seven(0, 0x01, 0x02, 0x04, 0x08, 0x10, 0x20, 0x40);
    Seven(7, 0x80, 0x71, 0xE2, 0xB5, 0x1B, 0x36, 0x6C);
    Seven(14, 0xD8, 0xC1, 0xF3, 0x97, 0x5F, 0xBE, 0x0D);
    Seven(21, 0x1A, 0x34, 0x68, 0xD0, 0xD1, 0xD3, 0xD7);
    Seven(28, 0xDF, 0xCF, 0xEF, 0xAF, 0x2F, 0x5E, 0xBC);
    Seven(35, 0x09, 0x12, 0x24, 0x48, 0x90, 0x51, 0xA2);
  }

  lemma RoundConstants1()
    ensures RoundConstant(6) == 0x8000000080008081 && RoundConstant(7) == 0x8000000000008009 && RoundConstant(8) == 0x000000000000008A
    ensures RoundConstant(9) == 0x0000000000000088 && RoundConstant(10) == 0x0000000080008009 && RoundConstant(11) == 0x000000008000000A
    ensures Register(84) == 0xD5
  {
    RoundConstants0();
    Seven(42, 0x35, 0x6A, 0xD4, 0xD9, 0xC3, 0xF7, 0x9F);
    Seven(49, 0x4F, 0x9E, 0x4D, 0x9A, 0x45, 0x8A, 0x65);
    Seven(56, 0xCA, 0xE5, 0xBB, 0x07, 0x0E, 0x1C, 0x38);
    Seven(63, 0x70, 0xE0, 0xB1, 0x13, 0x26, 0x4C, 0x98);
    Seven(70, 0x41, 0x82, 0x75, 0xEA, 0xA5, 0x3B, 0x76);
    Seven(77, 0xEC, 0xA9, 0x23, 0x46, 0x8C, 0x69, 0xD2);
  }

  lemma RoundConstants2()
    ensures RoundConstant(12) == 0x000000008000808B && RoundConstant(13) == 0x800000000000008B && RoundConstant(14) == 0x8000000000008089
    ensures RoundConstant(15) == 0x8000000000008003 && RoundConstant(16) == 0x8000000000008002 && RoundConstant(17) == 0x8000000000000080
    ensures Register(126) == 0xF2
  {
    RoundConstants1();
    Seven(84, 0xD5, 0xDB, 0xC7, 0xFF, 0x8F, 0x6F, 0xDE);
    Seven(91, 0xCD, 0xEB, 0xA7, 0x3F, 0x7E, 0xFC, 0x89);
    Seven(98, 0x63, 0xC6, 0xFD, 0x8B, 0x67, 0xCE, 0xED);
    Seven(105, 0xAB, 0x27, 0x4E, 0x9C, 0x49, 0x92, 0x55);
    Seven(112, 0xAA, 0x25, 0x4A, 0x94, 0x59, 0xB2, 0x15);
    Seven(119, 0x2A, 0x54, 0xA8, 0x21, 0x42, 0x84, 0x79);
  }

  lemma RoundConstants3()
    ensures RoundConstant(18) == 0x000000000000800A && RoundConstant(19) == 0x800000008000000A && RoundConstant(20) == 0x8000000080008081
    ensures RoundConstant(21) == 0x8000000000008080 && RoundConstant(22) == 0x0000000080000001 && RoundConstant(23) == 0x8000000080008008
    ensures Register(168) == 0x8E
  {
    RoundConstants2();
    Seven(126, 0xF2, 0x95, 0x5B, 0xB6, 0x1D, 0x3A, 0x74);
    Seven(133, 0xE8, 0xA1, 0x33, 0x66, 0xCC, 0xE9, 0xA3);
    Seven(140, 0x37, 0x6E, 0xDC, 0xC9, 0xE3, 0xB7, 0x1F);
    Seven(147, 0x3E, 0x7C, 0xF8, 0x81, 0x73, 0xE6, 0xBD);
    Seven(154, 0x0B, 0x16, 0x2C, 0x58, 0xB0, 0x11, 0x22);
    Seven(161, 0x44, 0x88, 0x61, 0xC2, 0xF5, 0x9B, 0x47);
  }

  lemma RcIsRoundConstant(k: nat)
    requires k < 24
    ensures |RC| == 24 && RC[k] == RoundConstant(k)
  {
    RoundConstants0();
    RoundConstants1();
    RoundConstants2();
    RoundConstants3();
    match k
    case 0 =>
    case 1 =>
    case 2 =>
    case 3 =>
    case 4 =>
    case 5 =>
    case 6 =>
    case 7 =>
    case 8 =>
    case 9 =>
    case 10 =>
    case 11 =>
    case 12 =>
    case 13 =>
    case 14 =>
    case 15 =>
    case 16 =>
    case 17 =>
    case 18 =>
    case 19 =>
    case 20 =>
    case 21 =>
    case 22 =>
    case _ =>
  }

  // --- the setup of the 64-bit code -----------------------------------------------------

  /** A lane from its bytes, least significant first. */
  function Lane64(b0: bv8, b1: bv8, b2: bv8, b3: bv8, b4: bv8, b5: bv8, b6: bv8, b7: bv8): bv64 {
    (b0 as bv64) | ((b1 as bv64) << 8) | ((b2 as bv64) << 16) | ((b3 as bv64) << 24)
    | ((b4 as bv64) << 32) | ((b5 as bv64) << 40) | ((b6 as bv64) << 48) | ((b7 as bv64) << 56)
  }

  function Dec64le(b: seq<byte>): bv64 {
    if |b| == 8 then
      Lane64(b[0] as bv8, b[1] as bv8, b[2] as bv8, b[3] as bv8, b[4] as bv8, b[5] as bv8, b[6] as bv8, b[7] as bv8)
    else 0
  }

  function Low8(w: bv64): bv8 { (w & 0xFF) as bv8 }

  function Enc64le(w: bv64): seq<byte> {
    [Low8(w) as byte, Low8(w >> 8) as byte, Low8(w >> 16) as byte, Low8(w >> 24) as byte,
     Low8(w >> 32) as byte, Low8(w >> 40) as byte, Low8(w >> 48) as byte, Low8(w >> 56) as byte]
  }

  function Setup64(): Setup<bv64> {
    Setup(Ops64(), RC, 0, Dec64le, Enc64le)
  }

  /** Hence KeccakContext.Context with this setup computes the digests of Keccak with
      64-bit lanes. */
  lemma Usable64()
    ensures C.Usable(Setup64())
  {
    Lawful64();
    Rotates64();
    forall v ensures |Setup64().enc(v)| == 8 {
      assert Setup64().enc(v) == Enc64le(v);
    }
  }

  /** The words keccak_init sets to all ones are complemented zeros. */
  lemma AllOnes()
    ensures Not(0) == 0xFFFF_FFFF_FFFF_FFFF
  {
  }
}
