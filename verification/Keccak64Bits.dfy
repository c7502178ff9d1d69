/** The bytes of a lane of 64 bits, and the bits of both. */
module Keccak64Bits {
  import opened Common
  import opened KeccakSpec
  import opened KeccakSponge
  import opened Keccak64

  // --- bytes as numbers and as bits -------------------------------------------------------------

  lemma Nibble(x: nat)
    requires x < 16
    ensures (x as bv8) as nat == x && (x as bv8) < 16
  {
  }

  lemma TwoNibbles(h: bv8, l: bv8)
    requires h < 16 && l < 16
    ensures ((h << 4) | l) as nat == 16 * (h as nat) + l as nat
  {
  }

  lemma ByteBack(x: bv8)
    ensures (x as byte) as bv8 == x
  {
  }

  lemma ByteNumber(x: byte)
    ensures (x as bv8) as byte == x
  {
    Nibble(x / 16);
    Nibble(x % 16);
    var h, l := (x / 16) as bv8, (x % 16) as bv8;
    TwoNibbles(h, l);
    ByteBack((h << 4) | l);
  }

  lemma HalfByte(x: bv8)
    ensures (x >> 1) as nat == (x as nat) / 2
    ensures x & 1 == 1 <==> (x as nat) % 2 == 1
  {
  }

  /** The low `n` bits, lowest first. */
  function ByteBits(x: bv8, n: nat): (b: seq<bool>)
    ensures |b| == n
  {
    if n == 0 then [] else [x & 1 == 1] + ByteBits(x >> 1, n - 1)
  }

  lemma {:induction false} ByteBitsAre(x: bv8, n: nat)
    ensures Bits(x as byte, n) == ByteBits(x, n)
  {
    if n > 0 {
      HalfByte(x);
      ByteBitsAre(x >> 1, n - 1);
    }
  }

  // --- lanes --------------------------------------------------------------------------------------

  lemma LowsOfLane(b0: bv8, b1: bv8, b2: bv8, b3: bv8, b4: bv8, b5: bv8, b6: bv8, b7: bv8)
    ensures var w := Lane64(b0, b1, b2, b3, b4, b5, b6, b7);
            && Low8(w) == b0 && Low8(w >> 8) == b1 && Low8(w >> 16) == b2 && Low8(w >> 24) == b3
            && Low8(w >> 32) == b4 && Low8(w >> 40) == b5 && Low8(w >> 48) == b6 && Low8(w >> 56) == b7
  {
  }

  lemma LaneOfLows(w: bv64)
    ensures Lane64(Low8(w), Low8(w >> 8), Low8(w >> 16), Low8(w >> 24), Low8(w >> 32), Low8(w >> 40), Low8(w >> 48), Low8(w >> 56)) == w
  {
  }

  /** Decoding the bytes of a lane gives the lane. */
  lemma DecodesEncoded(w: bv64)
    ensures Dec64le(Enc64le(w)) == w
  {
    ByteBack(Low8(w));
    ByteBack(Low8(w >> 8));
    ByteBack(Low8(w >> 16));
    ByteBack(Low8(w >> 24));
    ByteBack(Low8(w >> 32));
    ByteBack(Low8(w >> 40));
    ByteBack(Low8(w >> 48));
    ByteBack(Low8(w >> 56));
    LaneOfLows(w);
  }

  lemma EncodesLane(b0: bv8, b1: bv8, b2: bv8, b3: bv8, b4: bv8, b5: bv8, b6: bv8, b7: bv8)
    ensures Enc64le(Lane64(b0, b1, b2, b3, b4, b5, b6, b7))
         == [b0 as byte, b1 as byte, b2 as byte, b3 as byte, b4 as byte, b5 as byte, b6 as byte, b7 as byte]
  {
    LowsOfLane(b0, b1, b2, b3, b4, b5, b6, b7);
  }

  /** Encoding a decoded lane gives its bytes. */
  lemma EncodesDecoded(b: seq<byte>)
    requires |b| == 8
    ensures Enc64le(Dec64le(b)) == b
  {
    EncodesLane(b[0] as bv8, b[1] as bv8, b[2] as bv8, b[3] as bv8, b[4] as bv8, b[5] as bv8, b[6] as bv8, b[7] as bv8);
    ByteNumber(b[0]);
    ByteNumber(b[1]);
    ByteNumber(b[2]);
    ByteNumber(b[3]);
    ByteNumber(b[4]);
    ByteNumber(b[5]);
    ByteNumber(b[6]);
    ByteNumber(b[7]);
  }

  // --- bits of lanes --------------------------------------------------------------------------------

  /** The low `n` bits of a lane, bit 0 first. */
  function LaneBits(w: bv64, n: nat): (b: seq<bool>)
    ensures |b| == n
  {
    if n == 0 then [] else [w & 1 == 1] + LaneBits(w >> 1, n - 1)
  }

  /** The low `n` bits of the mask are set. */
  predicate Covers(m: bv8, n: nat) { n == 0 || (m & 1 == 1 && Covers(m >> 1, n - 1)) }

  lemma CoversByte()
    ensures Covers(0xFF, 8)
  {
    assert Covers(0x01, 1) && Covers(0x03, 2) && Covers(0x07, 3) && Covers(0x0F, 4);
    assert Covers(0x1F, 5) && Covers(0x3F, 6) && Covers(0x7F, 7);
  }

  lemma NextBit(w: bv64, x: bv8, m: bv8)
    requires x & m == Low8(w) & m
    ensures (x >> 1) & (m >> 1) == Low8(w >> 1) & (m >> 1)
    ensures m & 1 == 1 ==> (w & 1 == 1 <==> x & 1 == 1)
  {
  }

  lemma {:induction false} SameLowBits(w: bv64, x: bv8, m: bv8, n: nat)
    requires Covers(m, n) && x & m == Low8(w) & m
    ensures LaneBits(w, n) == ByteBits(x, n)
  {
    if n > 0 {
      NextBit(w, x, m);
      SameLowBits(w >> 1, x >> 1, m >> 1, n - 1);
    }
  }

  /** The shift by k, one place at a time. */
  function Down(w: bv64, k: nat): bv64 { if k == 0 then w else Down(w >> 1, k - 1) }

  lemma DownTwo(w: bv64, k: nat)
    ensures Down(w, k + 2) == Down(w >> 2, k)
  {
    assert Down(w, k + 2) == Down(w >> 1, k + 1);
    assert (w >> 1) >> 1 == w >> 2;
  }

  lemma ShiftTwos(w: bv64)
    ensures (w >> 2) >> 2 == w >> 4 && (w >> 4) >> 2 == w >> 6 && (w >> 6) >> 2 == w >> 8
  {
  }

  lemma DownByte(w: bv64, k: nat)
    ensures Down(w, k + 8) == Down(w >> 8, k)
  {
    DownTwo(w, k + 6);
    DownTwo(w >> 2, k + 4);
    DownTwo(w >> 4, k + 2);
    DownTwo(w >> 6, k);
    ShiftTwos(w);
  }

  lemma {:induction false} LaneBitsSplit(w: bv64, k: nat, n: nat)
    ensures LaneBits(w, k + n) == LaneBits(w, k) + LaneBits(Down(w, k), n)
  {
    if k > 0 {
      LaneBitsSplit(w >> 1, k - 1, n);
      assert [w & 1 == 1] + (LaneBits(w >> 1, k - 1) + LaneBits(Down(w, k), n))
          == ([w & 1 == 1] + LaneBits(w >> 1, k - 1)) + LaneBits(Down(w, k), n);
    }
  }

  lemma ByteAndRest(w: bv64, n: nat)
    ensures LaneBits(w, 8 + n) == Bits(Low8(w) as byte, 8) + LaneBits(w >> 8, n)
  {
    LaneBitsSplit(w, 8, n);
    DownByte(w, 0);
    CoversByte();
    SameLowBits(w, Low8(w), 0xFF, 8);
    ByteBitsAre(Low8(w), 8);
  }

  /** The lane holds the bytes `b`, lowest first. */
  predicate Holds(w: bv64, b: seq<byte>) {
    b == [] || (Low8(w) as byte == b[0] && Holds(w >> 8, b[1..]))
  }

  lemma {:induction false} HeldBits(w: bv64, b: seq<byte>)
    requires Holds(w, b)
    ensures LaneBits(w, 8 * |b|) == BitsOf(b)
  {
    if b != [] {
      ByteAndRest(w, 8 * |b| - 8);
      HeldBits(w >> 8, b[1..]);
    }
  }

  lemma ShiftOn(w: bv64)
    ensures (w >> 8) >> 8 == w >> 16 && (w >> 16) >> 8 == w >> 24 && (w >> 24) >> 8 == w >> 32
    ensures (w >> 32) >> 8 == w >> 40 && (w >> 40) >> 8 == w >> 48 && (w >> 48) >> 8 == w >> 56
  {
  }

  lemma HoldsEncoded(w: bv64)
    ensures Holds(w, Enc64le(w))
  {
    ShiftOn(w);
    var b := Enc64le(w);
    assert Holds(w >> 56, [b[7]]);
    assert Holds(w >> 48, [b[6], b[7]]);
    assert Holds(w >> 40, [b[5], b[6], b[7]]);
    assert Holds(w >> 32, [b[4], b[5], b[6], b[7]]);
    assert Holds(w >> 24, [b[3], b[4], b[5], b[6], b[7]]);
    assert Holds(w >> 16, [b[2], b[3], b[4], b[5], b[6], b[7]]);
    assert Holds(w >> 8, [b[1], b[2], b[3], b[4], b[5], b[6], b[7]]);
  }

  /** Bit i of a lane is bit i of its bytes, both ways. */
  lemma LanesAreBits(b: seq<byte>, w: bv64)
    requires |b| == 8
    ensures LaneBits(Dec64le(b), 64) == BitsOf(b)
    ensures BitsOf(Enc64le(w)) == LaneBits(w, 64)
  {
    EncodesDecoded(b);
    HoldsEncoded(Dec64le(b));
    HeldBits(Dec64le(b), b);
    HoldsEncoded(w);
    HeldBits(w, Enc64le(w));
  }

  // --- the state as a string of bits ---------------------------------------------------------------

  /** The first `n` bits read off by `low` while `down` moves on. */
  function ReadBits<T>(low: T -> bool, down: T -> T, w: T, n: nat): (b: seq<bool>)
    ensures |b| == n
  {
    if n == 0 then [] else [low(w)] + ReadBits(low, down, down(w), n - 1)
  }

  ghost predicate ReadsXor<T(!new)>(low: T -> bool, down: T -> T, xor: (T, T) -> T) {
    forall x, y :: low(xor(x, y)) == (low(x) != low(y)) && down(xor(x, y)) == xor(down(x), down(y))
  }

  lemma {:induction false} XorRead<T(!new)>(low: T -> bool, down: T -> T, xor: (T, T) -> T, a: T, b: T, n: nat, j: nat)
    requires j < n && ReadsXor(low, down, xor)
    ensures ReadBits(low, down, xor(a, b), n)[j] == (ReadBits(low, down, a, n)[j] != ReadBits(low, down, b, n)[j])
  {
    if j > 0 {
      XorRead(low, down, xor, down(a), down(b), n - 1, j - 1);
    }
  }

  predicate LowBit(w: bv64) { w & 1 == 1 }

  function Half(w: bv64): bv64 { w >> 1 }

  lemma {:induction false} LaneBitsRead(w: bv64, n: nat)
    ensures LaneBits(w, n) == ReadBits(LowBit, Half, w, n)
  {
    if n > 0 {
      LaneBitsRead(w >> 1, n - 1);
    }
  }

  lemma XorShift(a: bv64, b: bv64)
    ensures Half(Xor(a, b)) == Xor(Half(a), Half(b))
  {
  }

  lemma XorMask(a: bv64, b: bv64)
    ensures (a ^ b) & 1 == (a & 1) ^ (b & 1)
  {
  }

  lemma OneBit(a: bv64)
    ensures a & 1 == 0 || a & 1 == 1
  {
  }

  lemma XorLow(a: bv64, b: bv64)
    ensures LowBit(Xor(a, b)) == (LowBit(a) != LowBit(b))
  {
    XorMask(a, b);
    OneBit(a);
    OneBit(b);
  }

  lemma ReadsXor64()
    ensures ReadsXor(LowBit, Half, Xor)
  {
    forall x, y ensures LowBit(Xor(x, y)) == (LowBit(x) != LowBit(y)) && Half(Xor(x, y)) == Xor(Half(x), Half(y)) {
      XorLow(x, y);
      XorShift(x, y);
    }
  }

  lemma XorBits(a: bv64, b: bv64, n: nat, j: nat)
    requires j < n
    ensures LaneBits(Xor(a, b), n)[j] == (LaneBits(a, n)[j] != LaneBits(b, n)[j])
  {
    LaneBitsRead(Xor(a, b), n);
    LaneBitsRead(a, n);
    LaneBitsRead(b, n);
    ReadsXor64();
    XorRead(LowBit, Half, Xor, a, b, n, j);
  }

  lemma PartIn(bytes: seq<byte>, a: seq<byte>, b: seq<byte>, c: seq<byte>, j: nat)
    requires bytes == a + (b + c) && j < 8 * |b|
    ensures BitsOf(bytes)[8 * |a| + j] == BitsOf(b)[j]
  {
    BitsOfAppend(a, b + c);
    BitsOfAppend(b, c);
    BitIn(BitsOf(a), BitsOf(b), BitsOf(c), j);
  }

  lemma BitsOfPart(bytes: seq<byte>, b: seq<byte>, i: nat, j: nat)
    requires i + |b| <= |bytes| && b == bytes[i..i + |b|] && j < 8 * |b|
    ensures BitsOf(bytes)[8 * i + j] == BitsOf(b)[j]
  {
    var a, c := bytes[..i], bytes[i + |b|..];
    assert bytes == a + (b + c);
    PartIn(bytes, a, b, c, j);
  }

  lemma BitIn(a: seq<bool>, b: seq<bool>, c: seq<bool>, j: nat)
    requires j < |b|
    ensures (a + (b + c))[|a| + j] == b[j]
  {
  }

  /** Decoding a lane keeps the bits. */
  ghost predicate Reads<T(!new)>(p: Setup<T>, bits: T -> seq<bool>) {
    forall b :: |b| == 8 ==> bits(p.dec(b)) == BitsOf(b)
  }

  /** Adding lanes adds them bit by bit. */
  ghost predicate AddsBits<T(!new)>(p: Setup<T>, bits: T -> seq<bool>) {
    && (forall v :: |bits(v)| == 64)
    && (forall a, b, j :: 0 <= j < 64 ==> bits(p.o.xor(a, b))[j] == (bits(a)[j] != bits(b)[j]))
  }

  /** Encoding a lane keeps its bits. */
  ghost predicate Writes<T(!new)>(p: Setup<T>, bits: T -> seq<bool>) {
    forall v :: |p.enc(v)| == 8 && BitsOf(p.enc(v)) == bits(v)
  }

  function Bits64(w: bv64): seq<bool> { LaneBits(w, 64) }

  lemma Setup64Is(v: bv64, a: bv64, b: bv64, x: seq<byte>)
    ensures Setup64().enc(v) == Enc64le(v) && Setup64().dec(x) == Dec64le(x) && Setup64().o.xor(a, b) == Xor(a, b)
  {
  }

  lemma Writes64()
    ensures Writes(Setup64(), Bits64)
  {
    forall v ensures |Setup64().enc(v)| == 8 && BitsOf(Setup64().enc(v)) == Bits64(v) {
      Setup64Is(v, v, v, []);
      LanesAreBits(Enc64le(v), v);
    }
  }

  lemma Decodes64(b: seq<byte>)
    requires |b| == 8
    ensures Bits64(Setup64().dec(b)) == BitsOf(b)
  {
    Setup64Is(0, 0, 0, b);
    LanesAreBits(b, 0);
  }

  lemma Adds64(a: bv64, b: bv64, j: nat)
    requires j < 64
    ensures Bits64(Setup64().o.xor(a, b))[j] == (Bits64(a)[j] != Bits64(b)[j])
  {
    Setup64Is(0, a, b, []);
    XorBits(a, b, 64, j);
  }

  lemma Reads64()
    ensures Reads(Setup64(), Bits64)
  {
    forall b: seq<byte> | |b| == 8 ensures Bits64(Setup64().dec(b)) == BitsOf(b) { Decodes64(b); }
  }

  lemma AddsBits64()
    ensures AddsBits(Setup64(), Bits64)
  {
    forall a, b, j | 0 <= j < 64 ensures Bits64(Setup64().o.xor(a, b))[j] == (Bits64(a)[j] != Bits64(b)[j]) {
      Adds64(a, b, j);
    }
  }

  lemma AddedWord<T>(p: Setup<T>, w: seq<T>, block: seq<byte>, i: nat)
    requires |w| == 25 && i < 25
    ensures Added(p, w, block)[i] ==
              if 8 * i + 8 <= |block| then p.o.xor(w[i], p.dec(block[8 * i..8 * i + 8])) else w[i]
  {
  }

  lemma PartBits<T(!new)>(p: Setup<T>, bits: T -> seq<bool>, block: seq<byte>, part: seq<byte>, i: nat, j: nat)
    requires Reads(p, bits) && 8 * i + 8 <= |block| && part == block[8 * i..8 * i + 8] && j < 64
    ensures |bits(p.dec(part))| == 64 && bits(p.dec(part))[j] == BitsOf(block)[64 * i + j]
  {
    BitsOfPart(block, part, 8 * i, j);
    assert bits(p.dec(part)) == BitsOf(part);
  }

  /** Adding a block adds its bits to those of the words in order: bit j of word i is bit
      64 i + j of the state. */
  lemma AddedBits<T(!new)>(p: Setup<T>, bits: T -> seq<bool>, w: seq<T>, block: seq<byte>, i: nat, j: nat)
    requires Reads(p, bits) && AddsBits(p, bits) && |w| == 25 && i < 25 && j < 64
    ensures |bits(Added(p, w, block)[i])| == |bits(w[i])| == 64
    ensures bits(Added(p, w, block)[i])[j] == (bits(w[i])[j] != (8 * i + 8 <= |block| && BitsOf(block)[64 * i + j]))
  {
    AddedWord(p, w, block, i);
    if 8 * i + 8 <= |block| {
      var part := block[8 * i..8 * i + 8];
      PartBits(p, bits, block, part, i, j);
      AddsAt(p, bits, w[i], p.dec(part), j);
    } else {
      AddsAt(p, bits, w[i], w[i], j);
    }
  }

  lemma AddsAt<T(!new)>(p: Setup<T>, bits: T -> seq<bool>, a: T, b: T, j: nat)
    requires AddsBits(p, bits) && j < 64
    ensures |bits(a)| == |bits(b)| == |bits(p.o.xor(a, b))| == 64
    ensures bits(p.o.xor(a, b))[j] == (bits(a)[j] != bits(b)[j])
  {
  }

  lemma {:induction false} OutputSize<T(!new)>(p: Setup<T>, bits: T -> seq<bool>, w: seq<T>, k: nat)
    requires Writes(p, bits) && k <= |w|
    ensures |Output(p, w, k)| == 8 * k
  {
    if k > 0 {
      OutputSize(p, bits, w, k - 1);
    }
  }

  lemma OutputStep<T(!new)>(p: Setup<T>, bits: T -> seq<bool>, w: seq<T>, k: nat)
    requires Writes(p, bits) && 0 < k <= |w|
    ensures BitsOf(Output(p, w, k)) == BitsOf(Output(p, w, k - 1)) + bits(w[k - 1])
  {
    BitsOfAppend(Output(p, w, k - 1), p.enc(w[k - 1]));
  }

  /** The output is the bits of the words in order. */
  lemma {:induction false} OutputBits<T(!new)>(p: Setup<T>, bits: T -> seq<bool>, w: seq<T>, k: nat, i: nat)
    requires Writes(p, bits) && i < k <= |w|
    ensures |Output(p, w, k)| == 8 * k && BitsOf(Output(p, w, k))[64 * i..64 * i + 64] == bits(w[i])
  {
    OutputSize(p, bits, w, k);
    OutputSize(p, bits, w, k - 1);
    OutputStep(p, bits, w, k);
    var front := BitsOf(Output(p, w, k - 1));
    assert |bits(w[k - 1])| == 64;
    if i < k - 1 {
      OutputBits(p, bits, w, k - 1, i);
      InFront(front, bits(w[k - 1]), 64 * i, 64 * i + 64);
    } else {
      Behind(front, bits(w[i]));
    }
  }

  lemma InFront(a: seq<bool>, b: seq<bool>, i: nat, j: nat)
    requires i <= j <= |a|
    ensures (a + b)[i..j] == a[i..j]
  {
  }

  lemma Behind(a: seq<bool>, b: seq<bool>)
    ensures (a + b)[|a|..|a| + |b|] == b
  {
  }

  /** Lane (x, y) is word x + 5 y. */
  lemma LaneOfWord<T>(w: seq<T>, x: nat, y: nat)
    requires |w| == 25 && x < 5 && y < 5
    ensures Lane(FromWide(w), x, y) == w[x + 5 * y]
  {
  }
}
