/** The iteration of BLAKE over blocks, after section 2.1.3 of the SHA-3 proposal: the
    padding of a message of bits, and the counter given to each block. */
module BlakeSpec {

  import opened Common

  /** The 32-bit functions (BLAKE-224 and 256) and the 64-bit ones (384 and 512). */
  datatype Width = Small | Big

  function BlockBytes(w: Width): nat { if w.Small? then 64 else 128 }

  function BlockBits(w: Width): nat { if w.Small? then 512 else 1024 }

  /** One more than the largest word. */
  function Modulus(w: Width): nat { if w.Small? then 0x1_0000_0000 else 0x1_0000_0000_0000_0000 }

  /** The blocks that fit into the low word of the counter. */
  function LowBlocks(w: Width): nat { if w.Small? then 0x80_0000 else 0x40_0000_0000_0000 }

  function WordBytes(w: Width): nat { if w.Small? then 4 else 8 }

  /** The low and the high word of a count of bits. */
  function Low(w: Width, bits: nat): (t: nat)
    ensures t < Modulus(w)
  {
    if w.Small? then bits % 0x1_0000_0000 else bits % 0x1_0000_0000_0000_0000
  }

  function High(w: Width, bits: nat): (t: nat)
    ensures t < Modulus(w)
  {
    Low(w, if w.Small? then bits / 0x1_0000_0000 else bits / 0x1_0000_0000_0000_0000)
  }

  /** Counting whole blocks: the low word holds k mod LowBlocks of them. */
  function LowOf(w: Width, k: nat): nat { if w.Small? then k % 0x80_0000 else k % 0x40_0000_0000_0000 }

  function HighOf(w: Width, k: nat): nat { if w.Small? then k / 0x80_0000 else k / 0x40_0000_0000_0000 }

  /** The words of a count of k blocks and some bits of the next. */
  lemma WordsOfBlocks(w: Width, k: nat, b: nat)
    requires b < BlockBits(w)
    ensures Low(w, BlockBits(w) * k + b) == BlockBits(w) * LowOf(w, k) + b
    ensures High(w, BlockBits(w) * k + b) == Low(w, HighOf(w, k))
    ensures BlockBits(w) * LowOf(w, k) <= Modulus(w) - BlockBits(w)
  {
    if w.Small? {
      assert 512 * k + b == 0x1_0000_0000 * (k / 0x80_0000) + (512 * (k % 0x80_0000) + b);
    } else {
      assert 1024 * k + b == 0x1_0000_0000_0000_0000 * (k / 0x40_0000_0000_0000) + (1024 * (k % 0x40_0000_0000_0000) + b);
    }
  }

  lemma NextBlock(w: Width, k: nat)
    ensures LowOf(w, k + 1) == if LowOf(w, k) + 1 == LowBlocks(w) then 0 else LowOf(w, k) + 1
    ensures HighOf(w, k + 1) == HighOf(w, k) + if LowOf(w, k) + 1 == LowBlocks(w) then 1 else 0
  {
  }

  lemma NextHigh(w: Width, h: nat)
    ensures Low(w, h + 1) == if Low(w, h) + 1 == Modulus(w) then 0 else Low(w, h) + 1
  {
  }

  // --- bits -------------------------------------------------------------------------

  /** The low `n` bits of `v`, highest first. */
  function Bits(v: nat, n: nat): (b: seq<bool>)
    ensures |b| == n
  {
    if n == 0 then [] else Bits(v / 2, n - 1) + [v % 2 == 1]
  }

  function BitsOf(bytes: seq<byte>): (b: seq<bool>)
    ensures |b| == 8 * |bytes|
  {
    if bytes == [] then [] else BitsOf(bytes[..|bytes| - 1]) + Bits(bytes[|bytes| - 1], 8)
  }

  lemma {:induction false} BitsZero(n: nat)
    ensures Bits(0, n) == Zeros(n)
  {
    if n > 0 {
      BitsZero(n - 1);
      assert Zeros(n - 1) + [false] == Zeros(n);
    }
  }

  lemma {:induction false} BitsPower(n: nat)
    ensures Bits(Pow2(n), n + 1) == [true] + Zeros(n)
  {
    if n == 0 {
      assert Bits(1, 1) == Bits(0, 0) + [true];
    } else {
      BitsPower(n - 1);
      assert Pow2(n) / 2 == Pow2(n - 1) && Pow2(n) % 2 == 0;
      assert ([true] + Zeros(n - 1)) + [false] == [true] + Zeros(n);
    }
  }

  lemma HalfOf(x: nat, b: nat)
    ensures (2 * x + b) / 2 == x + b / 2 && (2 * x + b) % 2 == b % 2
  {
  }

  lemma TwiceInside(a: nat, h: nat)
    ensures a * (2 * h) == 2 * (a * h)
  {
  }

  /** Bits of a number made of two parts. */
  lemma {:induction false} BitsJoin(a: nat, n: nat, b: nat, k: nat)
    requires b < Pow2(k)
    ensures Bits(a * Pow2(k) + b, n + k) == Bits(a, n) + Bits(b, k)
  {
    if k == 0 {
      assert a * Pow2(0) == a;
    } else {
      TwiceInside(a, Pow2(k - 1));
      HalfOf(a * Pow2(k - 1), b);
      BitsJoin(a, n, b / 2, k - 1);
      LastOf(a * Pow2(k) + b, n + k);
      LastOf(b, k);
      assert Bits(a, n) + (Bits(b / 2, k - 1) + [b % 2 == 1]) == (Bits(a, n) + Bits(b / 2, k - 1)) + [b % 2 == 1];
    }
  }

  lemma LastOf(v: nat, n: nat)
    requires n > 0
    ensures Bits(v, n) == Bits(v / 2, n - 1) + [v % 2 == 1]
  {
  }

  lemma {:induction false} BitsOfAppend(a: seq<byte>, b: seq<byte>)
    ensures BitsOf(a + b) == BitsOf(a) + BitsOf(b)
  {
    if b == [] {
      assert a + b == a;
    } else {
      var n := |b| - 1;
      assert (a + b)[..|a + b| - 1] == a + b[..n];
      BitsOfAppend(a, b[..n]);
      assert BitsOf(a) + (BitsOf(b[..n]) + Bits(b[n], 8)) == (BitsOf(a) + BitsOf(b[..n])) + Bits(b[n], 8);
    }
  }

  lemma {:induction false} BitsOfZeros(n: nat)
    ensures BitsOf(ZeroBytes(n)) == Zeros(8 * n)
  {
    if n > 0 {
      BitsZero(8);
      BitsOfZeros(n - 1);
      assert ZeroBytes(n)[..n - 1] == ZeroBytes(n - 1);
      assert Zeros(8 * (n - 1)) + Zeros(8) == Zeros(8 * n);
    }
  }

  lemma BitsOfOne(x: byte)
    ensures BitsOf([x]) == Bits(x, 8)
  {
    assert BitsOf([x]) == BitsOf([]) + Bits(x, 8);
  }

  // --- the last bits of the message -----------------------------------------------------

  /** The upper n bits of `ub` as a number. */
  function Top(ub: byte, n: nat): nat
    requires n < 8
  {
    Shr(ub, 8 - n)
  }

  /** The byte of close: with z = 0x80 >> n, the bits of `ub` above z, and z. */
  function EndByte(ub: byte, n: nat): nat
    requires n < 8
  {
    Top(ub, n) * Pow2(8 - n) + Pow2(7 - n)
  }

  lemma {:induction false} ShrBound(v: nat, k: nat, m: nat)
    requires v < Pow2(k + m)
    ensures Shr(v, k) < Pow2(m)
  {
    if k > 0 {
      ShrBound(v / 2, k - 1, m);
    }
  }

  /** A number followed by a 1 and k zeros. */
  lemma EndBits(t: nat, n: nat, k: nat)
    ensures Bits(t * Pow2(k + 1) + Pow2(k), n + (k + 1)) == Bits(t, n) + [true] + Zeros(k)
  {
    BitsPower(k);
    BitsJoin(t, n, Pow2(k), k + 1);
    assert Bits(t, n) + ([true] + Zeros(k)) == Bits(t, n) + [true] + Zeros(k);
  }

  lemma EndByteIs(ub: byte, n: nat)
    requires n < 8
    ensures EndByte(ub, n) < 256 && Bits(EndByte(ub, n), 8) == Bits(Top(ub, n), n) + [true] + Zeros(7 - n)
    ensures n < 7 ==> EndByte(ub, n) % 2 == 0
  {
    EndByteFits(ub, n);
    EndBits(Top(ub, n), n, 7 - n);
  }

  lemma EndByteFits(ub: byte, n: nat)
    requires n < 8
    ensures EndByte(ub, n) < 256
    ensures n < 7 ==> EndByte(ub, n) % 2 == 0
  {
    Powers();
    ShrBound(ub, 8 - n, n);
    EndByteSmall(Top(ub, n), n);
  }

  lemma EndByteSmall(t: nat, n: nat)
    requires n < 8 && t < Pow2(n)
    ensures t * Pow2(8 - n) + Pow2(7 - n) < 256
    ensures n < 7 ==> (t * Pow2(8 - n) + Pow2(7 - n)) % 2 == 0
  {
    Powers();
    match n
    case 0 =>
    case 1 =>
    case 2 =>
    case 3 =>
    case 4 =>
    case 5 =>
    case 6 =>
    case _ =>
  }

  // --- padding --------------------------------------------------------------------------

  function BigEndian(v: nat, k: nat): (b: seq<byte>)
    ensures |b| == k
  {
    if k == 0 then [] else BigEndian(v / 256, k - 1) + [v % 256]
  }

  /** The length in bits, in two words. */
  function LengthBytes(w: Width, bits: nat): (b: seq<byte>)
    ensures |b| == 2 * WordBytes(w)
  {
    BigEndian(High(w, bits), WordBytes(w)) + BigEndian(Low(w, bits), WordBytes(w))
  }

  /** The place of the length in the last block. */
  function LengthAt(w: Width): nat { BlockBytes(w) - 2 * WordBytes(w) }

  function Last(one: bool): byte { if one then 1 else 0 }

  /** What close appends before the length to a block that holds `ptr` bytes; `one` tells
      whether the padding ends in a 1. */
  function Filler(w: Width, ptr: nat, ub: byte, n: nat, one: bool): (t: seq<byte>)
    requires ptr < BlockBytes(w) && n < 8
  {
    EndByteIs(ub, n);
    var eb := EndByte(ub, n);
    if 8 * ptr + n <= 8 * LengthAt(w) - 2 then
      if ptr == LengthAt(w) - 1 then [eb + Last(one)] else [eb] + ZeroBytes(LengthAt(w) - 2 - ptr) + [Last(one)]
    else
      [eb] + ZeroBytes(BlockBytes(w) - 1 - ptr) + ZeroBytes(LengthAt(w) - 1) + [Last(one)]
  }

  lemma LastBit(v: nat, b: nat)
    requires v % 2 == 0 && b < 2
    ensures Bits(v + b, 8) == Bits(v, 8)[..7] + [b == 1]
  {
    assert (v + b) / 2 == v / 2;
    assert Bits(v, 8)[..7] == Bits(v / 2, 7);
  }

  lemma OneByte(ub: byte, n: nat, one: bool)
    requires n < 7
    ensures EndByte(ub, n) + Last(one) < 256
    ensures BitsOf([EndByte(ub, n) + Last(one)]) == Bits(Top(ub, n), n) + [true] + Zeros(6 - n) + [one]
  {
    EndByteIs(ub, n);
    var eb: nat := EndByte(ub, n);
    BitsOfOne(eb + Last(one));
    LastBit(eb, Last(one));
    var h := Bits(Top(ub, n), n) + [true];
    assert (h + Zeros(7 - n))[..7] == h + Zeros(6 - n);
  }

  lemma Rejoin(h: seq<bool>, a: nat, b: nat, c: nat, one: bool)
    ensures (h + [true] + Zeros(a)) + Zeros(b) + (Zeros(c) + [one]) == h + [true] + Zeros(a + b + c) + [one]
  {
    assert Zeros(a) + Zeros(b) + Zeros(c) == Zeros(a + b + c);
  }

  lemma ThreeParts(x: byte, m: nat, y: byte)
    ensures BitsOf([x] + ZeroBytes(m) + [y]) == Bits(x, 8) + Zeros(8 * m) + Bits(y, 8)
  {
    BitsOfAppend([x] + ZeroBytes(m), [y]);
    BitsOfAppend([x], ZeroBytes(m));
    BitsOfOne(x);
    BitsOfOne(y);
    BitsOfZeros(m);
  }

  lemma LastBits(one: bool)
    ensures Bits(Last(one), 8) == Zeros(7) + [one]
  {
    BitsZero(7);
    assert Bits(Last(one), 8) == Bits(0, 7) + [one];
  }

  lemma ManyBytes(ub: byte, n: nat, m: nat, one: bool)
    requires n < 8
    ensures EndByte(ub, n) < 256
    ensures BitsOf([EndByte(ub, n)] + ZeroBytes(m) + [Last(one)]) == Bits(Top(ub, n), n) + [true] + Zeros(14 - n + 8 * m) + [one]
  {
    EndByteIs(ub, n);
    ThreeParts(EndByte(ub, n), m, Last(one));
    LastBits(one);
    Rejoin(Bits(Top(ub, n), n), 7 - n, 8 * m, 7, one);
  }

  /** The last bits of the message, a 1, the fewest zeros that leave room for the length at
      the end of a block, and the closing bit. */
  ghost predicate FillsUp(w: Width, ptr: nat, ub: byte, n: nat, one: bool, t: seq<byte>)
    requires n < 8
  {
    var z := 8 * |t| - n - 2;
    && 0 <= z < BlockBits(w)
    && BitsOf(t) == Bits(Top(ub, n), n) + [true] + Zeros(z) + [one]
    && (ptr + |t| == LengthAt(w) || ptr + |t| == BlockBytes(w) + LengthAt(w))
  }

  lemma ManyFill(w: Width, ptr: nat, ub: byte, n: nat, one: bool, m: nat)
    requires n < 8 && 14 - n + 8 * m < BlockBits(w)
    requires ptr + m + 2 == LengthAt(w) || ptr + m + 2 == BlockBytes(w) + LengthAt(w)
    ensures EndByte(ub, n) < 256 && FillsUp(w, ptr, ub, n, one, [EndByte(ub, n)] + ZeroBytes(m) + [Last(one)])
  {
    ManyBytes(ub, n, m, one);
  }

  lemma OneFill(w: Width, ub: byte, n: nat, one: bool)
    requires n < 7
    ensures EndByte(ub, n) + Last(one) < 256
    ensures FillsUp(w, LengthAt(w) - 1, ub, n, one, [EndByte(ub, n) + Last(one)])
  {
    OneByte(ub, n, one);
  }

  lemma FillerIsPadding(w: Width, ptr: nat, ub: byte, n: nat, one: bool)
    requires ptr < BlockBytes(w) && n < 8
    ensures FillsUp(w, ptr, ub, n, one, Filler(w, ptr, ub, n, one))
  {
    if 8 * ptr + n > 8 * LengthAt(w) - 2 {
      LongFiller(w, ptr, ub, n, one);
      ManyFill(w, ptr, ub, n, one, BlockBytes(w) - 1 - ptr + (LengthAt(w) - 1));
    } else if ptr == LengthAt(w) - 1 {
      OneFill(w, ub, n, one);
    } else {
      ManyFill(w, ptr, ub, n, one, LengthAt(w) - 2 - ptr);
    }
  }

  lemma LongFiller(w: Width, ptr: nat, ub: byte, n: nat, one: bool)
    requires ptr < BlockBytes(w) && n < 8 && 8 * ptr + n > 8 * LengthAt(w) - 2
    ensures EndByte(ub, n) < 256
    ensures Filler(w, ptr, ub, n, one) == [EndByte(ub, n)] + ZeroBytes(BlockBytes(w) - 1 - ptr + (LengthAt(w) - 1)) + [Last(one)]
  {
    EndByteIs(ub, n);
    assert ZeroBytes(BlockBytes(w) - 1 - ptr) + ZeroBytes(LengthAt(w) - 1) == ZeroBytes(BlockBytes(w) - 1 - ptr + (LengthAt(w) - 1));
  }

  function Reach(w: Width, m: seq<byte>): nat {
    if w.Small? then |m| % 64 else |m| % 128
  }

  /** The padded message of 8 |m| + n bits. */
  function Padded(w: Width, m: seq<byte>, ub: byte, n: nat, one: bool): seq<byte>
    requires n < 8
  {
    m + Filler(w, Reach(w, m), ub, n, one) + LengthBytes(w, 8 * |m| + n)
  }

  // --- what the compression function is fed ------------------------------------------------

  /** A block with the counter, high word first. */
  datatype Feed = Feed(block: seq<byte>, t1: nat, t0: nat)

  /** The number of message bits hashed up to and with block i, or 0 if there are none
      in it. */
  function Count(w: Width, i: nat, bits: nat): nat {
    if BlockBits(w) * i >= bits then 0
    else if BlockBits(w) * (i + 1) <= bits then BlockBits(w) * (i + 1) else bits
  }

  function FeedOf(w: Width, block: seq<byte>, count: nat): Feed {
    Feed(block, High(w, count), Low(w, count))
  }

  /** The first k blocks. */
  function Schedule(w: Width, padded: seq<byte>, bits: nat, k: nat): seq<Feed>
    requires BlockBytes(w) * k <= |padded|
  {
    if k == 0 then []
    else
      var l := BlockBytes(w);
      Schedule(w, padded, bits, k - 1) + [FeedOf(w, padded[l * (k - 1)..l * k], Count(w, k - 1, bits))]
  }

  lemma PrefixSlices(p: seq<byte>, q: seq<byte>, a: nat, b: nat)
    requires a <= b <= |p| && b <= |q| && p[..b] == q[..b]
    ensures p[..a] == q[..a] && p[a..b] == q[a..b]
  {
    assert p[..b][..a] == p[..a] && q[..b][..a] == q[..a];
    assert p[..b][a..] == p[a..b] && q[..b][a..] == q[a..b];
  }

  lemma CountBefore(w: Width, k: nat, bits: nat)
    requires k > 0 && BlockBits(w) * k <= bits
    ensures Count(w, k - 1, bits) == BlockBits(w) * k
  {
  }

  /** The schedule of blocks before the end of the message depends on them alone. */
  lemma {:induction false} SchedulePrefix(w: Width, p: seq<byte>, bits: nat, q: seq<byte>, bits2: nat, k: nat)
    requires BlockBytes(w) * k <= |p| && BlockBytes(w) * k <= |q|
    requires p[..BlockBytes(w) * k] == q[..BlockBytes(w) * k]
    requires BlockBits(w) * k <= bits && BlockBits(w) * k <= bits2
    ensures Schedule(w, p, bits, k) == Schedule(w, q, bits2, k)
  {
    if k > 0 {
      PrefixSlices(p, q, BlockBytes(w) * (k - 1), BlockBytes(w) * k);
      CountBefore(w, k, bits);
      CountBefore(w, k, bits2);
      SchedulePrefix(w, p, bits, q, bits2, k - 1);
    }
  }
}
