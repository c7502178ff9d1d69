/** The sponge of section 4 of FIPS 202 with the padding 10*1, for messages of bytes
    followed by up to seven more bits, and digests no longer than one block. */
module KeccakSponge {
  import opened Common
  import opened KeccakSpec

  /** What the context works with: lane operations, round constants, and lanes as
      eight bytes, least significant first. */
  datatype Setup<!T> = Setup(o: Ops<T>, rc: seq<T>, zero: T, dec: seq<byte> -> T, enc: T -> seq<byte>)

  // --- absorbing -----------------------------------------------------------------

  /** Lane (x, y) is word x + 5 y. */
  function FromWide<T>(w: seq<T>): State<T>
    requires |w| == 25
  {
    St(w[0], w[5], w[10], w[15], w[20],
       w[1], w[6], w[11], w[16], w[21],
       w[2], w[7], w[12], w[17], w[22],
       w[3], w[8], w[13], w[18], w[23],
       w[4], w[9], w[14], w[19], w[24])
  }

  function ToWide<T>(a: State<T>): (w: seq<T>)
    ensures |w| == 25
  {
    [a.a00, a.a10, a.a20, a.a30, a.a40,
     a.a01, a.a11, a.a21, a.a31, a.a41,
     a.a02, a.a12, a.a22, a.a32, a.a42,
     a.a03, a.a13, a.a23, a.a33, a.a43,
     a.a04, a.a14, a.a24, a.a34, a.a44]
  }

  /** Words with the lanes of a block added to the first of them. */
  function Added<T>(p: Setup<T>, w: seq<T>, block: seq<byte>): (r: seq<T>)
    requires |w| == 25
    ensures |r| == 25
  {
    seq(25, i requires 0 <= i < 25 =>
      if 8 * i + 8 <= |block| then p.o.xor(w[i], p.dec(block[8 * i..8 * i + 8])) else w[i])
  }

  function Permuted<T>(p: Setup<T>, a: State<T>): State<T> {
    Rounds(RoundOf(p.o), p.rc, a)
  }

  /** Adding a block to the state and permuting it. */
  function BlockStep<T>(p: Setup<T>): (seq<T>, seq<byte>) -> seq<T> {
    (w: seq<T>, block: seq<byte>) => if |w| == 25 then ToWide(Permuted(p, FromWide(Added(p, w, block)))) else w
  }

  /** The blocks of `lim` bytes that `bytes` begins with, one step for each. */
  function Absorb<S>(step: (S, seq<byte>) -> S, lim: nat, a: S, bytes: seq<byte>): S
    requires lim > 0
  {
    if |bytes| < lim then a else Absorb(step, lim, step(a, bytes[..lim]), bytes[lim..])
  }

  /** `n` bytes are whole blocks. */
  predicate Whole(lim: nat, n: nat)
    requires lim > 0
  {
    n == 0 || (n >= lim && Whole(lim, n - lim))
  }

  lemma {:induction false} WholeNext(lim: nat, n: nat)
    requires lim > 0 && Whole(lim, n)
    ensures Whole(lim, n + lim)
  {
  }

  /** Absorbing whole blocks and then the rest is absorbing all of it. */
  lemma {:induction false} AbsorbAppend<S>(step: (S, seq<byte>) -> S, lim: nat, a: S, whole: seq<byte>, rest: seq<byte>)
    requires lim > 0 && Whole(lim, |whole|)
    ensures Absorb(step, lim, a, whole + rest) == Absorb(step, lim, Absorb(step, lim, a, whole), rest)
    decreases |whole|
  {
    if whole == [] {
      assert whole + rest == rest;
    } else {
      assert (whole + rest)[..lim] == whole[..lim];
      assert (whole + rest)[lim..] == whole[lim..] + rest;
      AbsorbAppend(step, lim, step(a, whole[..lim]), whole[lim..], rest);
    }
  }

  /** One more block. */
  lemma AbsorbNext<S>(step: (S, seq<byte>) -> S, lim: nat, a: S, whole: seq<byte>, block: seq<byte>)
    requires lim > 0 && Whole(lim, |whole|) && |block| == lim
    ensures Absorb(step, lim, a, whole + block) == step(Absorb(step, lim, a, whole), block)
  {
    AbsorbAppend(step, lim, a, whole, block);
    var w := Absorb(step, lim, a, whole);
    assert block[..lim] == block && block[lim..] == [];
    assert Absorb(step, lim, step(w, block), []) == step(w, block);
  }

  // --- bits and padding -----------------------------------------------------------

  /** The low `n` bits of `v`, lowest first. */
  function Bits(v: nat, n: nat): (b: seq<bool>)
    ensures |b| == n
  {
    if n == 0 then [] else [v % 2 == 1] + Bits(v / 2, n - 1)
  }

  function BitsOf(bytes: seq<byte>): (b: seq<bool>)
    ensures |b| == 8 * |bytes|
  {
    if bytes == [] then [] else Bits(bytes[0], 8) + BitsOf(bytes[1..])
  }

  /** pad10*1 (section 5.1) with `n` zeros in the middle. */
  function Pad(n: nat): (b: seq<bool>)
    ensures |b| == n + 2
  {
    [true] + Zeros(n) + [true]
  }

  lemma {:induction false} BitsZero(n: nat)
    ensures Bits(0, n) == Zeros(n)
  {
    if n > 0 {
      BitsZero(n - 1);
      assert [false] + Zeros(n - 1) == Zeros(n);
    }
  }

  /** A bit set above the low n bits ends up after them. */
  lemma {:induction false} BitsAbove(v: nat, n: nat, k: nat)
    requires v < Pow2(n)
    ensures Bits(v + Pow2(n), n + 1 + k) == Bits(v, n) + [true] + Zeros(k)
  {
    if n == 0 {
      BitsZero(k);
    } else {
      assert (v + Pow2(n)) / 2 == v / 2 + Pow2(n - 1) && (v + Pow2(n)) % 2 == v % 2;
      BitsAbove(v / 2, n - 1, k);
      assert [v % 2 == 1] + (Bits(v / 2, n - 1) + [true] + Zeros(k)) == ([v % 2 == 1] + Bits(v / 2, n - 1)) + [true] + Zeros(k);
    }
  }

  lemma {:induction false} BitsOfAppend(a: seq<byte>, b: seq<byte>)
    ensures BitsOf(a + b) == BitsOf(a) + BitsOf(b)
  {
    if a == [] {
      assert a + b == b;
    } else {
      assert (a + b)[1..] == a[1..] + b;
      BitsOfAppend(a[1..], b);
      assert Bits(a[0], 8) + (BitsOf(a[1..]) + BitsOf(b)) == (Bits(a[0], 8) + BitsOf(a[1..])) + BitsOf(b);
    }
  }

  lemma {:induction false} BitsOfZeros(n: nat)
    ensures BitsOf(ZeroBytes(n)) == Zeros(8 * n)
  {
    if n > 0 {
      BitsZero(8);
      BitsOfZeros(n - 1);
      assert ZeroBytes(n)[1..] == ZeroBytes(n - 1);
      assert Zeros(8) + Zeros(8 * (n - 1)) == Zeros(8 * n);
    }
  }

  lemma {:induction false} ShrAbove(v: nat, k: nat, m: nat)
    requires v < Pow2(k + m)
    ensures Shr(v, k) < Pow2(m) && Shr(v + Pow2(k + m), k) == Shr(v, k) + Pow2(m)
  {
    if k > 0 {
      assert (v + Pow2(k + m)) / 2 == v / 2 + Pow2(k - 1 + m);
      ShrAbove(v / 2, k - 1, m);
    }
  }

  /** The last n bits, taken from the top of `ub`, as a number. */
  function Extra(ub: byte, n: nat): nat
    requires n < 8
  {
    Shr(ub, 8 - n)
  }

  /** The byte `eb` of close: the extra bits followed by the first 1 of the padding. */
  function ExtraByte(ub: byte, n: nat): nat
    requires n < 8
  {
    Shr(0x100 + ub, 8 - n)
  }

  lemma {:induction false} PowGrows(n: nat, m: nat)
    requires n <= m
    ensures Pow2(n) <= Pow2(m)
  {
    if n < m {
      PowGrows(n, m - 1);
    }
  }

  lemma ExtraByteIs(ub: byte, n: nat)
    requires n < 8
    ensures Extra(ub, n) < Pow2(n) && ExtraByte(ub, n) == Extra(ub, n) + Pow2(n)
    ensures ExtraByte(ub, n) < 256 && (n < 7 ==> ExtraByte(ub, n) < 128)
  {
    Powers();
    ShrAbove(ub, 8 - n, n);
    PowGrows(n, if n < 7 then 6 else 7);
  }

  /** The bytes close appends to a block already holding `ptr` bytes. */
  function Tail(lim: nat, ptr: nat, ub: byte, n: nat): (t: seq<byte>)
    requires ptr < lim && n < 8
  {
    ExtraByteIs(ub, n);
    var eb := ExtraByte(ub, n);
    if ptr == lim - 1 then
      if n == 7 then [eb] + ZeroBytes(lim - 1) + [0x80] else [eb + 0x80]
    else
      [eb] + ZeroBytes(lim - ptr - 2) + [0x80]
  }

  lemma LastBit()
    ensures BitsOf([0x80]) == Zeros(7) + [true]
  {
    Powers();
    BitsZero(7);
    BitsAbove(0, 7, 0);
    assert Bits(0x80, 8) == Zeros(7) + [true] + Zeros(0);
    assert BitsOf([0x80]) == Bits(0x80, 8) + BitsOf([]);
  }

  /** The extra bits and the padding in one byte. */
  lemma OneByteTail(ub: byte, n: nat)
    requires n < 7
    ensures ExtraByte(ub, n) < 128 && BitsOf([ExtraByte(ub, n) + 0x80]) == Bits(Extra(ub, n), n) + Pad(6 - n)
  {
    ExtraByteIs(ub, n);
    Powers();
    var eb := ExtraByte(ub, n);
    var bits := Bits(Extra(ub, n), n);
    BitsAbove(Extra(ub, n), n, 6 - n);
    BitsAbove(eb, 7, 0);
    assert BitsOf([eb + 0x80]) == Bits(eb + 0x80, 8) + BitsOf([]);
    assert bits + [true] + Zeros(6 - n) + [true] + Zeros(0) == bits + Pad(6 - n);
  }

  lemma LongTail(ub: byte, n: nat, k: nat)
    requires n < 8
    ensures ExtraByte(ub, n) < 256 && BitsOf([ExtraByte(ub, n)] + ZeroBytes(k) + [0x80]) == Bits(Extra(ub, n), n) + Pad(14 - n + 8 * k)
  {
    ExtraByteIs(ub, n);
    var eb := ExtraByte(ub, n);
    var bits := Bits(Extra(ub, n), n);
    BitsAbove(Extra(ub, n), n, 7 - n);
    BitsOfAppend([eb] + ZeroBytes(k), [0x80]);
    BitsOfAppend([eb], ZeroBytes(k));
    assert BitsOf([eb]) == Bits(eb, 8) + BitsOf([]);
    BitsOfZeros(k);
    LastBit();
    assert (bits + [true] + Zeros(7 - n)) + Zeros(8 * k) + (Zeros(7) + [true]) == bits + Pad(14 - n + 8 * k);
  }

  /** The tail is the extra bits followed by the padding, and fills up the block; the
      padding is the shortest there is. */
  lemma TailIsPadding(lim: nat, ptr: nat, ub: byte, n: nat)
    requires ptr < lim && n < 8
    ensures var t := Tail(lim, ptr, ub, n);
            var z := 8 * |t| - n - 2;
            && 0 <= z < 8 * lim
            && BitsOf(t) == Bits(Extra(ub, n), n) + Pad(z)
            && (ptr + |t| == lim || ptr + |t| == 2 * lim)
  {
    ExtraByteIs(ub, n);
    if ptr == lim - 1 && n < 7 {
      OneByteTail(ub, n);
    } else {
      LongTail(ub, n, if ptr == lim - 1 then lim - 1 else lim - ptr - 2);
    }
  }

  // --- the digest -------------------------------------------------------------------

  /** How far `n` bytes reach into a block. */
  function Reach(lim: nat, n: nat): (r: nat)
    requires lim > 0
    ensures r < lim
  {
    if n < lim then n else Reach(lim, n - lim)
  }

  lemma {:induction false} ReachAfter(lim: nat, n: nat, k: nat)
    requires lim > 0 && Whole(lim, n) && k < lim
    ensures Reach(lim, n + k) == k
  {
    if n > 0 {
      ReachAfter(lim, n - lim, k);
    }
  }

  lemma {:induction false} WholeUpTo(lim: nat, n: nat, k: nat)
    requires lim > 0 && (Reach(lim, n) + k == lim || Reach(lim, n) + k == 2 * lim)
    ensures Whole(lim, n + k)
  {
    if n >= lim {
      WholeUpTo(lim, n - lim, k);
    } else if n + k == 2 * lim {
      assert Whole(lim, lim);
    }
  }

  /** Whole blocks leave nothing in the buffer. */
  lemma {:induction false} WholeIsAll(lim: nat, whole: seq<byte>, message: seq<byte>)
    requires lim > 0 && Whole(lim, |whole|) && Whole(lim, |message|)
    requires |whole| <= |message| < |whole| + lim && message[..|whole|] == whole
    ensures whole == message
    decreases |whole|
  {
    if whole != [] {
      WholeIsAll(lim, whole[lim..], message[lim..]);
    }
  }

  function Padded(lim: nat, message: seq<byte>, ub: byte, n: nat): seq<byte>
    requires lim > 0 && n < 8
  {
    message + Tail(lim, Reach(lim, |message|), ub, n)
  }

  /** The padded message is the message, its extra bits and pad10*1 with the fewest
      zeros that make up whole blocks. */
  lemma PaddedIs(lim: nat, message: seq<byte>, ub: byte, n: nat)
    requires lim > 0 && n < 8
    ensures var q := Padded(lim, message, ub, n);
            var z := 8 * (|q| - |message|) - n - 2;
            && 0 <= z < 8 * lim && Whole(lim, |q|)
            && BitsOf(q) == BitsOf(message) + Bits(Extra(ub, n), n) + Pad(z)
  {
    var t := Tail(lim, Reach(lim, |message|), ub, n);
    TailIsPadding(lim, Reach(lim, |message|), ub, n);
    BitsOfAppend(message, t);
    WholeUpTo(lim, |message|, |t|);
    var z := 8 * |t| - n - 2;
    assert BitsOf(message) + (Bits(Extra(ub, n), n) + Pad(z)) == BitsOf(message) + Bits(Extra(ub, n), n) + Pad(z);
  }

  function Blank<T>(p: Setup<T>): seq<T> {
    seq(25, _ => p.zero)
  }

  /** The first `k` words as bytes. */
  function Output<T>(p: Setup<T>, w: seq<T>, k: nat): seq<byte>
    requires k <= |w|
  {
    if k == 0 then [] else Output(p, w, k - 1) + p.enc(w[k - 1])
  }

  /** The words once the whole blocks of `bytes` are absorbed. */
  function Words<T>(p: Setup<T>, lim: nat, bytes: seq<byte>): seq<T>
    requires lim > 0
  {
    Absorb(BlockStep(p), lim, Blank(p), bytes)
  }

  lemma {:induction false} AbsorbLength<T>(p: Setup<T>, lim: nat, w: seq<T>, bytes: seq<byte>)
    requires lim > 0 && |w| == 25
    ensures |Absorb(BlockStep(p), lim, w, bytes)| == 25
    decreases |bytes|
  {
    if |bytes| >= lim {
      AbsorbLength(p, lim, BlockStep(p)(w, bytes[..lim]), bytes[lim..]);
    }
  }

  /** The first `d` bytes of the state once the padded message is absorbed. */
  function Digest<T>(p: Setup<T>, lim: nat, d: nat, message: seq<byte>, ub: byte, n: nat): seq<byte>
    requires lim > 0 && n < 8 && d <= 64
  {
    var w := Words(p, lim, Padded(lim, message, ub, n));
    AbsorbLength(p, lim, Blank(p), Padded(lim, message, ub, n));
    var bytes := Output(p, w, (d + 7) / 8);
    if d <= |bytes| then bytes[..d] else bytes
  }
}
