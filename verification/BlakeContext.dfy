/** The streaming context of BLAKE: the update loop, the counter words and close. */
module BlakeContext {
  import opened Common
  import opened BlakeSpec

  /** The bytes held in the buffer, the counter words, and every block handed to the
      compression function with the counter it was given. */
  datatype Ctx = Ctx(held: seq<byte>, t1: nat, t0: nat, log: seq<Feed>)

  function Start(): Ctx { Ctx([], 0, 0, []) }

  predicate Fits(w: Width, c: Ctx) {
    |c.held| < BlockBytes(w) && c.t0 < Modulus(w) && c.t1 < Modulus(w)
  }

  /** A full buffer: count its bits, compress. */
  function PushBlock(w: Width, c: Ctx): Ctx {
    var t0 := if c.t0 + BlockBits(w) >= Modulus(w) then c.t0 + BlockBits(w) - Modulus(w) else c.t0 + BlockBits(w);
    var t1 := if t0 < BlockBits(w) then (if c.t1 + 1 == Modulus(w) then 0 else c.t1 + 1) else c.t1;
    Ctx([], t1, t0, c.log + [Feed(c.held, t1, t0)])
  }

  /** blake32 and blake64. */
  function Update(w: Width, c: Ctx, data: seq<byte>): (d: Ctx)
    requires Fits(w, c)
    ensures Fits(w, d)
    decreases |data|
  {
    var room := BlockBytes(w) - |c.held|;
    if |data| < room then c.(held := c.held + data)
    else Update(w, PushBlock(w, c.(held := c.held + data[..room])), data[room..])
  }

  // --- between messages -------------------------------------------------------------------

  /** The context after message `m`, of which k blocks have been compressed. */
  ghost predicate Good(w: Width, c: Ctx, m: seq<byte>, k: nat) {
    var l := BlockBytes(w) * k;
    && l <= |m| < l + BlockBytes(w) && c.held == m[l..]
    && c.t0 == BlockBits(w) * LowOf(w, k) && c.t1 == Low(w, HighOf(w, k))
    && c.log == Schedule(w, m, 8 * |m|, k)
  }

  lemma PushTimes(w: Width, c: Ctx, k: nat)
    requires c.t0 == BlockBits(w) * LowOf(w, k) && c.t1 == Low(w, HighOf(w, k))
    ensures var d := PushBlock(w, c);
            && d.t0 == BlockBits(w) * LowOf(w, k + 1) == Low(w, BlockBits(w) * (k + 1))
            && d.t1 == Low(w, HighOf(w, k + 1)) == High(w, BlockBits(w) * (k + 1))
  {
    NextBlock(w, k);
    NextHigh(w, HighOf(w, k));
    WordsOfBlocks(w, k, 0);
    WordsOfBlocks(w, k + 1, 0);
  }

  /** One block of the schedule of a longer message. */
  lemma ScheduleNext(w: Width, m: seq<byte>, m2: seq<byte>, k: nat)
    requires BlockBytes(w) * k <= |m| && BlockBytes(w) * (k + 1) <= |m2|
    requires m[..BlockBytes(w) * k] == m2[..BlockBytes(w) * k]
    ensures Schedule(w, m2, 8 * |m2|, k + 1)
         == Schedule(w, m, 8 * |m|, k) + [FeedOf(w, m2[BlockBytes(w) * k..BlockBytes(w) * (k + 1)], BlockBits(w) * (k + 1))]
  {
    SchedulePrefix(w, m2, 8 * |m2|, m, 8 * |m|, k);
  }

  lemma FilledSlices(m: seq<byte>, more: seq<byte>, l: nat, b: nat)
    requires l <= |m| && |m| - l + |more| == b
    ensures var m2 := m + more;
            |m2| == l + b && m2[..l] == m[..l] && m2[l..l + b] == m[l..] + more && m2[l + b..] == []
  {
  }

  lemma FillBlock(w: Width, c: Ctx, m: seq<byte>, k: nat, more: seq<byte>)
    requires Good(w, c, m, k) && |c.held| + |more| == BlockBytes(w)
    ensures Good(w, PushBlock(w, c.(held := c.held + more)), m + more, k + 1)
  {
    FilledSlices(m, more, BlockBytes(w) * k, BlockBytes(w));
    assert BlockBytes(w) * (k + 1) == BlockBytes(w) * k + BlockBytes(w);
    PushTimes(w, c.(held := c.held + more), k);
    ScheduleNext(w, m, m + more, k);
  }

  lemma HoldMore(w: Width, c: Ctx, m: seq<byte>, k: nat, data: seq<byte>)
    requires Good(w, c, m, k) && |c.held| + |data| < BlockBytes(w)
    ensures Good(w, c.(held := c.held + data), m + data, k)
  {
    var l := BlockBytes(w) * k;
    assert (m + data)[l..] == m[l..] + data;
    assert (m + data)[..l] == m[..l];
    SchedulePrefix(w, m, 8 * |m|, m + data, 8 * |m + data|, k);
  }

  /** Giving bytes in any pieces leads to the context of the bytes joined. */
  lemma {:induction false} UpdateGood(w: Width, c: Ctx, m: seq<byte>, k: nat, data: seq<byte>) returns (k2: nat)
    requires Good(w, c, m, k) && Fits(w, c)
    ensures Good(w, Update(w, c, data), m + data, k2)
    decreases |data|
  {
    var room := BlockBytes(w) - |c.held|;
    if |data| < room {
      k2 := k;
      HoldMore(w, c, m, k, data);
    } else {
      var first: seq<byte>, rest: seq<byte> := data[..room], data[room..];
      FillBlock(w, c, m, k, first);
      k2 := UpdateGood(w, PushBlock(w, c.(held := c.held + first)), m + first, k + 1, rest);
      assert m + first + rest == m + data;
    }
  }

  // --- close ---------------------------------------------------------------------------------

  /** The counter that makes the next block count for nothing. */
  function NoBits(w: Width, c: Ctx): Ctx {
    c.(t0 := Modulus(w) - BlockBits(w), t1 := Modulus(w) - 1)
  }

  /** The counter that makes the next block count for its message bits only. */
  function Prepared(w: Width, c: Ctx, n: nat): Ctx
    requires |c.held| < BlockBytes(w) && n < 8
  {
    var bitLen := 8 * |c.held| + n;
    if bitLen == 0 then NoBits(w, c)
    else if c.t0 == 0 then
      c.(t0 := Modulus(w) - BlockBits(w) + bitLen, t1 := if c.t1 == 0 then Modulus(w) - 1 else c.t1 - 1)
    else
      var t := c.t0 as int - (BlockBits(w) - bitLen);
      c.(t0 := if t < 0 then t + Modulus(w) else t)
  }

  /** The length of the message in bits, as close computes it from the counter. */
  function LengthOf(w: Width, c: Ctx, n: nat): seq<byte>
    requires |c.held| < BlockBytes(w) && n < 8 && c.t0 < Modulus(w)
  {
    var tl := c.t0 + 8 * |c.held| + n;
    BigEndian(c.t1, WordBytes(w)) + BigEndian(if tl < Modulus(w) then tl else tl - Modulus(w), WordBytes(w))
  }

  /** blake32_close and blake64_close, up to the output. */
  function Close(w: Width, c: Ctx, ub: byte, n: nat, one: bool): Ctx
    requires Fits(w, c) && n < 8
  {
    var ptr := |c.held|;
    var length := LengthOf(w, c, n);
    var p := Prepared(w, c, n);
    EndByteIs(ub, n);
    if 8 * ptr + n <= 8 * LengthAt(w) - 2 then
      Update(w, p, Filler(w, ptr, ub, n, one) + length)
    else
      var q := Update(w, p, [EndByte(ub, n)] + ZeroBytes(BlockBytes(w) - 1 - ptr));
      Update(w, NoBits(w, q), ZeroBytes(LengthAt(w) - 1) + [Last(one)] + length)
  }

  /** Filling up the buffer exactly compresses it once, with a counter that does not depend
      on its contents. */
  lemma UpdateExactly(w: Width, c: Ctx, data: seq<byte>)
    requires Fits(w, c) && |c.held| + |data| == BlockBytes(w)
    ensures var d := PushBlock(w, c);
            Update(w, c, data) == Ctx([], d.t1, d.t0, c.log + [Feed(c.held + data, d.t1, d.t0)])
  {
    assert data[..|data|] == data && data[|data|..] == [];
    var d := PushBlock(w, c.(held := c.held + data));
    assert d.held + [] == d.held;
    assert Update(w, d, []) == d;
  }

  lemma NoBitsCount(w: Width, c: Ctx)
    ensures PushBlock(w, NoBits(w, c)).t0 == Low(w, 0) && PushBlock(w, NoBits(w, c)).t1 == High(w, 0)
  {
  }

  /** Through all the wrap-around cases the last block that holds message bits is given
      their number. */
  lemma PreparedCount(w: Width, c: Ctx, k: nat, n: nat)
    requires |c.held| < BlockBytes(w) && n < 8
    requires c.t0 == BlockBits(w) * LowOf(w, k) && c.t1 == Low(w, HighOf(w, k))
    ensures var b := 8 * |c.held| + n; var bits := BlockBits(w) * k + b;
            var count := if b == 0 then 0 else bits;
            var d := PushBlock(w, Prepared(w, c, n));
            && d.t0 == Low(w, count) && d.t1 == High(w, count)
            && Low(w, bits) == c.t0 + b < Modulus(w) && High(w, bits) == c.t1
  {
    WordsOfBlocks(w, k, 8 * |c.held| + n);
  }

  /** The blocks that close hands over: `count` is the counter of the first. */
  function LastFeeds(w: Width, held: seq<byte>, t: seq<byte>, length: seq<byte>, count: nat): seq<Feed> {
    var l := BlockBytes(w);
    var p := held + t + length;
    if |p| == l then [FeedOf(w, p, count)]
    else if |p| == 2 * l then [FeedOf(w, p[..l], count), FeedOf(w, p[l..], 0)]
    else []
  }

  /** The context is ready to close a message of `bits` bits. */
  ghost predicate Ready(w: Width, c: Ctx, n: nat, bits: nat, count: nat) {
    && Fits(w, c) && n < 8
    && LengthOf(w, c, n) == LengthBytes(w, bits)
    && PushBlock(w, Prepared(w, c, n)).t0 == Low(w, count) && PushBlock(w, Prepared(w, c, n)).t1 == High(w, count)
  }

  lemma CloseShort(w: Width, c: Ctx, ub: byte, n: nat, one: bool, bits: nat, count: nat)
    requires Ready(w, c, n, bits, count) && 8 * |c.held| + n <= 8 * LengthAt(w) - 2
    ensures Close(w, c, ub, n, one).log == c.log + LastFeeds(w, c.held, Filler(w, |c.held|, ub, n, one), LengthBytes(w, bits), count)
  {
    var t: seq<byte>, length: seq<byte> := Filler(w, |c.held|, ub, n, one), LengthOf(w, c, n);
    ShortLength(w, |c.held|, ub, n, one);
    UpdateExactly(w, Prepared(w, c, n), t + length);
    assert c.held + (t + length) == c.held + t + length;
  }

  lemma ShortLength(w: Width, ptr: nat, ub: byte, n: nat, one: bool)
    requires ptr < BlockBytes(w) && n < 8 && 8 * ptr + n <= 8 * LengthAt(w) - 2
    ensures ptr + |Filler(w, ptr, ub, n, one)| == LengthAt(w)
  {
    EndByteIs(ub, n);
  }

  /** A block without message bits. */
  lemma EmptyBlock(w: Width, q: Ctx, block: seq<byte>)
    requires Fits(w, q) && q.held == [] && |block| == BlockBytes(w)
    ensures Fits(w, NoBits(w, q)) && Update(w, NoBits(w, q), block).log == q.log + [Feed(block, High(w, 0), Low(w, 0))]
  {
    NoBitsCount(w, q);
    UpdateExactly(w, NoBits(w, q), block);
    assert [] + block == block;
  }

  lemma CloseTwice(w: Width, c: Ctx, n: nat, first: seq<byte>, second: seq<byte>)
    requires Fits(w, c) && n < 8 && |c.held| + |first| == BlockBytes(w) && |second| == BlockBytes(w)
    ensures var d := PushBlock(w, Prepared(w, c, n));
            var q := Update(w, Prepared(w, c, n), first);
            && Update(w, NoBits(w, q), second).log
            == c.log + [Feed(c.held + first, d.t1, d.t0), Feed(second, High(w, 0), Low(w, 0))]
  {
    UpdateExactly(w, Prepared(w, c, n), first);
    EmptyBlock(w, Update(w, Prepared(w, c, n), first), second);
  }

  lemma CloseLong(w: Width, c: Ctx, ub: byte, n: nat, one: bool, bits: nat, count: nat)
    requires Ready(w, c, n, bits, count) && 8 * |c.held| + n > 8 * LengthAt(w) - 2
    ensures Close(w, c, ub, n, one).log == c.log + LastFeeds(w, c.held, Filler(w, |c.held|, ub, n, one), LengthBytes(w, bits), count)
  {
    EndByteIs(ub, n);
    var first: seq<byte> := [EndByte(ub, n)] + ZeroBytes(BlockBytes(w) - 1 - |c.held|);
    var second: seq<byte> := ZeroBytes(LengthAt(w) - 1) + [Last(one)];
    var length: seq<byte> := LengthOf(w, c, n);
    CloseTwice(w, c, n, first, second + length);
    TwoBlocks(w, c.held, first, second, length);
    assert Filler(w, |c.held|, ub, n, one) == first + second;
  }

  lemma TwoBlocks(w: Width, held: seq<byte>, first: seq<byte>, second: seq<byte>, length: seq<byte>)
    requires |held| + |first| == BlockBytes(w)
    ensures var p := held + (first + second) + length;
            p[..BlockBytes(w)] == held + first && p[BlockBytes(w)..] == second + length
  {
  }

  /** The numbers of a context after k blocks. */
  ghost predicate Counted(w: Width, c: Ctx, k: nat) {
    |c.held| < BlockBytes(w) && c.t0 == BlockBits(w) * LowOf(w, k) && c.t1 == Low(w, HighOf(w, k))
  }

  lemma GoodCounts(w: Width, c: Ctx, m: seq<byte>, k: nat, n: nat)
    requires Good(w, c, m, k)
    ensures Counted(w, c, k) && 8 * |m| + n == BlockBits(w) * k + 8 * |c.held| + n
  {
  }

  lemma CountedIsReady(w: Width, c: Ctx, k: nat, n: nat)
    requires Counted(w, c, k) && n < 8
    ensures var b := 8 * |c.held| + n; Ready(w, c, n, BlockBits(w) * k + b, if b == 0 then 0 else BlockBits(w) * k + b)
  {
    PreparedCount(w, c, k, n);
  }

  lemma EndSlices(m: seq<byte>, t: seq<byte>, length: seq<byte>, l: nat, b: nat)
    requires l <= |m| && (|m| - l + |t| + |length| == b || |m| - l + |t| + |length| == 2 * b)
    ensures var p, q := m + t + length, m[l..] + t + length;
            && p[..l] == m[..l] && p[l..l + b] == q[..b]
            && (|q| == b ==> q[..b] == q) && (|q| == 2 * b ==> p[l + b..l + 2 * b] == q[b..])
  {
  }

  /** The schedule of the padded message: the whole blocks, then the last ones. */
  lemma ScheduleEnds(w: Width, m: seq<byte>, k: nat, t: seq<byte>, length: seq<byte>, n: nat)
    requires BlockBytes(w) * k <= |m| < BlockBytes(w) * (k + 1) && n < 8
    requires var r := |m| - BlockBytes(w) * k + |t| + |length|; r == BlockBytes(w) || r == 2 * BlockBytes(w)
    ensures var held := m[BlockBytes(w) * k..];
            var p := m + t + length;
            var blocks := if |held| + |t| + |length| == BlockBytes(w) then k + 1 else k + 2;
            && |p| == BlockBytes(w) * blocks && |Schedule(w, p, 8 * |m| + n, blocks)| == blocks
            && Schedule(w, p, 8 * |m| + n, blocks)
            == Schedule(w, m, 8 * |m|, k) + LastFeeds(w, held, t, length, if 8 * |held| + n == 0 then 0 else 8 * |m| + n)
  {
    var l, p := BlockBytes(w), m + t + length;
    BlockSteps(w, k);
    if |m| - l * k + |t| + |length| == l {
      OneEnd(w, m, k, t, length, n);
      ScheduleLength(w, p, 8 * |m| + n, k + 1);
    } else {
      TwoEnds(w, m, k, t, length, n);
      ScheduleLength(w, p, 8 * |m| + n, k + 2);
    }
  }

  lemma OneEnd(w: Width, m: seq<byte>, k: nat, t: seq<byte>, length: seq<byte>, n: nat)
    requires BlockBytes(w) * k <= |m| < BlockBytes(w) * (k + 1) && n < 8
    requires |m| - BlockBytes(w) * k + |t| + |length| == BlockBytes(w)
    ensures var q, p := m[BlockBytes(w) * k..] + t + length, m + t + length;
            && |p| == BlockBytes(w) * (k + 1)
            && Schedule(w, p, 8 * |m| + n, k + 1)
            == Schedule(w, m, 8 * |m|, k) + [FeedOf(w, q, if 8 * (|m| - BlockBytes(w) * k) + n == 0 then 0 else 8 * |m| + n)]
  {
    var l, bits, p := BlockBytes(w), 8 * |m| + n, m + t + length;
    EndSlices(m, t, length, l * k, l);
    BlockSteps(w, k);
    SchedulePrefix(w, p, bits, m, 8 * |m|, k);
    LastCounts(w, |m|, k, n);
    ScheduleOne(w, p, bits, k, m[l * k..] + t + length);
  }

  lemma TwoEnds(w: Width, m: seq<byte>, k: nat, t: seq<byte>, length: seq<byte>, n: nat)
    requires BlockBytes(w) * k <= |m| < BlockBytes(w) * (k + 1) && n < 8
    requires |m| - BlockBytes(w) * k + |t| + |length| == 2 * BlockBytes(w)
    ensures var q, p := m[BlockBytes(w) * k..] + t + length, m + t + length;
            && |p| == BlockBytes(w) * (k + 2)
            && Schedule(w, p, 8 * |m| + n, k + 2)
            == Schedule(w, m, 8 * |m|, k)
               + [FeedOf(w, q[..BlockBytes(w)], if 8 * (|m| - BlockBytes(w) * k) + n == 0 then 0 else 8 * |m| + n),
                  FeedOf(w, q[BlockBytes(w)..], 0)]
  {
    var l, bits, p, q := BlockBytes(w), 8 * |m| + n, m + t + length, m[BlockBytes(w) * k..] + t + length;
    EndSlices(m, t, length, l * k, l);
    BlockSteps(w, k);
    SchedulePrefix(w, p, bits, m, 8 * |m|, k);
    LastCounts(w, |m|, k, n);
    ScheduleTwo(w, p, bits, k, q[..l], q[l..]);
  }

  lemma BlockSteps(w: Width, k: nat)
    ensures BlockBytes(w) * (k + 1) == BlockBytes(w) * k + BlockBytes(w)
    ensures BlockBytes(w) * (k + 2) == BlockBytes(w) * k + 2 * BlockBytes(w)
  {
  }

  lemma ScheduleTwo(w: Width, p: seq<byte>, bits: nat, k: nat, first: seq<byte>, second: seq<byte>)
    requires BlockBytes(w) * k <= BlockBytes(w) * (k + 1) <= BlockBytes(w) * (k + 2) <= |p|
    requires p[BlockBytes(w) * k..BlockBytes(w) * (k + 1)] == first && p[BlockBytes(w) * (k + 1)..BlockBytes(w) * (k + 2)] == second
    ensures Schedule(w, p, bits, k + 2)
         == Schedule(w, p, bits, k) + [FeedOf(w, first, Count(w, k, bits)), FeedOf(w, second, Count(w, k + 1, bits))]
  {
    ScheduleOne(w, p, bits, k, first);
    ScheduleOne(w, p, bits, k + 1, second);
  }

  lemma ScheduleOne(w: Width, p: seq<byte>, bits: nat, k: nat, block: seq<byte>)
    requires BlockBytes(w) * (k + 1) <= |p| && p[BlockBytes(w) * k..BlockBytes(w) * (k + 1)] == block
    ensures Schedule(w, p, bits, k + 1) == Schedule(w, p, bits, k) + [FeedOf(w, block, Count(w, k, bits))]
  {
  }

  /** The counters of the last blocks. */
  lemma LastCounts(w: Width, size: nat, k: nat, n: nat)
    requires BlockBytes(w) * k <= size < BlockBytes(w) * (k + 1) && n < 8
    ensures var held := size - BlockBytes(w) * k; var bits := 8 * size + n;
            Count(w, k, bits) == (if 8 * held + n == 0 then 0 else bits) && Count(w, k + 1, bits) == 0
  {
  }

  lemma CloseLog(w: Width, c: Ctx, ub: byte, n: nat, one: bool, bits: nat, count: nat)
    requires Ready(w, c, n, bits, count)
    ensures Close(w, c, ub, n, one).log == c.log + LastFeeds(w, c.held, Filler(w, |c.held|, ub, n, one), LengthBytes(w, bits), count)
  {
    if 8 * |c.held| + n <= 8 * LengthAt(w) - 2 {
      CloseShort(w, c, ub, n, one, bits, count);
    } else {
      CloseLong(w, c, ub, n, one, bits, count);
    }
  }

  lemma FillerLength(w: Width, ptr: nat, ub: byte, n: nat, one: bool)
    requires ptr < BlockBytes(w) && n < 8
    ensures var r := ptr + |Filler(w, ptr, ub, n, one)| + 2 * WordBytes(w); r == BlockBytes(w) || r == 2 * BlockBytes(w)
  {
    FillerIsPadding(w, ptr, ub, n, one);
  }

  lemma Reaches(w: Width, m: seq<byte>, k: nat)
    requires BlockBytes(w) * k <= |m| < BlockBytes(w) * (k + 1)
    ensures Reach(w, m) == |m| - BlockBytes(w) * k
  {
  }

  lemma CloseSchedule(w: Width, c: Ctx, m: seq<byte>, k: nat, n: nat, t: seq<byte>, length: seq<byte>, log: seq<Feed>)
    requires BlockBytes(w) * k <= |m| < BlockBytes(w) * (k + 1) && n < 8
    requires var r := |m| - BlockBytes(w) * k + |t| + |length|; r == BlockBytes(w) || r == 2 * BlockBytes(w)
    requires c.held == m[BlockBytes(w) * k..] && c.log == Schedule(w, m, 8 * |m|, k)
    requires log == c.log + LastFeeds(w, c.held, t, length, if 8 * |c.held| + n == 0 then 0 else 8 * |m| + n)
    ensures IsSchedule(w, m + t + length, 8 * |m| + n, log)
  {
    ScheduleEnds(w, m, k, t, length, n);
  }

  /** `log` is the schedule of all blocks of `padded`. */
  ghost predicate IsSchedule(w: Width, padded: seq<byte>, bits: nat, log: seq<Feed>) {
    |padded| == BlockBytes(w) * |log| && log == Schedule(w, padded, bits, |log|)
  }

  lemma {:induction false} ScheduleLength(w: Width, padded: seq<byte>, bits: nat, k: nat)
    requires BlockBytes(w) * k <= |padded|
    ensures |Schedule(w, padded, bits, k)| == k
  {
    if k > 0 {
      ScheduleLength(w, padded, bits, k - 1);
    }
  }

  lemma GoodLog(w: Width, c: Ctx, m: seq<byte>, k: nat, ub: byte, n: nat, one: bool)
    requires Good(w, c, m, k) && n < 8
    ensures var bits := 8 * |m| + n; var count := if 8 * |c.held| + n == 0 then 0 else bits;
            && Fits(w, c)
            && Close(w, c, ub, n, one).log == c.log + LastFeeds(w, c.held, Filler(w, |c.held|, ub, n, one), LengthBytes(w, bits), count)
  {
    GoodCounts(w, c, m, k, n);
    CountedIsReady(w, c, k, n);
    CloseLog(w, c, ub, n, one, 8 * |m| + n, if 8 * |c.held| + n == 0 then 0 else 8 * |m| + n);
  }

  /** The main result: after any pieces of a message and close, the compression function
      has been fed the blocks of the padded message, each with the number of message bits
      hashed up to it, or 0 for a block without any. */
  lemma CloseFeedsSchedule(w: Width, c: Ctx, m: seq<byte>, k: nat, ub: byte, n: nat, one: bool)
    requires Good(w, c, m, k) && n < 8
    ensures Fits(w, c) && IsSchedule(w, Padded(w, m, ub, n, one), 8 * |m| + n, Close(w, c, ub, n, one).log)
  {
    GoodLog(w, c, m, k, ub, n, one);
    FillerLength(w, |c.held|, ub, n, one);
    Reaches(w, m, k);
    CloseSchedule(w, c, m, k, n, Filler(w, |c.held|, ub, n, one), LengthBytes(w, 8 * |m| + n), Close(w, c, ub, n, one).log);
  }

  /** What the padded message is, bit by bit, up to the length at its end. */
  lemma PaddedIs(w: Width, m: seq<byte>, ub: byte, n: nat, one: bool)
    requires n < 8
    ensures var p := Padded(w, m, ub, n, one);
            var body := p[..|p| - 2 * WordBytes(w)];
            var z := 8 * (|body| - |m|) - n - 2;
            && 0 <= z < BlockBits(w)
            && BitsOf(body) == BitsOf(m) + Bits(Top(ub, n), n) + [true] + Zeros(z) + [one]
            && p[|p| - 2 * WordBytes(w)..] == LengthBytes(w, 8 * |m| + n)
  {
    var t, length := Filler(w, Reach(w, m), ub, n, one), LengthBytes(w, 8 * |m| + n);
    FillerIsPadding(w, Reach(w, m), ub, n, one);
    BodyAndLength(m, t, length);
    BitsOfAppend(m, t);
    var z := 8 * |t| - n - 2;
    Regroup(BitsOf(m), Bits(Top(ub, n), n), Zeros(z), one);
  }

  lemma Regroup(a: seq<bool>, b: seq<bool>, c: seq<bool>, one: bool)
    ensures a + (b + [true] + c + [one]) == a + b + [true] + c + [one]
  {
  }

  lemma BodyAndLength(m: seq<byte>, t: seq<byte>, length: seq<byte>)
    ensures var p := m + t + length; p[..|p| - |length|] == m + t && p[|p| - |length|..] == length
  {
  }

  // --- the whole computation ----------------------------------------------------------------

  /** Bytes given one after the other are as good as given at once. */
  lemma {:induction false} UpdateJoin(w: Width, c: Ctx, a: seq<byte>, b: seq<byte>)
    requires Fits(w, c)
    ensures Update(w, Update(w, c, a), b) == Update(w, c, a + b)
    decreases |a|
  {
    var room := BlockBytes(w) - |c.held|;
    if |a| < room {
      if |a + b| < room {
        assert c.held + a + b == c.held + (a + b);
      } else {
        assert a + b[..room - |a|] == (a + b)[..room] && b[room - |a|..] == (a + b)[room..];
        assert c.held + a + b[..room - |a|] == c.held + (a + b)[..room];
      }
    } else {
      assert (a + b)[..room] == a[..room] && (a + b)[room..] == a[room..] + b;
      UpdateJoin(w, PushBlock(w, c.(held := c.held + a[..room])), a[room..], b);
    }
  }

  /** The blocks and counters for a whole message. */
  function Fed(w: Width, m: seq<byte>, ub: byte, n: nat, one: bool): seq<Feed>
    requires n < 8
  {
    Close(w, Update(w, Start(), m), ub, n, one).log
  }

  /** They are those of the schedule, for every message and in whatever pieces it came. */
  lemma FedIsSchedule(w: Width, m: seq<byte>, ub: byte, n: nat, one: bool)
    requires n < 8
    ensures IsSchedule(w, Padded(w, m, ub, n, one), 8 * |m| + n, Fed(w, m, ub, n, one))
  {
    var k := UpdateGood(w, Start(), [], 0, m);
    assert [] + m == m;
    CloseFeedsSchedule(w, Update(w, Start(), m), m, k, ub, n, one);
  }
}
