/** The context object of BLAKE, for any compression function. */
module BlakeClass {
  import opened Common
  import opened BlakeSpec
  import opened BlakeContext

  /** Chain value, block, high and low word of the counter. */
  type Compression = f: (seq<nat>, seq<byte>, nat, nat) -> seq<nat> | forall h, b, t1, t0 :: |f(h, b, t1, t0)| == 8
    witness (h: seq<nat>, b: seq<byte>, t1: nat, t0: nat) => [0, 0, 0, 0, 0, 0, 0, 0]

  /** The chain value after the blocks of `log`. */
  function Hashed(f: Compression, iv: seq<nat>, log: seq<Feed>): (h: seq<nat>)
    requires |iv| == 8
    ensures |h| == 8
  {
    if log == [] then iv
    else
      var d := log[|log| - 1];
      f(Hashed(f, iv, log[..|log| - 1]), d.block, d.t1, d.t0)
  }

  /** The first `k` words of a chain value as bytes. */
  function Output(w: Width, h: seq<nat>, k: nat): seq<byte>
    requires k <= |h|
  {
    if k == 0 then [] else Output(w, h, k - 1) + BigEndian(h[k - 1], WordBytes(w))
  }

  /** Putting bytes that fit into the buffer, and compressing it if it is full. */
  function Taken(w: Width, c: Ctx, chunk: seq<byte>): Ctx {
    var d := c.(held := c.held + chunk);
    if |d.held| == BlockBytes(w) then PushBlock(w, d) else d
  }

  lemma UpdateSplit(w: Width, c: Ctx, rest: seq<byte>, clen: nat)
    requires Fits(w, c) && |rest| > 0
    requires clen == if BlockBytes(w) - |c.held| > |rest| then |rest| else BlockBytes(w) - |c.held|
    ensures Fits(w, Taken(w, c, rest[..clen]))
    ensures Update(w, Taken(w, c, rest[..clen]), rest[clen..]) == Update(w, c, rest)
  {
    if clen == |rest| && clen < BlockBytes(w) - |c.held| {
      assert rest[..clen] == rest && rest[clen..] == [];
      UpdateNothing(w, Taken(w, c, rest));
    }
  }

  lemma UpdateNothing(w: Width, c: Ctx)
    requires Fits(w, c)
    ensures Update(w, c, []) == c
  {
    assert c.held + [] == c.held;
  }

  class Context {
    const w: Width
    const f: Compression
    const iv: seq<nat>
    const buf: array<byte>
    var ptr: nat
    var h: seq<nat>
    var t0: nat
    var t1: nat
    ghost var log: seq<Feed>
    ghost var message: seq<byte>

    ghost predicate Shape()
      reads this
    {
      && buf.Length == BlockBytes(w) && ptr < BlockBytes(w) && |iv| == 8
      && t0 < Modulus(w) && t1 < Modulus(w) && h == Hashed(f, iv, log)
    }

    ghost function View(): Ctx
      requires ptr <= buf.Length
      reads this, buf
    {
      Ctx(buf[..ptr], t1, t0, log)
    }

    ghost predicate Valid()
      reads this, buf
    {
      Shape() && View() == Update(w, Start(), message)
    }

    constructor (w: Width, f: Compression, iv: seq<nat>)
      requires |iv| == 8
      ensures Valid() && message == [] && fresh(buf) && this.w == w && this.f == f && this.iv == iv
    {
      this.w, this.f, this.iv := w, f, iv;
      buf := new byte[BlockBytes(w)](_ => 0);
      ptr, h, t0, t1, log, message := 0, iv, 0, 0, [], [];
      new;
      Init();
    }

    /** blake32_init and blake64_init. */
    method Init()
      requires buf.Length == BlockBytes(w) && |iv| == 8
      modifies this
      ensures Valid() && message == []
    {
      h := iv;
      t0, t1 := 0, 0;
      ptr := 0;
      log, message := [], [];
    }

    /** Count a block and compress it. */
    method Push()
      requires buf.Length == BlockBytes(w) && |iv| == 8 && t0 < Modulus(w) && t1 < Modulus(w) && h == Hashed(f, iv, log)
      modifies this`t0, this`t1, this`h, this`log
      ensures Ctx([], t1, t0, log) == PushBlock(w, Ctx(buf[..], old(t1), old(t0), old(log)))
      ensures t0 < Modulus(w) && t1 < Modulus(w) && h == Hashed(f, iv, log)
    {
      t0 := t0 + BlockBits(w);
      if t0 >= Modulus(w) {
        t0 := t0 - Modulus(w);
      }
      if t0 < BlockBits(w) {
        t1 := if t1 + 1 == Modulus(w) then 0 else t1 + 1;
      }
      h := f(h, buf[..], t1, t0);
      log := log + [Feed(buf[..], t1, t0)];
      assert log[..|log| - 1] == old(log);
    }

    /** blake32 and blake64. */
    method Take(data: seq<byte>)
      requires Shape()
      modifies this`ptr, this`t0, this`t1, this`h, this`log, buf
      ensures Shape() && View() == Update(w, old(View()), data)
    {
      var len: nat := |data|;
      if len < buf.Length - ptr {
        CopyIn(ptr, data);
        ptr := ptr + len;
        return;
      }
      var rest: seq<byte> := data;
      while |rest| > 0
        invariant Shape() && Update(w, View(), rest) == Update(w, old(View()), data)
        decreases |rest|
      {
        var clen: nat := if buf.Length - ptr > |rest| then |rest| else buf.Length - ptr;
        UpdateSplit(w, View(), rest, clen);
        Chunk(rest[..clen]);
        rest := rest[clen..];
      }
      UpdateNothing(w, View());
    }

    /** One iteration of the loop. */
    method Chunk(chunk: seq<byte>)
      requires Shape() && |chunk| <= buf.Length - ptr
      modifies this`ptr, this`t0, this`t1, this`h, this`log, buf
      ensures Shape() && View() == Taken(w, old(View()), chunk)
    {
      CopyIn(ptr, chunk);
      ptr := ptr + |chunk|;
      if ptr == buf.Length {
        assert buf[..] == buf[..ptr];
        Push();
        ptr := 0;
      }
    }

    method CopyIn(pos: nat, chunk: seq<byte>)
      requires pos + |chunk| <= buf.Length
      modifies buf
      ensures buf[..pos + |chunk|] == old(buf[..pos]) + chunk
    {
      forall i | 0 <= i < |chunk| {
        buf[pos + i] := chunk[i];
      }
    }

    /** sph_blake256 and its kin. */
    method Write(data: seq<byte>)
      requires Valid()
      modifies this, buf
      ensures Valid() && message == old(message) + data
    {
      UpdateJoin(w, Start(), message, data);
      Take(data);
      message := message + data;
    }

    /** blake32_close and blake64_close, before the output. */
    method Finish(ub: byte, n: nat, one: bool)
      requires Shape() && n < 8
      modifies this`ptr, this`t0, this`t1, this`h, this`log, buf
      ensures Shape() && View() == Close(w, old(View()), ub, n, one)
    {
      var length: seq<byte> := Length(n);
      var at: nat := ptr;
      SetCounter(n);
      if 8 * at + n <= 8 * LengthAt(w) - 2 {
        var u: seq<byte> := ShortFill(w, at, ub, n, one);
        Take(u + length);
      } else {
        var first: seq<byte>, second: seq<byte> := LongFill(w, at, ub, n, one);
        Take(first);
        ClearCounter();
        Take(second + length);
      }
    }

    method Length(n: nat) returns (length: seq<byte>)
      requires Shape() && n < 8
      ensures length == LengthOf(w, View(), n)
    {
      var tl, th := t0 + 8 * ptr + n, t1;
      if tl >= Modulus(w) {
        tl := tl - Modulus(w);
      }
      length := BigEndian(th, WordBytes(w)) + BigEndian(tl, WordBytes(w));
    }

    static method ShortFill(w: Width, at: nat, ub: byte, n: nat, one: bool) returns (u: seq<byte>)
      requires n < 8 && 8 * at + n <= 8 * LengthAt(w) - 2
      ensures u == Filler(w, at, ub, n, one)
    {
      EndByteIs(ub, n);
      var eb: byte := EndByte(ub, n);
      var last := LengthAt(w) - 1 - at;
      u := [eb] + ZeroBytes(last);
      u := u[last := if one && u[last] % 2 == 0 then u[last] + 1 else u[last]];
    }

    static method LongFill(w: Width, at: nat, ub: byte, n: nat, one: bool) returns (first: seq<byte>, second: seq<byte>)
      requires at < BlockBytes(w) && n < 8
      ensures EndByte(ub, n) < 256 && first == [EndByte(ub, n)] + ZeroBytes(BlockBytes(w) - 1 - at)
      ensures second == ZeroBytes(LengthAt(w) - 1) + [Last(one)]
    {
      EndByteIs(ub, n);
      first := [EndByte(ub, n)] + ZeroBytes(BlockBytes(w) - 1 - at);
      second := ZeroBytes(LengthAt(w) - 1) + [Last(one)];
    }

    method ClearCounter()
      requires Shape()
      modifies this`t0, this`t1
      ensures Shape() && View() == NoBits(w, old(View()))
    {
      t0, t1 := Modulus(w) - BlockBits(w), Modulus(w) - 1;
    }

    method SetCounter(n: nat)
      requires Shape() && n < 8
      modifies this`t0, this`t1
      ensures Shape() && View() == Prepared(w, old(View()), n)
    {
      var bitLen := 8 * ptr + n;
      if ptr == 0 && n == 0 {
        t0, t1 := Modulus(w) - BlockBits(w), Modulus(w) - 1;
      } else if t0 == 0 {
        t0 := Modulus(w) - BlockBits(w) + bitLen;
        t1 := if t1 == 0 then Modulus(w) - 1 else t1 - 1;
      } else {
        var t: int := t0 - (BlockBits(w) - bitLen);
        t0 := if t < 0 then t + Modulus(w) else t;
      }
    }

    /** sph_blake256_addbits_and_close and its kin: the output of `words` words, and a fresh
        start. */
    method AddBitsAndClose(ub: byte, n: nat, words: nat) returns (dst: seq<byte>)
      requires Valid() && n < 8 && words <= 8
      modifies this, buf
      ensures Valid() && message == []
      ensures dst == Output(w, Hashed(f, iv, Fed(w, old(message), ub, n, words == 8)), words)
    {
      Finish(ub, n, words == 8);
      dst := Emit(w, h, words);
      Init();
    }

    static method Emit(w: Width, h: seq<nat>, words: nat) returns (dst: seq<byte>)
      requires words <= |h|
      ensures dst == Output(w, h, words)
    {
      dst := [];
      var k := 0;
      while k < words
        invariant k <= words && dst == Output(w, h, k)
      {
        dst := dst + BigEndian(h[k], WordBytes(w));
        k := k + 1;
      }
    }
  }
}
