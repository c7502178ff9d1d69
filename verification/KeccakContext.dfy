/** The streaming context: keccak_init, keccak_core and the closing functions. */
module KeccakContext {
  import opened Common
  import opened KeccakSpec
  import opened KeccakLanes
  import opened KeccakSponge

  ghost predicate Usable<T(!new)>(p: Setup<T>) {
    match p
    case Setup(o, rc, _, _, enc) => Lawful(o) && Rotates(o) && |rc| == 24 && (forall v :: |enc(v)| == 8)
  }

  predicate Rate(lim: nat) { lim == 144 || lim == 136 || lim == 104 || lim == 72 }

  lemma WideRoundTrip<T>(a: State<T>, w: seq<T>)
    requires |w| == 25
    ensures FromWide(ToWide(a)) == a && ToWide(FromWide(w)) == w
  {
  }

  predicate Complemented(i: nat) { i == 1 || i == 2 || i == 8 || i == 12 || i == 17 || i == 20 }

  /** The words that hold the complemented lanes, complemented. */
  function HideWide<T>(o: Ops<T>, w: seq<T>): (r: seq<T>)
    ensures |r| == |w|
  {
    seq(|w|, i requires 0 <= i < |w| => if Complemented(i) then o.not(w[i]) else w[i])
  }

  lemma HideWideIsHide<T>(o: Ops<T>, w: seq<T>)
    requires |w| == 25
    ensures FromWide(HideWide(o, w)) == Hide(o, FromWide(w))
  {
  }

  /** Adding a block does not disturb the complement of a lane. */
  lemma AddedHidden<T(!new)>(p: Setup<T>, w: seq<T>, block: seq<byte>)
    requires Lawful(p.o) && |w| == 25
    ensures Added(p, HideWide(p.o, w), block) == HideWide(p.o, Added(p, w, block))
  {
    var a, b := Added(p, HideWide(p.o, w), block), HideWide(p.o, Added(p, w, block));
    forall i | 0 <= i < 25 ensures a[i] == b[i] {
      WordHidden(p, w, block, i);
    }
  }

  lemma WordHidden<T(!new)>(p: Setup<T>, w: seq<T>, block: seq<byte>, i: nat)
    requires Lawful(p.o) && |w| == 25 && i < 25
    ensures 8 * i + 8 <= |block| ==> p.o.xor(p.o.not(w[i]), p.dec(block[8 * i..8 * i + 8])) == p.o.not(p.o.xor(w[i], p.dec(block[8 * i..8 * i + 8])))
  {
    if 8 * i + 8 <= |block| {
      XorNot(p.o, w[i], p.dec(block[8 * i..8 * i + 8]));
    }
  }

  lemma {:induction false} OutputLength<T(!new)>(p: Setup<T>, w: seq<T>, k: nat)
    requires Usable(p) && k <= |w|
    ensures |Output(p, w, k)| == 8 * k
  {
    if k > 0 {
      OutputLength(p, w, k - 1);
    }
  }

  /** What the stored words become when a block is added and the permutation works on
      the complemented lanes. */
  function StoredNext<T>(p: Setup<T>, w: seq<T>, block: seq<byte>): seq<T>
    requires |w| == 25
  {
    ToWide(Hide(p.o, Permuted(p, Hide(p.o, FromWide(Added(p, w, block))))))
  }

  ghost predicate Implements<T(!new)>(p: Setup<T>, step: (seq<T>, seq<byte>) -> seq<T>) {
    forall w: seq<T>, block: seq<byte> {:trigger StoredNext(p, w, block)} ::
      |w| == 25 ==> step(w, block) == StoredNext(p, w, block)
  }

  lemma ImplementsAt<T(!new)>(p: Setup<T>, step: (seq<T>, seq<byte>) -> seq<T>, w: seq<T>, block: seq<byte>)
    requires Implements(p, step) && |w| == 25
    ensures step(w, block) == StoredNext(p, w, block)
  {
  }

  lemma StoredNextIs<T(!new)>(p: Setup<T>, v: seq<T>, block: seq<byte>)
    requires Usable(p) && |v| == 25
    ensures StoredNext(p, HideWide(p.o, v), block) == HideWide(p.o, BlockStep(p)(v, block))
  {
    var u: seq<T> := Added(p, v, block);
    AddedHidden(p, v, block);
    HideWideIsHide(p.o, u);
    HideTwice(p.o, FromWide(u));
    var r := Permuted(p, FromWide(u));
    WideRoundTrip(r, ToWide(r));
    HideWideIsHide(p.o, ToWide(r));
    WideRoundTrip(Hide(p.o, r), HideWide(p.o, ToWide(r)));
  }

  lemma {:induction false} AbsorbSimulates<S(!new), R>(f: (S, seq<byte>) -> S, g: (R, seq<byte>) -> R, enc: S -> R, inv: S -> bool, lim: nat, v: S, bytes: seq<byte>)
    requires lim > 0 && inv(v)
    requires forall s: S, b: seq<byte> :: inv(s) ==> g(enc(s), b) == enc(f(s, b)) && inv(f(s, b))
    ensures Absorb(g, lim, enc(v), bytes) == enc(Absorb(f, lim, v, bytes))
    decreases |bytes|
  {
    if |bytes| >= lim {
      AbsorbSimulates(f, g, enc, inv, lim, f(v, bytes[..lim]), bytes[lim..]);
    }
  }

  /** Absorbing on complemented lanes. */
  lemma AbsorbHidden<T(!new)>(p: Setup<T>, step: (seq<T>, seq<byte>) -> seq<T>, lim: nat, v: seq<T>, bytes: seq<byte>)
    requires Usable(p) && Implements(p, step) && lim > 0 && |v| == 25
    ensures Absorb(step, lim, HideWide(p.o, v), bytes) == HideWide(p.o, Absorb(BlockStep(p), lim, v, bytes))
  {
    var f := BlockStep(p);
    forall s: seq<T>, b: seq<byte> | |s| == 25
      ensures step(HideWide(p.o, s), b) == HideWide(p.o, f(s, b)) && |f(s, b)| == 25
    {
      StoredNextIs(p, s, b);
    }
    AbsorbSimulates(f, step, (w: seq<T>) => HideWide(p.o, w), (w: seq<T>) => |w| == 25, lim, v, bytes);
  }

  lemma HideWideTwice<T(!new)>(o: Ops<T>, w: seq<T>)
    requires Lawful(o)
    ensures HideWide(o, HideWide(o, w)) == w
  {
    forall i | 0 <= i < |w| ensures HideWide(o, HideWide(o, w))[i] == w[i] {
      NotLaws(o, w[i], w[i]);
    }
  }

  class Context<T(!new)> {
    const p: Setup<T>
    const buf: array<byte>
    var ptr: nat
    var lim: nat
    const wide: array<T>
    /** The bytes given since the last initialisation, and the absorbed blocks of them. */
    ghost var message: seq<byte>
    ghost var whole: seq<byte>
    /** What the blocks do to the words. */
    ghost const step: (seq<T>, seq<byte>) -> seq<T>

    ghost predicate Valid()
      reads this, buf, wide
    {
      Ready() && Holding(ptr) && message == whole + buf[..ptr]
    }

    ghost predicate Ready()
    {
      Usable(p) && Implements(p, step) && buf.Length == 144 && wide.Length == 25
    }

    /** The buffer holds `pos` bytes after the absorbed blocks. */
    ghost predicate Holding(pos: nat)
      reads this, wide
    {
      && Rate(lim) && pos < lim && Whole(lim, |whole|)
      && wide[..] == Absorb(step, lim, HideWide(p.o, Blank(p)), whole)
    }

    constructor (p: Setup<T>, outSize: nat)
      requires Usable(p) && outSize in {224, 256, 384, 512}
      ensures Valid() && fresh(buf) && fresh(wide) && this.p == p
      ensures message == [] && lim == 200 - outSize / 4
    {
      this.p := p;
      buf := new byte[144](_ => 0);
      wide := new T[25](_ => p.zero);
      step := (w: seq<T>, block: seq<byte>) => if |w| == 25 then StoredNext(p, w, block) else w;
      ptr, lim, message, whole := 0, 144, [], [];
      new;
      Init(outSize);
    }

    /** keccak_init. */
    method Init(outSize: nat)
      requires Ready() && outSize in {224, 256, 384, 512}
      modifies this, wide
      ensures Valid() && message == [] && lim == 200 - outSize / 4
    {
      var i := 0;
      while i < 25
        invariant i <= 25
        invariant forall k :: 0 <= k < i ==> wide[k] == p.zero
      {
        wide[i] := p.zero;
        i := i + 1;
      }
      wide[1], wide[2], wide[8] := p.o.not(p.zero), p.o.not(p.zero), p.o.not(p.zero);
      wide[12], wide[17], wide[20] := p.o.not(p.zero), p.o.not(p.zero), p.o.not(p.zero);
      ptr := 0;
      lim := 200 - outSize / 4;
      message, whole := [], [];
      assert wide[..] == HideWide(p.o, Blank(p));
    }

    /** INPUT_BUF. */
    method InputBuf(lim: nat)
      requires Rate(lim) && buf.Length == 144 && wide.Length == 25
      modifies wide
      ensures wide[..] == Added(p, old(wide[..]), buf[..lim])
    {
      var j := 0;
      while j < lim
        invariant j <= lim && j % 8 == 0
        invariant forall k :: 0 <= k < 25 ==>
          wide[k] == if k < j / 8 then p.o.xor(old(wide[k]), p.dec(buf[8 * k..8 * k + 8])) else old(wide[k])
      {
        wide[j / 8] := p.o.xor(wide[j / 8], p.dec(buf[j..j + 8]));
        j := j + 8;
      }
      forall k | 0 <= k < 25 && 8 * k + 8 <= lim
        ensures buf[..lim][8 * k..8 * k + 8] == buf[8 * k..8 * k + 8]
      {
      }
    }

    /** KECCAK_F_1600 on the words of the context. */
    method PermuteWide()
      requires Usable(p) && wide.Length == 25
      modifies wide
      ensures FromWide(wide[..]) == Hide(p.o, Permuted(p, Hide(p.o, FromWide(old(wide[..])))))
    {
      var a := KeccakF(p.o, p.rc, FromWide(wide[..]));
      SetWide(ToWide(a));
      WideRoundTrip(a, wide[..]);
    }

    method SetWide(w: seq<T>)
      requires wide.Length == 25 && |w| == 25
      modifies wide
      ensures wide[..] == w
    {
      forall i | 0 <= i < 25 {
        wide[i] := w[i];
      }
    }

    method NextWords(lim: nat)
      requires Usable(p) && Rate(lim) && buf.Length == 144 && wide.Length == 25
      modifies wide
      ensures wide[..] == StoredNext(p, old(wide[..]), buf[..lim])
    {
      InputBuf(lim);
      PermuteWide();
      WideRoundTrip(FromWide(wide[..]), wide[..]);
    }

    method StepWords()
      requires Ready() && Rate(lim)
      modifies wide
      ensures wide[..] == step(old(wide[..]), buf[..lim])
    {
      ghost var w: seq<T> := wide[..];
      ImplementsAt(p, step, w, buf[..lim]);
      NextWords(lim);
    }

    /** INPUT_BUF and KECCAK_F_1600 on a full buffer. */
    method Absorbed()
      requires Ready() && Holding(0)
      modifies wide, this`whole
      ensures whole == old(whole) + buf[..lim] && Holding(0)
    {
      ghost var w: seq<T>, block: seq<byte>, before: seq<byte> := wide[..], buf[..lim], whole;
      StepWords();
      AbsorbNext(step, lim, HideWide(p.o, Blank(p)), before, block);
      WholeNext(lim, |before|);
      whole := before + block;
    }

    /** keccak_core: give the context more bytes. */
    method Core(data: seq<byte>)
      requires Valid()
      modifies this, buf, wide
      ensures Valid() && lim == old(lim) && message == old(message) + data
    {
      message := message + data;
      if |data| < lim - ptr {
        ghost var held: seq<byte> := buf[..ptr];
        CopyIn(ptr, data);
        ptr := ptr + |data|;
        assert whole + held + data == whole + (held + data);
        return;
      }
      var rest: seq<byte>, pos: nat := data, ptr;
      while |rest| > 0
        invariant Ready() && Holding(pos) && lim == old(lim)
        invariant whole + buf[..pos] + rest == message == old(message) + data
        decreases |rest|
      {
        var clen: nat := if lim - pos > |rest| then |rest| else lim - pos;
        pos := Chunk(pos, rest[..clen]);
        assert rest == rest[..clen] + rest[clen..];
        rest := rest[clen..];
      }
      ptr := pos;
    }

    /** One iteration of the loop. */
    method Chunk(pos: nat, chunk: seq<byte>) returns (next: nat)
      requires Ready() && Holding(pos) && pos + |chunk| <= lim
      modifies buf, wide, this`whole
      ensures Ready() && Holding(next) && whole + buf[..next] == old(whole + buf[..pos]) + chunk
    {
      ghost var held: seq<byte>, before: seq<byte> := buf[..pos], whole;
      CopyIn(pos, chunk);
      next := pos + |chunk|;
      assert before + held + chunk == before + (held + chunk);
      if next == lim {
        Absorbed();
        next := 0;
        assert whole + buf[..0] == whole;
      }
    }

    method CopyIn(pos: nat, chunk: seq<byte>)
      requires pos + |chunk| <= buf.Length
      modifies buf
      ensures buf[..pos + |chunk|] == old(buf[..pos]) + chunk
    {
      forall i | 0 <= i < |chunk| {
        buf[pos + i] := chunk[i];
      }
    }

    /** DEFCLOSE(d, lim): the digest of everything given so far and of the upper n bits
        of `ub`; the context starts over. */
    method Close(d: nat, ub: byte, n: nat) returns (dst: seq<byte>)
      requires Valid() && n < 8 && d in {28, 32, 48, 64} && lim == 200 - 2 * d
      modifies this, buf, wide
      ensures Valid() && lim == old(lim) && message == []
      ensures dst == Digest(p, lim, d, old(message), ub, n)
    {
      var tmp: seq<byte> := TailOf(ub, n);
      ghost var given: seq<byte> := message;
      Core(tmp);
      Finish(given, ub, n);
      dst := Emit(d);
      Init(8 * d);
    }

    /** The bytes to append. */
    method TailOf(ub: byte, n: nat) returns (tmp: seq<byte>)
      requires Valid() && n < 8
      ensures message + tmp == Padded(lim, message, ub, n)
    {
      ExtraByteIs(ub, n);
      ReachAfter(lim, |whole|, ptr);
      var eb := ExtraByte(ub, n);
      if ptr == lim - 1 {
        if n == 7 {
          tmp := [eb] + ZeroBytes(lim - 1) + [0x80];
        } else {
          tmp := [eb + 0x80];
        }
      } else {
        var j := lim - ptr;
        tmp := [eb] + ZeroBytes(j - 2) + [0x80];
      }
    }

    /** "Finalize the lane complement". */
    method Finish(ghost given: seq<byte>, ub: byte, n: nat)
      requires Valid() && n < 8 && message == Padded(lim, given, ub, n)
      modifies wide
      ensures wide[..] == Words(p, lim, message)
    {
      PaddedIs(lim, given, ub, n);
      ghost var bytes: seq<byte> := whole;
      WholeIsAll(lim, whole, message);
      AbsorbHidden(p, step, lim, Blank(p), whole);
      AbsorbLength(p, lim, Blank(p), whole);
      HideWideTwice(p.o, Words(p, lim, whole));
      ghost var w: seq<T> := wide[..];
      wide[1], wide[2], wide[8] := p.o.not(wide[1]), p.o.not(wide[2]), p.o.not(wide[8]);
      wide[12], wide[17], wide[20] := p.o.not(wide[12]), p.o.not(wide[17]), p.o.not(wide[20]);
      assert wide[..] == HideWide(p.o, w);
    }

    /** The output loop. */
    method Emit(d: nat) returns (dst: seq<byte>)
      requires Usable(p) && wide.Length == 25 && d <= 64
      ensures |dst| == d && dst <= Output(p, wide[..], (d + 7) / 8)
    {
      var tmp: seq<byte> := [];
      var j := 0;
      while j < d
        invariant j % 8 == 0 && j <= d + 7
        invariant tmp == Output(p, wide[..], j / 8)
      {
        tmp := tmp + p.enc(wide[j / 8]);
        j := j + 8;
      }
      assert j / 8 == (d + 7) / 8;
      OutputLength(p, wide[..], j / 8);
      dst := tmp[..d];
    }
  }
}
