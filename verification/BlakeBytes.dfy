/** What the bytes of the length field and of the output denote. */
module BlakeBytes {
  import opened Common
  import opened Radix
  import opened BlakeSpec
  import opened BlakeClass

  lemma {:induction false} ValueJoin(a: seq<nat>, b: seq<nat>)
    ensures Value(a + b, 256) == Value(a, 256) * Pow(256, |b|) + Value(b, 256)
  {
    if b == [] {
      assert a + b == a;
    } else {
      var n := |b| - 1;
      assert (a + b)[..|a + b| - 1] == a + b[..n];
      ValueJoin(a, b[..n]);
      JoinStep(Value(a, 256), Pow(256, n), Value(b[..n], 256));
    }
  }

  lemma JoinStep(h: nat, p: nat, w: nat)
    ensures (h * p + w) * 256 == h * (256 * p) + w * 256
  {
  }

  /** The bytes denote the number, the most significant first. */
  lemma {:induction false} BigEndianIs(v: nat, k: nat)
    requires v < Pow(256, k)
    ensures Value(BigEndian(v, k), 256) == v
  {
    if k > 0 {
      var p := Pow(256, k - 1);
      assert v / 256 < p && v == 256 * (v / 256) + v % 256;
      BigEndianIs(v / 256, k - 1);
      var front, b := BigEndian(v / 256, k - 1), BigEndian(v, k);
      assert b[..|b| - 1] == front;
    }
  }

  lemma {:induction false} OutputLength(w: Width, h: seq<nat>, k: nat)
    requires k <= |h|
    ensures |Output(w, h, k)| == WordBytes(w) * k
  {
    if k > 0 {
      OutputLength(w, h, k - 1);
      assert |BigEndian(h[k - 1], WordBytes(w))| == WordBytes(w);
    }
  }

  lemma Inside<T>(a: seq<T>, b: seq<T>, i: nat, j: nat)
    requires i <= j <= |a|
    ensures (a + b)[i..j] == a[i..j]
  {
  }

  lemma Behind<T>(a: seq<T>, b: seq<T>, i: nat, j: nat)
    requires i == |a| && j == |a| + |b|
    ensures (a + b)[i..j] == b
  {
  }

  /** The output is the words in order, 4 or 8 bytes each, the most significant byte first. */
  lemma {:induction false} OutputWord(w: Width, h: seq<nat>, k: nat, i: nat)
    requires i < k <= |h| && h[i] < Pow(256, if w.Small? then 4 else 8)
    ensures var n := if w.Small? then 4 else 8;
            |Output(w, h, k)| == n * k && Value(Output(w, h, k)[n * i..n * i + n], 256) == h[i]
  {
    var n := if w.Small? then 4 else 8;
    OutputLength(w, h, k - 1);
    OutputLength(w, h, k);
    var front, last := Output(w, h, k - 1), BigEndian(h[k - 1], n);
    if i < k - 1 {
      OutputWord(w, h, k - 1, i);
      Inside(front, last, n * i, n * i + n);
    } else {
      BigEndianIs(h[i], n);
      Behind(front, last, n * i, n * i + n);
    }
  }

  lemma Words256()
    ensures Pow(256, 4) == 0x1_0000_0000 && Pow(256, 8) == 0x1_0000_0000_0000_0000
    ensures Pow(256, 16) == 0x1_0000_0000_0000_0000 * 0x1_0000_0000_0000_0000
  {
    assert Pow(256, 1) == 256 && Pow(256, 2) == 65536;
    PowAdd(256, 2, 2);
    PowAdd(256, 4, 4);
    PowAdd(256, 8, 8);
  }

  lemma TwoWords(w: Width, hi: nat, lo: nat)
    requires hi < Pow(256, WordBytes(w)) && lo < Pow(256, WordBytes(w))
    ensures Value(BigEndian(hi, WordBytes(w)) + BigEndian(lo, WordBytes(w)), 256) == hi * Pow(256, WordBytes(w)) + lo
  {
    var n := WordBytes(w);
    BigEndianIs(hi, n);
    BigEndianIs(lo, n);
    ValueJoin(BigEndian(hi, n), BigEndian(lo, n));
  }

  lemma SplitSmall(bits: nat)
    requires bits < 0x1_0000_0000_0000_0000
    ensures High(Small, bits) * 0x1_0000_0000 + Low(Small, bits) == bits
  {
  }

  lemma SplitLarge(bits: nat)
    requires bits < 0x1_0000_0000_0000_0000 * 0x1_0000_0000_0000_0000
    ensures High(Big, bits) * 0x1_0000_0000_0000_0000 + Low(Big, bits) == bits
  {
  }

  /** The length field denotes the number of bits, in 8 or 16 bytes. */
  lemma LengthIs(w: Width, bits: nat)
    requires bits < Pow(256, if w.Small? then 8 else 16)
    ensures |LengthBytes(w, bits)| == (if w.Small? then 8 else 16) && Value(LengthBytes(w, bits), 256) == bits
  {
    Words256();
    TwoWords(w, High(w, bits), Low(w, bits));
    if w.Small? {
      SplitSmall(bits);
    } else {
      SplitLarge(bits);
    }
  }
}
