/** Numbers as bytes, in the form of OpenSSL's MPI, and the compact form of targets. */
module BigNum {
  import opened Common
  import opened Radix

  function ToBytes(d: seq<nat>): (b: seq<byte>)
    requires InBase(d, 256)
  {
    seq(|d|, i requires 0 <= i < |d| => d[i])
  }

  function Number(v: nat): seq<byte> {
    DigitsValue(v, 256);
    ToBytes(Digits(v, 256))
  }

  lemma NumberValue(v: nat)
    ensures Value(Number(v), 256) == v && (v > 0 ==> Number(v) != [] && Number(v)[0] != 0) && (v == 0 ==> Number(v) == [])
  {
    DigitsValue(v, 256);
    assert Number(v) == Digits(v, 256);
  }

  /** The MPI form of a number, without its length: the bytes of its magnitude from the most
      significant one, with room for a sign in the top bit. */
  function Mpi(v: int): seq<byte> {
    if v >= 0 then Unsigned(v)
    else
      NumberValue(-v);
      Negated(Unsigned(-v))
  }

  function Unsigned(v: nat): (b: seq<byte>)
    ensures b != [] ==> b[0] < 0x80
    ensures v > 0 ==> b != []
  {
    NumberValue(v);
    var b := Number(v);
    if b != [] && b[0] >= 0x80 then [0] + b else b
  }

  function Negated(b: seq<byte>): seq<byte>
    requires b != [] && b[0] < 0x80
  {
    [b[0] + 0x80] + b[1..]
  }

  /** BN_mpi2bn. */
  function FromMpi(b: seq<byte>): int {
    if b == [] then 0
    else if b[0] >= 0x80 then -(Value([b[0] - 0x80] + b[1..], 256) as int)
    else Value(b, 256)
  }

  /** CBigNum::getvch, from the least significant byte. */
  function GetVch(v: int): seq<byte> {
    Reversed(Mpi(v))
  }

  function Reversed<T>(s: seq<T>): (r: seq<T>)
    ensures |r| == |s|
  {
    seq(|s|, i requires 0 <= i < |s| => s[|s| - 1 - i])
  }

  lemma ReversedTwice<T>(s: seq<T>)
    ensures Reversed(Reversed(s)) == s
  {
  }

  lemma ReversedFront<T>(x: T, s: seq<T>)
    ensures Reversed([x] + s) == Reversed(s) + [x]
    ensures s != [] ==> Reversed(s)[|s| - 1] == s[0]
  {
  }

  lemma WithoutSign(v: nat)
    ensures var t := GetVch(v);
            var cut := |t| >= 2 && t[|t| - 1] == 0 && t[|t| - 2] >= 0x80;
            Reversed(if cut then t[..|t| - 1] else t) == Number(v)
  {
    var b := Number(v);
    NumberValue(v);
    ReversedTwice(b);
    if b != [] {
      ReversedFront(0, b);
      var r := Reversed(b);
      if b[0] >= 0x80 {
        assert GetVch(v) == r + [0];
        assert (r + [0])[..|r|] == r;
      } else {
        assert GetVch(v) == r && r[|r| - 1] == b[0];
      }
    }
  }

  function SetVch(b: seq<byte>): int { FromMpi(Reversed(b)) }

  // --- MPI ---------------------------------------------------------------------------

  lemma ZeroInFront(b: seq<byte>)
    ensures Value([0] + b, 256) == Value(b, 256)
  {
    ValueHead([0] + b, 256);
    assert ([0] + b)[1..] == b;
  }

  /** Reading the MPI form gives the number back. */
  lemma MpiRoundTrip(v: int)
    ensures FromMpi(Mpi(v)) == v && SetVch(GetVch(v)) == v
  {
    FromMpiBack(v);
    ReversedTwice(Mpi(v));
  }

  lemma FromMpiBack(v: int)
    ensures FromMpi(Mpi(v)) == v
  {
    if v >= 0 {
      UnsignedValue(v);
      FromPositive(Unsigned(v));
    } else {
      UnsignedValue(-v);
      FromNegated(Unsigned(-v));
    }
  }

  lemma FromPositive(b: seq<byte>)
    requires b != [] ==> b[0] < 0x80
    ensures FromMpi(b) == Value(b, 256)
  {
  }

  lemma UnsignedValue(v: nat)
    ensures Mpi(v) == Unsigned(v) && Value(Unsigned(v), 256) == v
  {
    NumberValue(v);
    ZeroInFront(Number(v));
  }

  lemma FromNegated(b: seq<byte>)
    requires b != [] && b[0] < 0x80
    ensures FromMpi(Negated(b)) == -(Value(b, 256) as int)
  {
    assert [Negated(b)[0] - 0x80] + Negated(b)[1..] == b;
  }

  /** Bytes that are an MPI form: no zero in front but the one that keeps the sign bit
      clear. */
  predicate IsMpi(b: seq<byte>) {
    b == [] || (0 < b[0] < 0x80) || (b[0] == 0 && |b| >= 2 && b[1] >= 0x80)
  }

  lemma MpiUnique(b: seq<byte>)
    requires IsMpi(b)
    ensures Mpi(Value(b, 256)) == b
  {
    if b != [] && b[0] == 0 {
      assert b == [0] + b[1..];
      ZeroInFront(b[1..]);
      DigitsUnique(b[1..], 256);
    } else {
      DigitsUnique(b, 256);
    }
  }

  lemma MpiIs(v: nat)
    ensures IsMpi(Mpi(v))
  {
    NumberValue(v);
  }

  // --- the compact form -------------------------------------------------------------------

  function ByteAt(b: seq<byte>, i: nat): byte { if i < |b| then b[i] else 0 }

  /** GetCompact: the size of the MPI form, cut to a byte, and the first three bytes. */
  function GetCompact(v: int): nat {
    var b := Mpi(v);
    (|b| % 256) * 0x100_0000 + ByteAt(b, 0) * 0x1_0000 + ByteAt(b, 1) * 0x100 + ByteAt(b, 2)
  }

  function CompactBytes(c: nat): seq<byte> {
    seq(c / 0x100_0000, i =>
      if i == 0 then (c / 0x1_0000) % 256 else if i == 1 then (c / 0x100) % 256 else if i == 2 then c % 256 else 0)
  }

  /** SetCompact. */
  function SetCompact(c: nat): int { FromMpi(CompactBytes(c)) }

  /** The first three bytes, and zeros. */
  function Cut(b: seq<byte>): seq<byte> {
    if |b| <= 3 then b else b[..3] + ZeroBytes(|b| - 3)
  }

  lemma CompactOf(n: nat, x: byte, y: byte, z: byte)
    ensures var c := n * 0x100_0000 + x * 0x1_0000 + y * 0x100 + z;
            c / 0x100_0000 == n && (c / 0x1_0000) % 256 == x && (c / 0x100) % 256 == y && c % 256 == z
  {
    var c := n * 0x100_0000 + x * 0x1_0000 + y * 0x100 + z;
    assert c % 256 == z && c / 0x100 == n * 0x1_0000 + x * 0x100 + y;
    var d := n * 0x1_0000 + x * 0x100 + y;
    assert d % 256 == y && d / 0x100 == n * 0x100 + x;
    assert c / 0x1_0000 == n * 0x100 + x;
    assert (n * 0x100 + x) % 256 == x;
  }

  lemma BytesOfCompact(v: int)
    ensures |CompactBytes(GetCompact(v))| == |Mpi(v)| % 256
    ensures |Mpi(v)| <= 255 ==> CompactBytes(GetCompact(v)) == Cut(Mpi(v))
  {
    var b := Mpi(v);
    CompactOf(|b| % 256, ByteAt(b, 0), ByteAt(b, 1), ByteAt(b, 2));
  }

  lemma {:induction false} ValueSplit(a: seq<nat>, b: seq<nat>)
    ensures Value(a + b, 256) == Value(a, 256) * Pow(256, |b|) + Value(b, 256)
  {
    if b == [] {
      assert a + b == a;
    } else {
      var n := |b| - 1;
      assert (a + b)[..|a + b| - 1] == a + b[..n];
      ValueSplit(a, b[..n]);
      assert Pow(256, |b|) == 256 * Pow(256, n);
      OnePlace(Value(a, 256), Pow(256, n), Value(b[..n], 256));
    }
  }

  lemma OnePlace(h: nat, p: nat, w: nat)
    ensures (h * p + w) * 256 == h * (256 * p) + w * 256
  {
  }

  lemma {:induction false} ZerosValue(z: seq<nat>)
    requires forall i :: 0 <= i < |z| ==> z[i] == 0
    ensures Value(z, 256) == 0
  {
    if z != [] {
      ZerosValue(z[..|z| - 1]);
    }
  }

  /** Zeros in place of the last digits. */
  lemma TailLost(head: seq<nat>, tail: seq<nat>, zeros: seq<nat>)
    requires InBase(tail, 256) && |zeros| == |tail| && forall i :: 0 <= i < |zeros| ==> zeros[i] == 0
    ensures Value(head + zeros, 256) <= Value(head + tail, 256) < Value(head + zeros, 256) + Pow(256, |tail|)
  {
    ValueSplit(head, tail);
    ValueSplit(head, zeros);
    ZerosValue(zeros);
    ValueBound(tail, 256);
  }

  lemma CutParts(b: seq<byte>) returns (head: seq<byte>, tail: seq<byte>, zeros: seq<byte>)
    requires |b| > 3
    ensures b == head + tail && Cut(b) == head + zeros
    ensures |zeros| == |tail| == |b| - 3 && forall i :: 0 <= i < |zeros| ==> zeros[i] == 0
  {
    head, tail, zeros := b[..3], b[3..], ZeroBytes(|b| - 3);
  }

  /** What cutting loses. */
  lemma CutValue(b: seq<byte>)
    ensures Value(Cut(b), 256) <= Value(b, 256)
    ensures |b| <= 3 ==> Value(Cut(b), 256) == Value(b, 256)
    ensures |b| > 3 ==> Value(b, 256) < Value(Cut(b), 256) + Pow(256, |b| - 3)
  {
    if |b| > 3 {
      var head, tail, zeros := CutParts(b);
      TailLost(head, tail, zeros);
    }
  }

  /** `d` is at most `v`, and below it by less than the bytes after the third can hold. */
  predicate Near(v: nat, d: int) {
    && 0 <= d <= v
    && (|Mpi(v)| <= 3 ==> d == v)
    && (|Mpi(v)| > 3 ==> v < d + Pow(256, |Mpi(v)| - 3))
  }

  /** Decoding the compact form gives a number near the original, with the same compact
      form. */
  lemma CompactRounds(v: nat)
    requires |Mpi(v)| <= 255
    ensures var d := SetCompact(GetCompact(v));
            Near(v, d) && GetCompact(d) == GetCompact(v) < 0x1_0000_0000
  {
    var b := Mpi(v);
    BytesOfCompact(v);
    UnsignedValue(v);
    CutValue(b);
    MpiIs(v);
    MpiUnique(Cut(b));
  }

  lemma MpiLarge(b: seq<byte>)
    requires IsMpi(b) && |b| >= 2
    ensures Value(b, 256) >= 0x80 * Pow(256, |b| - 2)
  {
    ValueHead(b, 256);
    ValueHead(b[1..], 256);
    var p := Pow(256, |b| - 2);
    if b[0] == 0 {
      Times(0x80, b[1], p);
    } else {
      Times(1, b[0], 256 * p);
    }
  }

  lemma FromMpiBound(b: seq<byte>)
    ensures FromMpi(b) < Pow(256, |b|)
  {
    PowGrows(256, 0, |b|);
    ValueBound(b, 256);
  }

  /** The compact form has one byte for the size, and comes near the number if and only if
      that is enough. */
  lemma CompactComesNear(v: nat)
    ensures Near(v, SetCompact(GetCompact(v))) <==> |Mpi(v)| <= 255
  {
    var n := |Mpi(v)|;
    if n <= 255 {
      CompactRounds(v);
    } else {
      BytesOfCompact(v);
      FromMpiBound(CompactBytes(GetCompact(v)));
      MpiIs(v);
      UnsignedValue(v);
      MpiLarge(Mpi(v));
      PowGrows(256, n % 256, n - 3);
      assert Pow(256, n - 2) == 256 * Pow(256, n - 3);
    }
  }

  /** A negative number is treated as the positive one, but for the sign. */
  lemma CompactSign(v: int)
    requires v > 0 && |Mpi(v)| <= 255
    ensures |Mpi(-v)| == |Mpi(v)| && SetCompact(GetCompact(-v)) == -SetCompact(GetCompact(v))
  {
    var b := Mpi(v);
    assert Mpi(-v) == Negated(b);
    BytesOfCompact(v);
    BytesOfCompact(-v);
    CutNegated(b);
    FromPositive(Cut(b));
    FromNegated(Cut(b));
  }

  lemma CutNegated(b: seq<byte>)
    requires b != [] && b[0] < 0x80
    ensures Cut(b) != [] && Cut(b)[0] == b[0] && Cut(Negated(b)) == Negated(Cut(b))
  {
  }

  // --- the number object ---------------------------------------------------------------------

  class CBigNum {
    var value: int

    constructor ()
      ensures value == 0
    {
      value := 0;
    }

    method SetFromCompact(c: nat)
      requires c < 0x1_0000_0000
      modifies this
      ensures value == SetCompact(c)
    {
      var size := c / 0x100_0000;
      var vch := new byte[4 + size](_ => 0);
      vch[3] := size;
      if size >= 1 {
        vch[4] := (c / 0x1_0000) % 256;
      }
      if size >= 2 {
        vch[5] := (c / 0x100) % 256;
      }
      if size >= 3 {
        vch[6] := c % 256;
      }
      assert vch[4..] == CompactBytes(c);
      value := FromMpi(vch[4..]);
    }

    method ToCompact() returns (c: nat)
      ensures c == GetCompact(value)
    {
      var b := Mpi(value);
      c := (|b| % 256) * 0x100_0000;
      if |b| >= 1 {
        c := c + b[0] as nat * 0x1_0000;
      }
      if |b| >= 2 {
        c := c + b[1] as nat * 0x100;
      }
      if |b| >= 3 {
        c := c + b[2];
      }
    }
  }
}
