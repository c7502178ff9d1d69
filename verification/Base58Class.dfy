/** The conversion loops of Base58 and the address object. */
module Base58Class {
  import opened Common
  import opened Radix
  import opened BigNum
  import opened Base58

  // --- encoding ---------------------------------------------------------------------------

  lemma Regroup(a: nat, b: nat, c: nat)
    ensures a * (b * c) == (b * a) * c
  {
  }

  lemma Distribute(a: nat, b: nat, c: nat)
    ensures (a + b) * c == a * c + b * c
  {
  }

  lemma CarryArithmetic(p: nat, d: nat, carry: nat, ch: nat, after: nat, before: nat, q: nat, r: nat)
    requires after + carry * p == 256 * before + ch && carry + 256 * d == 58 * q + r
    ensures r * p + after + q * (58 * p) == 256 * (d * p + before) + ch
  {
    Distribute(carry, 256 * d, p);
    Distribute(58 * q, r, p);
    Regroup(q, 58, p);
    Regroup(d, 256, p);
    Regroup(256, d, p);
  }

  /** One digit of the inner loop: the buffer's tail times 256 plus the new byte, where
      the digit `d` and the carry make quotient `q` and remainder `r`. */
  lemma CarryStep(d: nat, carry: nat, ch: nat, q: nat, r: nat, before: seq<nat>, after: seq<nat>)
    requires |before| == |after| && carry + 256 * d == 58 * q + r
    requires Value(after, 58) + carry * Pow(58, |after|) == 256 * Value(before, 58) + ch
    ensures Value([r] + after, 58) + q * Pow(58, |after| + 1) == 256 * Value([d] + before, 58) + ch
  {
    var p := Pow(58, |after|);
    assert Pow(58, |after| + 1) == 58 * p;
    ValueHead([r] + after, 58);
    ValueHead([d] + before, 58);
    assert ([r] + after)[1..] == after && ([d] + before)[1..] == before;
    CarryArithmetic(p, d, carry, ch, Value(after, 58), Value(before, 58), q, r);
  }

  lemma NoRoom(value: nat, carry: nat, p: nat, total: nat)
    requires value + carry * p == total < p
    ensures carry == 0
  {
    if carry >= 1 {
      Times(1, carry, p);
    }
  }

  /** The carry is zero: the buffer has room for the number. */
  lemma CarryIsZero(digits: seq<nat>, carry: nat, bytes: seq<byte>, n: nat)
    requires InBase(digits, 58) && |bytes| <= n && |digits| == n * 138 / 100 + 1
    requires Value(digits, 58) + carry * Pow(58, |digits|) == Value(bytes, 256)
    ensures carry == 0
  {
    ValueBound(bytes, 256);
    PowGrows(256, |bytes|, n);
    BufferFits(n);
    NoRoom(Value(digits, 58), carry, Pow(58, |digits|), Value(bytes, 256));
  }

  /** The buffer from `it` on has been multiplied and `carry` is left over. */
  ghost predicate Partial(now: seq<nat>, before: seq<nat>, it: nat, carry: nat, ch: nat)
    requires it <= |now| == |before|
  {
    && now[..it] == before[..it] && InBase(now[it..], 58)
    && Value(now[it..], 58) + carry * Pow(58, |now| - it) == 256 * Value(before[it..], 58) + ch
  }

  lemma PartialNext(now: seq<nat>, before: seq<nat>, it: nat, carry: nat, ch: nat, q: nat, r: nat)
    requires 0 < it <= |now| == |before| && Partial(now, before, it, carry, ch)
    requires carry + 256 * before[it - 1] == 58 * q + r && r < 58
    ensures Partial(now[it - 1 := r], before, it - 1, q, ch)
  {
    var next := now[it - 1 := r];
    CarryStep(before[it - 1], carry, ch, q, r, before[it..], now[it..]);
    assert before[it - 1..] == [before[it - 1]] + before[it..];
    assert next[it - 1..] == [r] + now[it..];
  }

  /** Apply "b58 = b58 * 256 + ch". */
  method Multiply(b58: array<nat>, ch: byte, ghost n: nat, ghost bytes: seq<byte>)
    requires InBase(b58[..], 58) && Value(b58[..], 58) == Value(bytes, 256)
    requires |bytes| < n && b58.Length == n * 138 / 100 + 1
    modifies b58
    ensures InBase(b58[..], 58) && Value(b58[..], 58) == Value(bytes + [ch], 256)
  {
    ghost var before: seq<nat> := b58[..];
    var carry: nat := ch;
    var it: nat := b58.Length;
    PartialStart(before, ch);
    while it != 0
      invariant 0 <= it <= b58.Length == |before|
      invariant Partial(b58[..], before, it, carry, ch)
      decreases it
    {
      ghost var now: seq<nat> := b58[..];
      assert b58[it - 1] == now[..it][it - 1] == before[..it][it - 1];
      carry := carry + 256 * b58[it - 1];
      ghost var left: nat := carry - 256 * b58[it - 1];
      PartialNext(now, before, it, left, ch, carry / 58, carry % 58);
      it := it - 1;
      b58[it] := carry % 58;
      carry := carry / 58;
    }
    PartialEnd(b58[..], before, carry, ch, bytes, n);
    assert carry == 0;
  }

  lemma PartialStart(before: seq<nat>, ch: nat)
    ensures Partial(before, before, |before|, ch, ch)
  {
    assert before[|before|..] == [];
  }

  lemma PartialEnd(now: seq<nat>, before: seq<nat>, carry: nat, ch: byte, bytes: seq<byte>, n: nat)
    requires |now| == |before| == n * 138 / 100 + 1 && |bytes| < n
    requires Partial(now, before, 0, carry, ch) && Value(before, 58) == Value(bytes, 256)
    ensures carry == 0 && InBase(now, 58) && Value(now, 58) == Value(bytes + [ch], 256)
  {
    assert now[0..] == now && before[0..] == before;
    assert (bytes + [ch])[..|bytes|] == bytes;
    CarryIsZero(now, carry, bytes + [ch], n);
  }

  method EncodeBase58(b: seq<byte>) returns (str: string)
    ensures str == Encode(b)
  {
    var zeroes, pos := 0, 0;
    while pos != |b| && b[pos] == 0
      invariant 0 <= zeroes == pos <= |b|
      invariant LeadingZeros(b) == pos + LeadingZeros(b[pos..])
      decreases |b| - pos
    {
      pos := pos + 1;
      zeroes := zeroes + 1;
    }
    var d := ToBase58(b[zeroes..]);
    ValueAfterZeros(b);
    var it := SkipZeroDigits(d);
    StrippedIsDigits(d, 58);
    DigitsValue(Value(b, 256), 58);
    str := Translate(d[it..]);
    str := Ones(zeroes) + str;
  }

  /** The digit buffer after all bytes. */
  method ToBase58(b: seq<byte>) returns (d: seq<nat>)
    ensures InBase(d, 58) && Value(d, 58) == Value(b, 256)
  {
    var b58 := new nat[|b| * 138 / 100 + 1](_ => 0);
    AllZero(b58[..], 58);
    var pos := 0;
    while pos != |b|
      invariant pos <= |b|
      invariant InBase(b58[..], 58) && Value(b58[..], 58) == Value(b[..pos], 256)
      decreases |b| - pos
    {
      Multiply(b58, b[pos], |b|, b[..pos]);
      assert b[..pos] + [b[pos]] == b[..pos + 1];
      pos := pos + 1;
    }
    assert b[..pos] == b;
    d := b58[..];
  }

  method SkipZeroDigits(d: seq<nat>) returns (it: nat)
    ensures it <= |d| && d[it..] == Stripped(d)
  {
    it := 0;
    while it != |d| && d[it] == 0
      invariant it <= |d| && Stripped(d) == Stripped(d[it..])
      decreases |d| - it
    {
      it := it + 1;
    }
  }

  method Translate(d: seq<nat>) returns (str: string)
    requires InBase(d, 58)
    ensures str == Letters(d)
  {
    str := "";
    var it := 0;
    while it != |d|
      invariant it <= |d| && str == Letters(d[..it])
      decreases |d| - it
    {
      assert Letters(d[..it + 1]) == Letters(d[..it]) + [ALPHABET[d[it]]];
      str := str + [ALPHABET[d[it]]];
      it := it + 1;
    }
    assert d[..it] == d;
  }

  lemma {:induction false} AllZero(s: seq<nat>, base: nat)
    requires forall i :: 0 <= i < |s| ==> s[i] == 0
    ensures Value(s, base) == 0
  {
    if s != [] {
      AllZero(s[..|s| - 1], base);
    }
  }

  lemma ValueAfterZeros(b: seq<byte>)
    ensures Value(b[LeadingZeros(b)..], 256) == Value(b, 256)
  {
    ZerosStripped(b);
    StrippedSame(b, 256);
  }

  // --- decoding -----------------------------------------------------------------------------

  /** What a pointer into the text points at. */
  function At(s: string, p: nat): char { if p < |s| then s[p] else '\0' }

  lemma Rest(s: string, p: nat)
    requires p <= |s|
    ensures At(s, p) != '\0' ==> p < |s| && CString(s[p..]) == [s[p]] + CString(s[p + 1..])
    ensures At(s, p) == '\0' ==> CString(s[p..]) == []
  {
    if At(s, p) != '\0' {
      assert s[p..][1..] == s[p + 1..];
    }
  }

  method SkipBlanks(s: string, from: nat) returns (p: nat)
    requires from <= |s|
    ensures from <= p <= |s| && SkipSpaces(CString(s[from..])) == CString(s[p..])
    ensures SkipSpaces(CString(s[p..])) == CString(s[p..])
  {
    p := from;
    while At(s, p) != '\0' && IsSpace(At(s, p))
      invariant from <= p <= |s| && SkipSpaces(CString(s[from..])) == SkipSpaces(CString(s[p..]))
      decreases |s| - p
    {
      Rest(s, p);
      p := p + 1;
    }
    Rest(s, p);
  }

  /** The loop that counts leading zeros to restore. */
  method CountOnes(s: string, from: nat) returns (n: nat)
    requires from <= |s|
    ensures n == 0 <==> At(s, from) != '1'
  {
    n := 0;
    while At(s, from + n) == '1'
      invariant from + n <= |s| && (n > 0 ==> At(s, from) == '1')
      decreases |s| - from - n
    {
      n := n + 1;
    }
  }

  /** The loop over the characters of the number. */
  method ReadNumber(s: string, from: nat) returns (p: nat, bn: nat)
    requires from <= |s|
    ensures p <= |s|
    ensures var u := CString(s[from..]); CString(s[p..]) == u[Run(u)..] && bn == Value(Indices(u[..Run(u)]), 58)
  {
    ghost var u: string := CString(s[from..]);
    ghost var n: nat := 0;
    bn, p := 0, from;
    assert u[..0] == [] && u[0..] == u;
    while At(s, p) != '\0'
      invariant p <= |s| && n <= |u| && u[n..] == CString(s[p..])
      invariant Run(u) == n + Run(u[n..]) && bn == Value(Indices(u[..n]), 58)
      decreases |s| - p
    {
      Rest(s, p);
      var k := Index(s[p]);
      if k == 58 {
        return;
      }
      assert u[n] == s[p] && u[n..][1..] == u[n + 1..];
      assert Indices(u[..n + 1])[..n] == Indices(u[..n]);
      bn := bn * 58 + k;
      n := n + 1;
      p := p + 1;
    }
    Rest(s, p);
  }

  /** getvch without a sign byte, turned round. */
  method BigEndian(bn: nat) returns (b: seq<byte>)
    ensures b == Number(bn)
  {
    var tmp := GetVch(bn);
    WithoutSign(bn);
    if |tmp| >= 2 && tmp[|tmp| - 1] == 0 && tmp[|tmp| - 2] >= 0x80 {
      tmp := tmp[..|tmp| - 1];
    }
    b := Reversed(tmp);
  }

  method DecodeBase58(s: string) returns (r: Option<seq<byte>>)
    ensures r == Decode(s)
  {
    var psz := SkipBlanks(s, 0);
    assert s[0..] == s;
    ghost var t: string := CString(s[psz..]);
    while At(s, psz) == '1'
      invariant psz <= |s| && SkipOnes(t) == SkipOnes(CString(s[psz..]))
      decreases |s| - psz
    {
      Rest(s, psz);
      psz := psz + 1;
    }
    Rest(s, psz);
    ghost var u: string := CString(s[psz..]);
    assert SkipOnes(t) == u;
    var p, bn := ReadNumber(s, psz);
    if At(s, p) != '\0' {
      p := SkipBlanks(s, p);
      Rest(s, p);
      if At(s, p) != '\0' {
        return None;
      }
    } else {
      Rest(s, p);
    }
    var tmp := BigEndian(bn);
    var zeros := CountOnes(s, psz);
    var ret: seq<byte> := seq(zeros, _ => 0) + tmp;
    assert ret == tmp;
    r := Some(ret);
  }

  // --- the address object ---------------------------------------------------------------------

  /** CPayDaycoinAddress with its base CBase58Data. */
  class Address {
    var vchVersion: seq<byte>
    var vchData: seq<byte>

    constructor ()
      ensures vchVersion == [] && vchData == []
    {
      vchVersion, vchData := [], [];
    }

    /** Set, which fails for a destination that is not a key or script. */
    method Set(net: Net, dest: Destination) returns (ok: bool)
      modifies this
      ensures ok == !dest.NoDestination?
      ensures ok ==> (vchVersion, vchData) == Parts(net, dest)
      ensures !ok ==> vchVersion == old(vchVersion) && vchData == old(vchData)
    {
      match dest
      case KeyID(id) =>
        vchVersion, vchData := KeyPrefix(net), id;
        return true;
      case ScriptID(id) =>
        vchVersion, vchData := ScriptPrefix(net), id;
        return true;
      case NoDestination =>
        return false;
    }

    method ToString(sum: Checksum) returns (text: string)
      ensures text == EncodeCheck(sum, vchVersion + vchData)
    {
      var vch := vchVersion + vchData;
      text := EncodeBase58(vch + sum(vch));
    }

    static method DecodeBase58Check(sum: Checksum, text: string) returns (r: Option<seq<byte>>)
      ensures r == DecodeCheck(sum, text)
    {
      r := DecodeBase58(text);
      if r.None? || |r.value| < 4 {
        return None;
      }
      var n := |r.value| - 4;
      if r.value[n..] != sum(r.value[..n]) {
        return None;
      }
      r := Some(r.value[..n]);
    }

    method SetString(sum: Checksum, text: string, versionBytes: nat) returns (ok: bool)
      modifies this
      ensures var r := DecodeCheck(sum, text);
              && ok == (r.Some? && |r.value| >= versionBytes)
              && vchVersion == (if ok then r.value[..versionBytes] else [])
              && vchData == (if ok then r.value[versionBytes..] else [])
    {
      var r := DecodeBase58Check(sum, text);
      if r.None? || |r.value| < versionBytes {
        vchData := [];
        vchVersion := [];
        return false;
      }
      vchVersion := r.value[..versionBytes];
      vchData := r.value[versionBytes..];
      return true;
    }

    method Get(net: Net) returns (dest: Destination)
      ensures dest == DestinationOf(net, vchVersion, vchData)
    {
      var valid := |vchData| == 20 && (vchVersion == KeyPrefix(net) || vchVersion == ScriptPrefix(net));
      if !valid {
        return NoDestination;
      }
      if vchVersion == KeyPrefix(net) {
        return KeyID(vchData);
      } else {
        return ScriptID(vchData);
      }
    }
  }

  /** An address written by one object and read by another stands for the same key or
      script. */
  method SendAddress(sum: Checksum, net: Net, dest: Destination) returns (got: Destination)
    requires !dest.NoDestination? && |dest.id| == 20
    ensures got == dest
  {
    var a := new Address();
    var b := new Address();
    var done := a.Set(net, dest);
    var text := a.ToString(sum);
    AddressSurvives(sum, net, dest);
    assert text == AddressText(sum, net, dest);
    var ok := b.SetString(sum, text, 1);
    got := b.Get(net);
  }
}
