/** Base58, with and without checksum, and the addresses written in it. */
module Base58 {
  import opened Common
  import opened Radix
  import opened BigNum

  /** All digits and letters but 0, I, O and l, in ascending order. */
  const ALPHABET: string := "123456789" + "ABCDEFGH" + "JKLMN" + "PQRSTUVWXYZ" + "abcdefghijk" + "mnopqrstuvwxyz"

  // --- what the two directions compute ------------------------------------------------

  /** The place of a character in the alphabet, or 58. */
  function IndexFrom(c: char, i: nat): (k: nat)
    requires i <= 58
    ensures i <= k <= 58
    decreases 58 - i
  {
    if i == 58 then 58 else if ALPHABET[i] == c then i else IndexFrom(c, i + 1)
  }

  function Index(c: char): (k: nat)
    ensures k <= 58
  {
    IndexFrom(c, 0)
  }

  function LeadingZeros(b: seq<byte>): (z: nat)
    ensures z <= |b|
  {
    if b != [] && b[0] == 0 then 1 + LeadingZeros(b[1..]) else 0
  }

  function Letters(d: seq<nat>): string
    requires InBase(d, 58)
  {
    seq(|d|, i requires 0 <= i < |d| => ALPHABET[d[i]])
  }

  function Ones(n: nat): string { seq(n, _ => '1') }

  /** EncodeBase58: a '1' for each leading zero byte, then the number in base 58. */
  function Encode(b: seq<byte>): string {
    var v := Value(b, 256);
    DigitsValue(v, 58);
    Ones(LeadingZeros(b)) + Letters(Digits(v, 58))
  }

  predicate IsSpace(c: char) { c == ' ' || c == '\t' || c == '\n' || c == '\U{0B}' || c == '\U{0C}' || c == '\r' }

  /** The characters before the terminating null. */
  function CString(s: string): string {
    if s == [] || s[0] == '\0' then [] else [s[0]] + CString(s[1..])
  }

  function SkipSpaces(s: string): string {
    if s != [] && IsSpace(s[0]) then SkipSpaces(s[1..]) else s
  }

  function SkipOnes(s: string): string {
    if s != [] && s[0] == '1' then SkipOnes(s[1..]) else s
  }

  /** The number of characters of the alphabet that `s` begins with. */
  function Run(s: string): (n: nat)
    ensures n <= |s|
  {
    if s != [] && Index(s[0]) < 58 then 1 + Run(s[1..]) else 0
  }

  function Indices(s: string): (d: seq<nat>)
    ensures |d| == |s|
  {
    seq(|s|, i requires 0 <= i < |s| => Index(s[i]))
  }

  /** DecodeBase58: spaces around are skipped and so are leading '1's, which are not
      restored; what is left is read as a number. */
  function Decode(s: string): Option<seq<byte>> {
    var t := SkipOnes(SkipSpaces(CString(s)));
    var n := Run(t);
    if SkipSpaces(t[n..]) != [] then None else Some(Number(Value(Indices(t[..n]), 58)))
  }

  // --- the alphabet -------------------------------------------------------------------

  function CharAt(from: char, k: nat): char
    requires from < 'z' && from as int + k <= 'z' as int
  {
    (from as int + k) as char
  }

  function Letter(k: nat): char
    requires k < 58
  {
    if k < 9 then CharAt('1', k)
    else if k < 17 then CharAt('A', k - 9)
    else if k < 22 then CharAt('J', k - 17)
    else if k < 33 then CharAt('P', k - 22)
    else if k < 44 then CharAt('a', k - 33)
    else CharAt('m', k - 44)
  }

  lemma AlphabetIs(k: nat)
    requires k < 58
    ensures |ALPHABET| == 58 && ALPHABET[k] == Letter(k)
  {
    if k < 9 {
      assert "123456789"[k] == Letter(k);
    } else if k < 17 {
      assert "ABCDEFGH"[k - 9] == Letter(k);
    } else if k < 22 {
      assert "JKLMN"[k - 17] == Letter(k);
    } else if k < 33 {
      assert "PQRSTUVWXYZ"[k - 22] == Letter(k);
    } else if k < 44 {
      assert "abcdefghijk"[k - 33] == Letter(k);
    } else {
      assert "mnopqrstuvwxyz"[k - 44] == Letter(k);
    }
  }

  lemma AlphabetDiffers(i: nat, j: nat)
    requires i < 58 && j < 58
    ensures |ALPHABET| == 58 && (ALPHABET[i] == ALPHABET[j] ==> i == j)
    ensures !IsSpace(ALPHABET[i]) && ALPHABET[i] != '\0' && (ALPHABET[i] == '1' <==> i == 0)
  {
    AlphabetIs(i);
    AlphabetIs(j);
  }

  lemma {:induction false} IndexFromIs(c: char, i: nat, k: nat)
    requires i <= k < 58 && ALPHABET[k] == c
    ensures IndexFrom(c, i) == k
    decreases k - i
  {
    AlphabetDiffers(i, k);
    if i < k {
      IndexFromIs(c, i + 1, k);
    }
  }

  lemma LetterIndex(k: nat)
    requires k < 58
    ensures Index(ALPHABET[k]) == k && !IsSpace(ALPHABET[k]) && ALPHABET[k] != '\0' && (ALPHABET[k] == '1' <==> k == 0)
  {
    AlphabetDiffers(k, k);
    IndexFromIs(ALPHABET[k], 0, k);
  }

  lemma {:induction false} IndexIs(c: char, i: nat)
    requires i <= 58
    ensures IndexFrom(c, i) < 58 ==> ALPHABET[IndexFrom(c, i)] == c
    decreases 58 - i
  {
    if i < 58 && ALPHABET[i] != c {
      IndexIs(c, i + 1);
    }
  }

  // --- the buffer is large enough -------------------------------------------------------

  /** 58^11 is more than 256^8, and 138 n / 100 grows by at least 11 every 8 bytes. */
  lemma {:induction false} BufferFits(n: nat)
    ensures Pow(256, n) <= Pow(58, n * 138 / 100 + 1)
  {
    if n < 8 {
      SmallBuffers(n);
    } else {
      BufferFits(n - 8);
      var m := (n - 8) * 138 / 100 + 1;
      PowAdd(256, n - 8, 8);
      PowAdd(58, m, 11);
      EightBytes();
      Times(Pow(256, n - 8), Pow(58, m), Pow(256, 8));
      Times(Pow(256, 8), Pow(58, 11), Pow(58, m));
      PowGrows(58, m + 11, n * 138 / 100 + 1);
    }
  }

  lemma EightBytes()
    ensures Pow(256, 8) == 0x1_0000_0000_0000_0000 && Pow(58, 11) == 24986644000165537792 && Pow(256, 8) <= Pow(58, 11)
  {
    assert Pow(256, 2) == 65536;
    PowAdd(256, 2, 2);
    PowAdd(256, 4, 4);
    assert Pow(58, 2) == 3364 && Pow(58, 3) == 195112;
    PowAdd(58, 3, 2);
    PowAdd(58, 5, 3);
    PowAdd(58, 8, 3);
  }

  lemma SmallBuffers(n: nat)
    requires n < 8
    ensures Pow(256, n) <= Pow(58, n * 138 / 100 + 1)
  {
    assert Pow(256, 0) == 1 && Pow(256, 1) == 256 && Pow(256, 2) == 65536;
    PowAdd(256, 2, 1);
    PowAdd(256, 2, 2);
    PowAdd(256, 4, 1);
    PowAdd(256, 4, 2);
    PowAdd(256, 4, 3);
    assert Pow(58, 1) == 58 && Pow(58, 2) == 3364 && Pow(58, 3) == 195112;
    PowAdd(58, 3, 2);
    PowAdd(58, 3, 3);
    PowAdd(58, 5, 2);
    PowAdd(58, 6, 3);
    PowAdd(58, 7, 3);
  }

  // --- round trips ----------------------------------------------------------------------

  lemma {:induction false} CStringWhole(s: string)
    requires forall i :: 0 <= i < |s| ==> s[i] != '\0'
    ensures CString(s) == s
  {
    if s != [] {
      CStringWhole(s[1..]);
    }
  }

  lemma {:induction false} OnesSkipped(n: nat, t: string)
    requires t == [] || t[0] != '1'
    ensures SkipOnes(Ones(n) + t) == t
  {
    var s := Ones(n) + t;
    if n == 0 {
      assert s == t;
    } else {
      assert s[1..] == Ones(n - 1) + t;
      OnesSkipped(n - 1, t);
    }
  }

  lemma {:induction false} LettersRead(d: seq<nat>)
    requires InBase(d, 58)
    ensures Run(Letters(d)) == |d| && Indices(Letters(d)) == d
  {
    if d != [] {
      LetterIndex(d[0]);
      LettersRead(d[1..]);
      assert Letters(d)[1..] == Letters(d[1..]);
      forall i | 0 <= i < |d| ensures Index(Letters(d)[i]) == d[i] {
        LetterIndex(d[i]);
      }
    }
  }

  lemma {:induction false} ZerosStripped(b: seq<byte>)
    ensures Stripped(b) == b[LeadingZeros(b)..]
    ensures LeadingZeros(b) == 0 <==> b == [] || b[0] != 0
  {
    if b != [] && b[0] == 0 {
      ZerosStripped(b[1..]);
    }
  }

  lemma TextPlain(z: nat, d: seq<nat>)
    requires InBase(d, 58)
    ensures CString(Ones(z) + Letters(d)) == Ones(z) + Letters(d) == SkipSpaces(Ones(z) + Letters(d))
  {
    var s := Ones(z) + Letters(d);
    forall i | 0 <= i < |s| ensures s[i] != '\0' && !IsSpace(s[i]) {
      if i >= z {
        LetterIndex(d[i - z]);
      }
    }
    CStringWhole(s);
  }

  lemma DecodeText(z: nat, d: seq<nat>)
    requires InBase(d, 58) && (d != [] ==> d[0] != 0)
    ensures Decode(Ones(z) + Letters(d)) == Some(Number(Value(d, 58)))
  {
    TextPlain(z, d);
    if d != [] {
      LetterIndex(d[0]);
    }
    var t: string := Letters(d);
    OnesSkipped(z, t);
    LettersRead(d);
    assert t[..|t|] == t && t[|t|..] == [];
  }

  lemma NumberStripped(b: seq<byte>)
    ensures Number(Value(b, 256)) == b[LeadingZeros(b)..]
  {
    StrippedIsDigits(b, 256);
    ZerosStripped(b);
  }

  lemma TextDecodes(z: nat, v: nat, d: seq<nat>)
    requires d == Digits(v, 58)
    ensures InBase(d, 58) && Decode(Ones(z) + Letters(d)) == Some(Number(v))
  {
    DigitsValue(v, 58);
    DecodeText(z, d);
  }

  /** Decoding an encoding gives the bytes without their leading zeros. */
  lemma DecodeEncode(b: seq<byte>)
    ensures Decode(Encode(b)) == Some(b[LeadingZeros(b)..])
  {
    var v := Value(b, 256);
    TextDecodes(LeadingZeros(b), v, Digits(v, 58));
    NumberStripped(b);
  }

  /** The round trip holds exactly for bytes that do not begin with a zero. */
  lemma RoundTrip(b: seq<byte>)
    ensures Decode(Encode(b)) == Some(b) <==> b == [] || b[0] != 0
  {
    DecodeEncode(b);
    ZerosStripped(b);
    if LeadingZeros(b) > 0 {
      assert |b[LeadingZeros(b)..]| < |b|;
    }
  }

  /** A text in the alphabet that does not begin with a '1' is what its bytes encode to. */
  lemma EncodeDecode(s: string)
    requires forall i :: 0 <= i < |s| ==> Index(s[i]) < 58
    requires s == [] || s[0] != '1'
    ensures Decode(s).Some? && Encode(Decode(s).value) == s
  {
    forall i | 0 <= i < |s| ensures ALPHABET[Index(s[i])] == s[i] && s[i] != '\0' && !IsSpace(s[i]) {
      IndexIs(s[i], 0);
      LetterIndex(Index(s[i]));
    }
    CStringWhole(s);
    assert SkipSpaces(s) == s && SkipOnes(s) == s;
    RunWhole(s);
    assert s[..|s|] == s && s[|s|..] == [];
    var d := Indices(s);
    var v := Value(d, 58);
    DigitsValue(v, 256);
    var b := Number(v);
    assert b == Digits(v, 256);
    ZerosStripped(b);
    if s != [] {
      LetterIndex(Index(s[0]));
    }
    DigitsUnique(d, 58);
    assert Letters(d) == s;
    assert Ones(0) + Letters(d) == Letters(d);
  }

  lemma {:induction false} RunWhole(s: string)
    requires forall i :: 0 <= i < |s| ==> Index(s[i]) < 58
    ensures Run(s) == |s|
  {
    if s != [] {
      RunWhole(s[1..]);
    }
  }

  // --- with a checksum -------------------------------------------------------------------

  /** The first four bytes of the hash, for any hash function. */
  type Checksum = f: seq<byte> -> seq<byte> | forall b :: |f(b)| == 4 witness (b: seq<byte>) => [0, 0, 0, 0]

  function EncodeCheck(sum: Checksum, b: seq<byte>): string {
    Encode(b + sum(b))
  }

  function DecodeCheck(sum: Checksum, s: string): Option<seq<byte>> {
    match Decode(s)
    case None => None
    case Some(b) =>
      if |b| < 4 then None
      else
        var n := |b| - 4;
        if b[n..] == sum(b[..n]) then Some(b[..n]) else None
  }

  /** The round trip with a checksum holds exactly if the bytes, followed by their
      checksum, do not begin with a zero. */
  lemma RoundTripCheck(sum: Checksum, b: seq<byte>)
    ensures DecodeCheck(sum, EncodeCheck(sum, b)) == Some(b) <==> (b + sum(b))[0] != 0
  {
    var c := b + sum(b);
    DecodeEncode(c);
    ZerosStripped(c);
    if LeadingZeros(c) == 0 {
      assert c[0..] == c && c[..|b|] == b && c[|b|..] == sum(b);
    } else {
      assert |c[LeadingZeros(c)..]| < |c|;
    }
  }

  // --- addresses ---------------------------------------------------------------------------

  datatype Net = Main | Test

  /** The configured prefixes of key and script addresses. */
  function KeyPrefix(net: Net): seq<byte> { if net.Main? then [50] else [73] }

  function ScriptPrefix(net: Net): seq<byte> { if net.Main? then [85] else [196] }

  datatype Destination = NoDestination | KeyID(id: seq<byte>) | ScriptID(id: seq<byte>)

  /** What an address object holds for a destination. */
  function Parts(net: Net, dest: Destination): (seq<byte>, seq<byte>)
    requires !dest.NoDestination?
  {
    match dest
    case KeyID(id) => (KeyPrefix(net), id)
    case ScriptID(id) => (ScriptPrefix(net), id)
  }

  function DestinationOf(net: Net, version: seq<byte>, data: seq<byte>): Destination {
    if |data| != 20 then NoDestination
    else if version == KeyPrefix(net) then KeyID(data)
    else if version == ScriptPrefix(net) then ScriptID(data)
    else NoDestination
  }

  function AddressText(sum: Checksum, net: Net, dest: Destination): string
    requires !dest.NoDestination?
  {
    EncodeCheck(sum, Parts(net, dest).0 + Parts(net, dest).1)
  }

  /** The destination an address text stands for. */
  function ReadAddress(sum: Checksum, net: Net, text: string): Destination {
    match DecodeCheck(sum, text)
    case None => NoDestination
    case Some(b) => if |b| < 1 then NoDestination else DestinationOf(net, b[..1], b[1..])
  }

  /** Every address survives being written and read, whatever the hash function. */
  lemma AddressSurvives(sum: Checksum, net: Net, dest: Destination)
    requires !dest.NoDestination? && |dest.id| == 20
    ensures ReadAddress(sum, net, AddressText(sum, net, dest)) == dest
  {
    var (version, data) := Parts(net, dest);
    var b := version + data;
    RoundTripCheck(sum, b);
    assert (b + sum(b))[0] == version[0];
    assert b[..1] == version && b[1..] == data;
  }

  /** Hence different destinations have different addresses. */
  lemma AddressesDiffer(sum: Checksum, net: Net, a: Destination, b: Destination)
    requires !a.NoDestination? && |a.id| == 20 && !b.NoDestination? && |b.id| == 20
    ensures AddressText(sum, net, a) == AddressText(sum, net, b) <==> a == b
  {
    AddressSurvives(sum, net, a);
    AddressSurvives(sum, net, b);
  }
}
