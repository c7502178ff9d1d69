/** Which texts the Base58 encoding gives and which ones decoding reads. */
module Base58Outcomes {
  import opened Common
  import opened Radix
  import opened BigNum
  import opened Base58

  // --- encoding -----------------------------------------------------------------------------

  /** A '1' for each zero byte in front, then the digits of the number without zeros in
      front. */
  ghost predicate Writes(e: string, b: seq<byte>, z: nat) {
    && z <= |b| && z <= |e|
    && (forall i :: 0 <= i < z ==> b[i] == 0 && e[i] == '1')
    && (z < |b| ==> b[z] != 0) && (z < |e| ==> e[z] != '1')
    && (forall i :: 0 <= i < |e| ==> Index(e[i]) < 58)
    && Value(Indices(e[z..]), 58) == Value(b, 256)
  }

  lemma {:induction false} ZerosInFront(b: seq<byte>)
    ensures var z := LeadingZeros(b);
            (forall i :: 0 <= i < z ==> b[i] == 0) && (z < |b| ==> b[z] != 0)
  {
    if b != [] && b[0] == 0 {
      ZerosInFront(b[1..]);
      var z := LeadingZeros(b);
      forall i | 0 <= i < z ensures b[i] == 0 {
        if i > 0 {
          assert b[i] == b[1..][i - 1];
        }
      }
    }
  }

  lemma EncodeWrites(b: seq<byte>)
    ensures Writes(Encode(b), b, LeadingZeros(b))
  {
    var z, v := LeadingZeros(b), Value(b, 256);
    var d := Digits(v, 58);
    ZerosInFront(b);
    DigitsValue(v, 58);
    LettersRead(d);
    var e := Encode(b);
    assert e[z..] == Letters(d);
    LetterIndex(0);
    NoZeroDigit(v);
    forall i | 0 <= i < |e| ensures Index(e[i]) < 58 {
      if i < z {
        assert e[i] == '1' == ALPHABET[0];
      } else {
        assert e[i] == ALPHABET[d[i - z]];
        LetterIndex(d[i - z]);
      }
    }
    if z < |e| {
      assert e[z] == ALPHABET[d[0]];
      LetterIndex(d[0]);
    }
  }

  lemma NoZeroDigit(v: nat)
    ensures var d := Digits(v, 58); d != [] ==> d[0] != 0
  {
    DigitsValue(v, 58);
  }

  // --- decoding -----------------------------------------------------------------------------

  predicate Spaces(s: string) { forall i :: 0 <= i < |s| ==> IsSpace(s[i]) }

  predicate InAlphabet(s: string) { forall i :: 0 <= i < |s| ==> Index(s[i]) < 58 }

  /** Spaces, '1's, characters of the alphabet of which the first is no '1', and spaces. */
  ghost predicate Form(s: string, pre: string, k: nat, mid: string, post: string) {
    && s == pre + Ones(k) + mid + post
    && Spaces(pre) && Spaces(post) && InAlphabet(mid) && (mid != [] ==> mid[0] != '1')
  }

  lemma SpaceOutside(c: char)
    requires IsSpace(c)
    ensures Index(c) == 58 && c != '1'
  {
    if Index(c) < 58 {
      IndexIs(c, 0);
      LetterIndex(Index(c));
      assert false;
    }
    LetterIndex(0);
  }

  lemma {:induction false} SpacesSkipped(pre: string, t: string)
    requires Spaces(pre) && (t != [] ==> !IsSpace(t[0]))
    ensures SkipSpaces(pre + t) == t
  {
    if pre != [] {
      assert (pre + t)[1..] == pre[1..] + t;
      SpacesSkipped(pre[1..], t);
    } else {
      assert pre + t == t;
    }
  }

  lemma {:induction false} SpacesSplit(s: string) returns (pre: string)
    ensures s == pre + SkipSpaces(s) && Spaces(pre) && (SkipSpaces(s) != [] ==> !IsSpace(SkipSpaces(s)[0]))
  {
    if s != [] && IsSpace(s[0]) {
      pre := SpacesSplit(s[1..]);
      pre := [s[0]] + pre;
      assert s == [s[0]] + s[1..];
    } else {
      pre := [];
    }
  }

  lemma {:induction false} OnesSplit(s: string) returns (k: nat)
    ensures s == Ones(k) + SkipOnes(s) && (SkipOnes(s) != [] ==> SkipOnes(s)[0] != '1')
  {
    if s != [] && s[0] == '1' {
      k := OnesSplit(s[1..]);
      k := k + 1;
      assert s == [s[0]] + s[1..];
      assert Ones(k) == ['1'] + Ones(k - 1);
    } else {
      k := 0;
    }
  }

  lemma {:induction false} RunSplit(s: string)
    ensures InAlphabet(s[..Run(s)]) && (Run(s) < |s| ==> Index(s[Run(s)]) == 58)
  {
    if s != [] && Index(s[0]) < 58 {
      RunSplit(s[1..]);
      var n := Run(s);
      forall i | 0 <= i < n ensures Index(s[..n][i]) < 58 {
        if i > 0 {
          assert s[..n][i] == s[1..][..n - 1][i - 1];
        }
      }
    }
  }

  lemma {:induction false} RunStops(mid: string, post: string)
    requires InAlphabet(mid) && (post != [] ==> Index(post[0]) == 58)
    ensures Run(mid + post) == |mid|
  {
    if mid != [] {
      assert (mid + post)[1..] == mid[1..] + post;
      RunStops(mid[1..], post);
    } else {
      assert mid + post == post;
    }
  }

  /** A text of this form is read as the number that its digits denote. */
  lemma FormDecodes(s: string, pre: string, k: nat, mid: string, post: string)
    requires Form(CString(s), pre, k, mid, post)
    ensures Decode(s) == Some(Number(Value(Indices(mid), 58)))
  {
    if k == 0 && mid == [] {
      assert CString(s) == (pre + post) + [];
      SpacesSkipped(pre + post, []);
      assert Indices([]) == [];
    } else {
      var t := mid + post;
      FirstOfForm(mid, post);
      assert CString(s) == pre + (Ones(k) + t);
      LetterIndex(0);
      SpacesSkipped(pre, Ones(k) + t);
      OnesSkipped(k, t);
      RestDecodes(mid, post);
    }
  }

  lemma RestDecodes(mid: string, post: string)
    requires Spaces(post) && InAlphabet(mid)
    ensures var t := mid + post; Run(t) == |mid| && t[..|mid|] == mid && SkipSpaces(t[|mid|..]) == []
  {
    if post != [] {
      SpaceOutside(post[0]);
    }
    RunStops(mid, post);
    assert (mid + post)[|mid|..] == post + [];
    SpacesSkipped(post, []);
  }

  lemma FirstOfForm(mid: string, post: string)
    requires Spaces(post) && InAlphabet(mid) && (mid != [] ==> mid[0] != '1')
    ensures mid + post != [] ==> (mid + post)[0] != '1'
    ensures mid != [] ==> !IsSpace(mid[0])
  {
    if mid == [] && post != [] {
      SpaceOutside(post[0]);
    }
    if mid != [] {
      LetterNoSpace(mid[0]);
    }
  }

  lemma LetterNoSpace(c: char)
    requires Index(c) < 58
    ensures !IsSpace(c)
  {
    IndexIs(c, 0);
    LetterIndex(Index(c));
  }

  /** Any other text is refused. */
  lemma DecodedHasForm(s: string) returns (pre: string, k: nat, mid: string, post: string)
    requires Decode(s).Some?
    ensures Form(CString(s), pre, k, mid, post)
  {
    var u := SkipSpaces(CString(s));
    var t := SkipOnes(u);
    var n := Run(t);
    pre := SpacesSplit(CString(s));
    k := OnesSplit(u);
    RunSplit(t);
    mid := t[..n];
    post := SpacesSplit(t[n..]);
    assert t[n..] == post + [] == post;
    RunFirst(t);
    Assembled(CString(s), pre, u, k, t, n);
  }

  lemma RunFirst(t: string)
    requires t != [] ==> t[0] != '1'
    ensures t[..Run(t)] != [] ==> t[..Run(t)][0] != '1'
  {
  }

  lemma Assembled(s: string, pre: string, u: string, k: nat, t: string, n: nat)
    requires s == pre + u && u == Ones(k) + t && n <= |t|
    ensures s == pre + Ones(k) + t[..n] + t[n..]
  {
    assert t == t[..n] + t[n..];
  }

  ghost predicate Readable(s: string) {
    exists pre: string, k: nat, mid: string, post: string :: Form(s, pre, k, mid, post)
  }

  /** Decoding reads exactly the texts of that form. */
  lemma DecodesExactly(s: string)
    ensures Decode(s).Some? <==> Readable(CString(s))
  {
    if Decode(s).Some? {
      var pre, k, mid, post := DecodedHasForm(s);
      assert Form(CString(s), pre, k, mid, post);
    }
    if Readable(CString(s)) {
      var pre: string, k: nat, mid: string, post: string :| Form(CString(s), pre, k, mid, post);
      FormDecodes(s, pre, k, mid, post);
    }
  }

  // --- checksums and addresses ---------------------------------------------------------------

  /** With a checksum exactly the texts are read that decode to the bytes and their checksum. */
  lemma CheckedExactly(sum: Checksum, s: string, b: seq<byte>)
    ensures DecodeCheck(sum, s) == Some(b) <==> Decode(s) == Some(b + sum(b))
  {
    match Decode(s)
    case None =>
    case Some(c) =>
      if c == b + sum(b) {
        assert c[..|c| - 4] == b && c[|c| - 4..] == sum(b);
      }
      if |c| >= 4 {
        assert c == c[..|c| - 4] + c[|c| - 4..];
      }
  }

  /** A key address is 20 bytes after 50 on the main net and 73 on the test net, a script
      address after 85 and 196; nothing else is an address. */
  lemma AddressExactly(sum: Checksum, net: Net, text: string, id: seq<byte>)
    ensures ReadAddress(sum, net, text) == KeyID(id) <==>
              |id| == 20 && DecodeCheck(sum, text) == Some([if net.Main? then 50 else 73] + id)
    ensures ReadAddress(sum, net, text) == ScriptID(id) <==>
              |id| == 20 && DecodeCheck(sum, text) == Some([if net.Main? then 85 else 196] + id)
  {
    var r := DecodeCheck(sum, text);
    if r.Some? && |r.value| >= 1 {
      var b := r.value;
      PrefixAndId(b, if net.Main? then 50 else 73, id);
      PrefixAndId(b, if net.Main? then 85 else 196, id);
      DestinationExactly(net, b[..1], b[1..], id);
    }
  }

  lemma DestinationExactly(net: Net, version: seq<byte>, data: seq<byte>, id: seq<byte>)
    ensures DestinationOf(net, version, data) == KeyID(id) <==> |data| == 20 && version == [if net.Main? then 50 else 73] && data == id
    ensures DestinationOf(net, version, data) == ScriptID(id) <==> |data| == 20 && version == [if net.Main? then 85 else 196] && data == id
  {
  }

  lemma PrefixAndId(b: seq<byte>, prefix: byte, id: seq<byte>)
    requires |b| >= 1
    ensures b == [prefix] + id <==> b[..1] == [prefix] && b[1..] == id
  {
    assert b == [b[0]] + b[1..] && b[..1] == [b[0]];
  }
}
