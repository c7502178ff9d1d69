/** Numbers written in a base, most significant digit first. */
module Radix {

  function Value(s: seq<nat>, base: nat): nat {
    if s == [] then 0 else Value(s[..|s| - 1], base) * base + s[|s| - 1]
  }

  function Pow(base: nat, n: nat): nat {
    if n == 0 then 1 else base * Pow(base, n - 1)
  }

  predicate InBase(s: seq<nat>, base: nat) {
    forall i :: 0 <= i < |s| ==> s[i] < base
  }

  lemma Times(a: int, b: int, c: nat)
    requires a <= b
    ensures a * c <= b * c
  {
  }

  lemma Multiples(base: nat, d: int)
    ensures d >= 1 ==> base * d >= base
    ensures d <= -1 ==> base * d <= 0 - base
  {
    if d >= 1 {
      Times(1, d, base);
    } else if d <= -1 {
      Times(d, -1, base);
    }
  }

  lemma QuotientUnique(q: nat, r: nat, base: nat)
    requires r < base
    ensures (q * base + r) / base == q && (q * base + r) % base == r
  {
    var v := q * base + r;
    var d: int := v / base - q;
    assert v == base * (v / base) + v % base;
    assert base * d == r - v % base;
    Multiples(base, d);
  }

  lemma Smaller(v: nat, base: nat)
    requires v > 0 && base >= 2
    ensures 0 <= v / base < v && v == (v / base) * base + v % base && v % base < base
  {
    var q, r := v / base, v % base;
    assert v == base * q + r && 0 <= r < base;
    if q < 0 {
      Multiples(base, q);
    }
    Times(2, base, if q >= 0 then q else 0);
  }

  /** The digits of a number, without leading zeros. */
  function Digits(v: nat, base: nat): seq<nat>
    requires base >= 2
  {
    if v == 0 then []
    else
      Smaller(v, base);
      Digits(v / base, base) + [v % base]
  }

  lemma {:induction false} DigitsValue(v: nat, base: nat)
    requires base >= 2
    ensures Value(Digits(v, base), base) == v && InBase(Digits(v, base), base)
    ensures v > 0 ==> Digits(v, base) != [] && Digits(v, base)[0] != 0
    decreases v
  {
    if v > 0 {
      Smaller(v, base);
      DigitsValue(v / base, base);
      var d := Digits(v / base, base);
      assert Digits(v, base)[..|d|] == d;
      if v / base == 0 {
        assert v == v % base;
      }
    }
  }

  function Stripped(s: seq<nat>): seq<nat> {
    if s != [] && s[0] == 0 then Stripped(s[1..]) else s
  }

  /** Without leading zeros there is one way to write a number. */
  lemma {:induction false} DigitsUnique(s: seq<nat>, base: nat)
    requires base >= 2 && InBase(s, base) && (s != [] ==> s[0] != 0)
    ensures Digits(Value(s, base), base) == s
  {
    if s != [] {
      var n := |s| - 1;
      var before, last := s[..n], s[n];
      DigitsUnique(before, base);
      QuotientUnique(Value(before, base), last, base);
      if before == [] {
        assert s == [last];
      } else {
        ValuePositive(before, base);
      }
      assert Value(before, base) * base + last > 0 by {
        if before != [] {
          Product(Value(before, base), base);
        }
      }
      assert s == before + [last];
    }
  }

  lemma Product(a: nat, b: nat)
    requires a > 0 && b > 0
    ensures a * b > 0
  {
  }

  lemma {:induction false} ValuePositive(s: seq<nat>, base: nat)
    requires s != [] && s[0] != 0 && base > 0
    ensures Value(s, base) > 0
  {
    if |s| > 1 {
      ValuePositive(s[..|s| - 1], base);
      Product(Value(s[..|s| - 1], base), base);
    }
  }

  /** A leading digit counts with the power of its place. */
  lemma {:induction false} ValueHead(s: seq<nat>, base: nat)
    requires s != []
    ensures Value(s, base) == s[0] * Pow(base, |s| - 1) + Value(s[1..], base)
  {
    var n := |s| - 1;
    if n == 0 {
      assert s[..0] == [] && s[1..] == [];
    } else {
      ValueHead(s[..n], base);
      assert s[..n][1..] == s[1..][..n - 1];
      assert s[1..][n - 1] == s[n];
      var h, p, w := s[0], Pow(base, n - 1), Value(s[..n][1..], base);
      assert (h * p + w) * base == h * (base * p) + w * base;
    }
  }

  lemma {:induction false} StrippedSame(s: seq<nat>, base: nat)
    ensures Value(Stripped(s), base) == Value(s, base)
    ensures InBase(s, base) ==> InBase(Stripped(s), base)
    ensures Stripped(s) != [] ==> Stripped(s)[0] != 0
  {
    if s != [] && s[0] == 0 {
      ValueHead(s, base);
      StrippedSame(s[1..], base);
    }
  }

  lemma StrippedIsDigits(s: seq<nat>, base: nat)
    requires base >= 2 && InBase(s, base)
    ensures Stripped(s) == Digits(Value(s, base), base)
  {
    StrippedSame(s, base);
    DigitsUnique(Stripped(s), base);
  }

  lemma {:induction false} ValueBound(s: seq<nat>, base: nat)
    requires InBase(s, base)
    ensures Value(s, base) < Pow(base, |s|)
  {
    if s != [] {
      var n := |s| - 1;
      ValueBound(s[..n], base);
      Times(Value(s[..n], base) + 1, Pow(base, n), base);
      assert (Value(s[..n], base) + 1) * base == Value(s[..n], base) * base + base;
      assert Pow(base, n) * base == Pow(base, |s|);
    }
  }

  lemma {:induction false} PowAdd(base: nat, a: nat, b: nat)
    ensures Pow(base, a + b) == Pow(base, a) * Pow(base, b)
  {
    if a > 0 {
      PowAdd(base, a - 1, b);
      assert base * (Pow(base, a - 1) * Pow(base, b)) == (base * Pow(base, a - 1)) * Pow(base, b);
    }
  }

  lemma {:induction false} PowGrows(base: nat, a: nat, b: nat)
    requires base >= 1 && a <= b
    ensures 1 <= Pow(base, a) <= Pow(base, b)
  {
    if a < b {
      PowGrows(base, a, b - 1);
      Times(1, base, Pow(base, b - 1));
    } else if a > 0 {
      PowGrows(base, a - 1, a - 1);
      Times(1, base, Pow(base, a - 1));
    }
  }
}
