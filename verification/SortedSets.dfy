/** Ascending enumeration of finite sets of naturals: the order in which the
    original's ordered containers (std::set, std::map) are walked. */
module SortedSets {

  predicate Ascends(q: seq<nat>) {
    forall i, j :: 0 <= i < j < |q| ==> q[i] < q[j]
  }

  lemma {:induction false} MinExists(s: set<nat>)
    requires s != {}
    ensures exists m :: m in s && forall x :: x in s ==> m <= x
  {
    var y :| y in s;
    var rest := s - {y};
    if rest == {} {
      assert s == {y};
    } else {
      MinExists(rest);
      var k :| k in rest && forall x :: x in rest ==> k <= x;
      var m := if k < y then k else y;
      assert s == rest + {y};
      assert m in s && forall x :: x in s ==> m <= x;
    }
  }

  function Min(s: set<nat>): (m: nat)
    requires s != {}
    ensures m in s && forall x :: x in s ==> m <= x
  {
    MinExists(s);
    var m :| m in s && forall x :: x in s ==> m <= x;
    m
  }

  /** The elements of `s` from the smallest to the largest, each once. */
  function Ascending(s: set<nat>): (q: seq<nat>) {
    if s == {} then []
    else
      var m := Min(s);
      [m] + Ascending(s - {m})
  }

  lemma {:induction false} AscendingEnumerates(s: set<nat>)
    ensures Ascends(Ascending(s))
    ensures forall x :: x in Ascending(s) <==> x in s
    ensures |Ascending(s)| == |s|
  {
    if s != {} {
      var m := Min(s);
      var q := Ascending(s - {m});
      AscendingEnumerates(s - {m});
      forall j | 0 <= j < |q| ensures m < q[j] {
        assert q[j] in q;
      }
      assert Ascending(s) == [m] + q;
    }
  }

  /** A strictly ascending enumeration is determined by the set it enumerates. */
  lemma {:induction false} AscendingUnique(p: seq<nat>, q: seq<nat>)
    requires Ascends(p) && Ascends(q)
    requires forall x :: x in p <==> x in q
    ensures p == q
  {
    assert q != [] ==> q[0] in p;
    if p != [] {
      assert p[0] in q && q[0] in p;
      assert p[0] == q[0];
      forall x ensures x in p[1..] <==> x in q[1..] {
        assert x in p[1..] ==> x in p && x != p[0];
        assert x in q[1..] ==> x in q && x != q[0];
      }
      AscendingUnique(p[1..], q[1..]);
      assert p == [p[0]] + p[1..] && q == [q[0]] + q[1..];
    }
  }

  // --- sizes -----------------------------------------------------------------

  lemma SubsetSmaller(a: set<nat>, b: set<nat>)
    requires a <= b
    ensures |a| <= |b|
  {
    assert b == a + (b - a);
  }

  ghost function Union(bs: seq<set<nat>>): set<nat> {
    if bs == [] then {} else Union(bs[..|bs| - 1]) + bs[|bs| - 1]
  }

  lemma {:induction false} UnionBound(bs: seq<set<nat>>, cap: nat)
    requires forall k :: 0 <= k < |bs| ==> |bs[k]| <= cap
    ensures |Union(bs)| <= |bs| * cap
  {
    if bs != [] {
      var front, last := bs[..|bs| - 1], bs[|bs| - 1];
      UnionBound(front, cap);
      UnionSize(Union(front), last);
      assert |bs| * cap == |front| * cap + cap;
    }
  }

  lemma {:induction false} InUnion(bs: seq<set<nat>>, k: nat, x: nat)
    requires k < |bs| && x in bs[k]
    ensures x in Union(bs)
  {
    if k < |bs| - 1 {
      InUnion(bs[..|bs| - 1], k, x);
    }
  }

  lemma UnionSize(a: set<nat>, b: set<nat>)
    ensures |a + b| <= |a| + |b|
  {
    assert a + b == a + (b - a);
    assert b == (b - a) + (b * a);
  }

  ghost function Elements(q: seq<nat>): set<nat> { set x | x in q }

  lemma {:induction false} ElementsSize(q: seq<nat>)
    ensures |Elements(q)| <= |q|
  {
    if q == [] {
      assert Elements(q) == {};
    } else {
      ElementsSize(q[1..]);
      assert q == [q[0]] + q[1..];
      assert Elements(q) == {q[0]} + Elements(q[1..]);
      UnionSize({q[0]}, Elements(q[1..]));
    }
  }
}
