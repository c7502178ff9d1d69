/** The map that keeps the entries with the highest values, and its index by value. */
module LimitedMap {

  /** An element of the multimap `rmap`; equal values stand in the order of insertion. */
  datatype Entry<K> = Entry(value: int, key: K)

  ghost predicate InOrder<K>(r: seq<Entry<K>>) {
    forall i, j :: 0 <= i < j < |r| ==> r[i].value <= r[j].value
  }

  ghost predicate KeysDiffer<K>(r: seq<Entry<K>>) {
    forall i, j :: 0 <= i < j < |r| ==> r[i].key != r[j].key
  }

  ghost predicate Listed<K(!new)>(r: seq<Entry<K>>, m: map<K, int>) {
    && (forall i :: 0 <= i < |r| ==> r[i].key in m && m[r[i].key] == r[i].value)
    && (forall k :: k in m ==> Entry(m[k], k) in r)
  }

  /** `r` lists the entries of `m`, each once, by value. */
  ghost predicate Indexes<K(!new)>(r: seq<Entry<K>>, m: map<K, int>) {
    InOrder(r) && KeysDiffer(r) && Listed(r, m)
  }

  /** The first place whose value is at least `v`, and the first whose value is more. */
  function LowerBound<K>(r: seq<Entry<K>>, v: int): (i: nat)
    ensures i <= |r|
  {
    if r == [] || r[0].value >= v then 0 else 1 + LowerBound(r[1..], v)
  }

  function UpperBound<K>(r: seq<Entry<K>>, v: int): (i: nat)
    ensures i <= |r|
  {
    if r == [] || r[0].value > v then 0 else 1 + UpperBound(r[1..], v)
  }

  lemma {:induction false} BoundsAre<K>(r: seq<Entry<K>>, v: int)
    requires InOrder(r)
    ensures forall i :: 0 <= i < |r| ==> (i < LowerBound(r, v) <==> r[i].value < v) && (i < UpperBound(r, v) <==> r[i].value <= v)
    ensures LowerBound(r, v) <= UpperBound(r, v)
  {
    if r != [] {
      BoundsAre(r[1..], v);
      forall i | 0 <= i < |r| ensures (i < LowerBound(r, v) <==> r[i].value < v) && (i < UpperBound(r, v) <==> r[i].value <= v) {
        if i > 0 {
          assert r[i] == r[1..][i - 1];
        }
      }
    }
  }

  function Inserted<K>(r: seq<Entry<K>>, e: Entry<K>): seq<Entry<K>> {
    r[..UpperBound(r, e.value)] + [e] + r[UpperBound(r, e.value)..]
  }

  function Removed<K>(r: seq<Entry<K>>, i: nat): seq<Entry<K>>
    requires i < |r|
  {
    r[..i] + r[i + 1..]
  }

  lemma InsertedOrder<K>(r: seq<Entry<K>>, e: Entry<K>)
    requires InOrder(r)
    ensures InOrder(Inserted(r, e))
  {
    BoundsAre(r, e.value);
  }

  lemma InsertedDiffer<K>(r: seq<Entry<K>>, e: Entry<K>)
    requires KeysDiffer(r) && forall i :: 0 <= i < |r| ==> r[i].key != e.key
    ensures KeysDiffer(Inserted(r, e))
  {
  }

  lemma InsertedHas<K>(r: seq<Entry<K>>, e: Entry<K>, x: Entry<K>)
    ensures x in Inserted(r, e) <==> x == e || x in r
  {
    var u := UpperBound(r, e.value);
    assert r == r[..u] + r[u..];
    assert x in r <==> x in r[..u] || x in r[u..];
  }

  lemma InsertedIndexes<K(!new)>(r: seq<Entry<K>>, m: map<K, int>, k: K, v: int)
    requires Indexes(r, m) && k !in m
    ensures Indexes(Inserted(r, Entry(v, k)), m[k := v])
  {
    var e, s, n := Entry(v, k), Inserted(r, Entry(v, k)), m[k := v];
    InsertedOrder(r, e);
    InsertedDiffer(r, e);
    forall i | 0 <= i < |s| ensures s[i].key in n && n[s[i].key] == s[i].value {
      InsertedHas(r, e, s[i]);
      if s[i] != e {
        var j :| 0 <= j < |r| && r[j] == s[i];
      }
    }
    forall j | j in n.Keys ensures Entry(n[j], j) in s {
      InsertedHas(r, e, Entry(n[j], j));
    }
  }

  lemma RemovedOrder<K>(r: seq<Entry<K>>, i: nat)
    requires i < |r|
    ensures InOrder(r) ==> InOrder(Removed(r, i))
    ensures KeysDiffer(r) ==> KeysDiffer(Removed(r, i))
  {
    var s := Removed(r, i);
    assert forall j :: 0 <= j < |s| ==> s[j] == r[if j < i then j else j + 1];
  }

  lemma RemovedHas<K>(r: seq<Entry<K>>, i: nat, x: Entry<K>)
    requires i < |r| && KeysDiffer(r)
    ensures x in Removed(r, i) <==> x in r && x != r[i]
  {
    var s := Removed(r, i);
    assert r == r[..i] + [r[i]] + r[i + 1..];
    forall j | 0 <= j < |s| ensures s[j] != r[i] {
      assert s[j] == r[if j < i then j else j + 1];
    }
  }

  lemma RemovedIndexes<K(!new)>(r: seq<Entry<K>>, m: map<K, int>, i: nat)
    requires Indexes(r, m) && i < |r|
    ensures Indexes(Removed(r, i), m - {r[i].key})
  {
    var s, n := Removed(r, i), m - {r[i].key};
    RemovedOrder(r, i);
    forall j | 0 <= j < |s| ensures s[j].key in n && n[s[j].key] == s[j].value {
      assert s[j] == r[if j < i then j else j + 1];
    }
    forall k | k in n.Keys ensures Entry(n[k], k) in s {
      RemovedHas(r, i, Entry(n[k], k));
    }
  }

  /** The place of a key lies in the range of its value. */
  lemma PlaceOf<K(!new)>(r: seq<Entry<K>>, m: map<K, int>, k: K) returns (i: nat)
    requires Indexes(r, m) && k in m
    ensures LowerBound(r, m[k]) <= i < UpperBound(r, m[k]) <= |r| && r[i] == Entry(m[k], k)
  {
    BoundsAre(r, m[k]);
    i :| 0 <= i < |r| && r[i] == Entry(m[k], k);
  }

  lemma {:induction false} SameSize<K(!new)>(r: seq<Entry<K>>, m: map<K, int>)
    requires Indexes(r, m)
    ensures |r| == |m|
  {
    if r == [] {
      forall k ensures k !in m.Keys {
      }
      assert m.Keys == {};
    } else {
      RemovedIndexes(r, m, 0);
      SameSize(Removed(r, 0), m - {r[0].key});
      assert m.Keys == (m - {r[0].key}).Keys + {r[0].key};
    }
  }

  // --- what the operations do to the contents ----------------------------------------------

  /** A key with the smallest value. */
  ghost predicate Lowest<K(!new)>(m: map<K, int>, k: K) {
    k in m && forall j :: j in m ==> m[k] <= m[j]
  }

  lemma FirstIsLowest<K(!new)>(r: seq<Entry<K>>, m: map<K, int>)
    requires Indexes(r, m) && r != []
    ensures Lowest(m, r[0].key)
  {
    forall j | j in m ensures m[r[0].key] <= m[j] {
      var i :| 0 <= i < |r| && r[i] == Entry(m[j], j);
    }
  }

  /** Insertion makes room at the limit. */
  predicate AtLimit(size: nat, limit: nat) { limit != 0 && size + 1 == limit }

  lemma DropKey<K>(m: map<K, int>, first: K, k: K, v: int)
    requires first in m && k !in m
    ensures m[k := v] - {first} == (m - {first})[k := v] && |m[k := v] - {first}| == |m|
  {
    var n := m - {first};
    assert m.Keys == n.Keys + {first};
    assert n[k := v].Keys == n.Keys + {k};
    assert m[k := v] - {first} == n[k := v];
  }

  lemma AddKey<K>(m: map<K, int>, k: K, v: int)
    requires k !in m
    ensures |m[k := v]| == |m| + 1
  {
    assert m[k := v].Keys == m.Keys + {k};
  }

  lemma InsertFull<K(!new)>(r: seq<Entry<K>>, m: map<K, int>, k: K, v: int)
    requires Indexes(r, m) && k !in m && r != []
    ensures var n := m[k := v] - {r[0].key};
            && n == (m - {r[0].key})[k := v] && |n| == |m| && Lowest(m, r[0].key)
            && Indexes(Inserted(r[1..], Entry(v, k)), n)
  {
    FirstIsLowest(r, m);
    RemovedIndexes(r, m, 0);
    DropKey(m, r[0].key, k, v);
    assert Removed(r, 0) == r[1..];
    InsertedIndexes(r[1..], m - {r[0].key}, k, v);
  }

  /** Part of a map, whose values are at least those of the rest. */
  ghost predicate KeepsHighest<K(!new)>(all: map<K, int>, m: map<K, int>) {
    && (forall k :: k in m ==> k in all && m[k] == all[k])
    && (forall j, k :: j in all && j !in m && k in m ==> all[j] <= m[k])
  }

  /** Where the key with the smallest value made room for a new one, the highest values are
      kept if and only if the new one is not below it. */
  lemma RoomForNew<K(!new)>(m: map<K, int>, first: K, k: K, v: int)
    requires Lowest(m, first) && k !in m
    ensures KeepsHighest(m[k := v], (m - {first})[k := v]) <==> exists j :: j in m && m[j] <= v
  {
    var all, kept := m[k := v], (m - {first})[k := v];
    if m[first] <= v {
      forall i, j | i in all && i !in kept && j in kept ensures all[i] <= kept[j] {
        assert i == first;
      }
    } else {
      assert first in all && first !in kept && k in kept;
    }
  }

  lemma DropFirst<K(!new)>(all: map<K, int>, r: seq<Entry<K>>, m: map<K, int>)
    requires Indexes(r, m) && KeepsHighest(all, m) && |m| > 0
    ensures r != [] && Indexes(r[1..], m - {r[0].key}) && KeepsHighest(all, m - {r[0].key})
    ensures |m - {r[0].key}| == |m| - 1
  {
    SameSize(r, m);
    FirstIsLowest(r, m);
    RemovedIndexes(r, m, 0);
    assert Removed(r, 0) == r[1..];
    KeepsStill(all, m, r[0].key);
  }

  lemma KeepsStill<K(!new)>(all: map<K, int>, m: map<K, int>, first: K)
    requires KeepsHighest(all, m) && Lowest(m, first)
    ensures KeepsHighest(all, m - {first}) && |m - {first}| == |m| - 1
  {
    var n := m - {first};
    assert m.Keys == n.Keys + {first};
    forall j, k | j in all && j !in n && k in n ensures all[j] <= n[k] {
      if j == first {
        assert m[first] <= m[k];
      } else {
        assert j !in m && k in m;
      }
    }
  }

  class LimitedMap<K(!new, ==)> {
    var m: map<K, int>
    var rmap: seq<Entry<K>>
    var nMaxSize: nat

    ghost predicate Valid()
      reads this
    {
      Indexes(rmap, m)
    }

    constructor (limit: nat)
      ensures Valid() && m == map[] && nMaxSize == limit
    {
      m, rmap, nMaxSize := map[], [], limit;
    }

    /** The first insertion into a map limited to one element has nothing to make room
        with. */
    method Insert(k: K, v: int) returns (ghost gone: set<K>)
      requires Valid() && !(nMaxSize == 1 && m == map[])
      modifies this`m, this`rmap
      ensures Valid()
      ensures k in old(m) ==> m == old(m) && gone == {}
      ensures k !in old(m) ==> m == (old(m) - gone)[k := v]
      ensures k !in old(m) && !AtLimit(|old(m)|, nMaxSize) ==> gone == {} && |m| == |old(m)| + 1
      ensures k !in old(m) && AtLimit(|old(m)|, nMaxSize) ==>
                (exists j :: gone == {j} && Lowest(old(m), j)) && |m| == |old(m)|
      ensures k !in old(m) && nMaxSize >= 2 ==> (|m| < nMaxSize <==> |old(m)| < nMaxSize)
      ensures k !in old(m) && AtLimit(|old(m)|, nMaxSize) ==>
                (KeepsHighest(old(m)[k := v], m) <==> exists j :: j in old(m) && old(m)[j] <= v)
    {
      gone := {};
      if k in m {
        return;
      }
      ghost var before: map<K, int>, index: seq<Entry<K>> := m, rmap;
      m := m[k := v];
      AddKey(before, k, v);
      if nMaxSize != 0 && |m| == nMaxSize {
        SameSize(index, before);
        InsertFull(index, before, k, v);
        RoomForNew(before, rmap[0].key, k, v);
        gone := {rmap[0].key};
        m := m - {rmap[0].key};
        rmap := rmap[1..];
      } else {
        InsertedIndexes(index, before, k, v);
        assert before - {} == before;
      }
      rmap := Inserted(rmap, Entry(v, k));
    }

    /** The search through the equal range; it always finds the key. */
    method Search(k: K) returns (i: nat)
      requires Valid() && k in m
      ensures i < |rmap| && rmap[i] == Entry(m[k], k)
    {
      ghost var p := PlaceOf(rmap, m, k);
      i := LowerBound(rmap, m[k]);
      while i != UpperBound(rmap, m[k])
        invariant LowerBound(rmap, m[k]) <= i <= p
        decreases |rmap| - i
      {
        if rmap[i].key == k {
          return;
        }
        i := i + 1;
      }
    }

    method Erase(k: K)
      requires Valid()
      modifies this`m, this`rmap
      ensures Valid() && m == old(m) - {k}
    {
      if k !in m {
        return;
      }
      var i := Search(k);
      RemovedIndexes(rmap, m, i);
      rmap := rmap[..i] + rmap[i + 1..];
      m := m - {k};
    }

    method Update(k: K, v: int)
      requires Valid()
      modifies this`m, this`rmap
      ensures Valid() && m == if k in old(m) then old(m)[k := v] else old(m)
    {
      if k !in m {
        return;
      }
      var i := Search(k);
      RemovedIndexes(rmap, m, i);
      rmap := rmap[..i] + rmap[i + 1..];
      InsertedIndexes(rmap, m - {k}, k, v);
      assert (m - {k})[k := v] == m[k := v];
      m := m[k := v];
      rmap := Inserted(rmap, Entry(v, k));
    }

    /** max_size(s): the entries kept are at least as high as the entries dropped. */
    method SetMaxSize(s: nat)
      requires Valid()
      modifies this
      ensures Valid() && nMaxSize == s
      ensures KeepsHighest(old(m), m)
      ensures |m| == if s != 0 && s < |old(m)| then s else |old(m)|
      ensures s == 0 || |old(m)| <= s ==> m == old(m)
    {
      if s != 0 {
        while |m| > s
          invariant Valid()
          invariant KeepsHighest(old(m), m)
          invariant |m| == |old(m)| || s <= |m| <= |old(m)|
          invariant |old(m)| <= s ==> m == old(m)
          decreases |m|
        {
          DropFirst(old(m), rmap, m);
          var first := rmap[0].key;
          m := m - {first};
          rmap := rmap[1..];
        }
      }
      nMaxSize := s;
    }
  }

  /** A map cut down to its limit keeps growing: two elements fill a limit of two, and four
      are in it after two more insertions. */
  method GrowsPastLimit() returns (l: LimitedMap<int>)
    ensures fresh(l) && l.Valid() && l.nMaxSize == 2 && |l.m| == 4
  {
    l := new LimitedMap(0);
    InsertNew(l, 1, 10);
    InsertNew(l, 2, 20);
    l.SetMaxSize(2);
    InsertNew(l, 3, 30);
    InsertNew(l, 4, 40);
  }

  method InsertNew(l: LimitedMap<int>, k: int, v: int)
    requires l.Valid() && k !in l.m && |l.m| + 1 != l.nMaxSize
    modifies l`m, l`rmap
    ensures l.Valid() && l.m == old(l.m)[k := v] && |l.m| == |old(l.m)| + 1
  {
    var gone := l.Insert(k, v);
    assert old(l.m) - gone == old(l.m);
  }
}
