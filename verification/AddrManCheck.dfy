/** The manager's own consistency check, Check_, step by step. */
module AddrManCheck {
  import opened Common
  import opened SortedSets
  import opened AddrManModel
  import opened AddrManRuns

  /** Looking up an address that is not there gives 0. */
  function IndexOf(addr: map<NetAddr, nat>, ip: NetAddr): nat { if ip in addr then addr[ip] else 0 }

  /** What is checked of one entry of mapInfo. */
  predicate EntryChecks(s: State, id: nat)
    requires id in s.info
  {
    var i := s.info[id];
    && (if i.inTried then i.p.lastSuccess != 0 && i.refCount == 0
        else 0 <= i.refCount <= NEW_BUCKETS_PER_ADDRESS && i.refCount != 0)
    && IndexOf(s.addr, i.p.svc.ip) == id
    && 0 <= i.randomPos < |s.random| && s.random[i.randomPos] == id
    && i.lastTry >= 0 && i.p.lastSuccess >= 0
  }

  /** Each of `q` is found in `pool` and erased from it. */
  function EraseEach(pool: set<nat>, q: seq<nat>): Option<set<nat>> {
    if q == [] then Some(pool)
    else
      match EraseEach(pool, q[..|q| - 1])
      case None => None
      case Some(p) => if q[|q| - 1] in p then Some(p - {q[|q| - 1]}) else None
  }

  /** The walk over the first n tried buckets. */
  function WalkTried(pool: set<nat>, tried: seq<seq<nat>>, n: nat): Option<set<nat>>
    requires n <= |tried|
  {
    if n == 0 then Some(pool)
    else
      match WalkTried(pool, tried, n - 1)
      case None => None
      case Some(p) => EraseEach(p, tried[n - 1])
  }

  /** Each of `q` has its count decremented, and is erased at zero. */
  function CountDown(counts: map<nat, int>, q: seq<nat>): Option<map<nat, int>> {
    if q == [] then Some(counts)
    else
      match CountDown(counts, q[..|q| - 1])
      case None => None
      case Some(c) =>
        var id := q[|q| - 1];
        if id !in c then None else if c[id] - 1 == 0 then Some(c - {id}) else Some(c[id := c[id] - 1])
  }

  /** The walk over the first n new buckets, each in ascending order. */
  function WalkNew(counts: map<nat, int>, newb: seq<set<nat>>, n: nat): Option<map<nat, int>>
    requires n <= |newb|
  {
    if n == 0 then Some(counts)
    else
      match WalkNew(counts, newb, n - 1)
      case None => None
      case Some(c) => CountDown(c, Ascending(newb[n - 1]))
  }

  ghost function RefCounts(info: map<nat, Info>): map<nat, int> {
    map id | id in info && !info[id].inTried :: info[id].refCount
  }

  /** Check_ returns 0. */
  ghost predicate Passes(s: State) {
    && |s.random| == s.nTried + s.nNew
    && (forall id :: id in s.info ==> EntryChecks(s, id))
    && |TriedIds(s.info)| == s.nTried && |NewIds(s.info)| == s.nNew
    && WalkTried(TriedIds(s.info), s.tried, |s.tried|) == Some({})
    && WalkNew(RefCounts(s.info), s.newb, |s.newb|) == Some(map[])
  }

  // --- the tried buckets -----------------------------------------------------------------

  ghost function Without(pool: set<nat>, q: seq<nat>): set<nat> { set x | x in pool && x !in q }

  lemma {:induction false} EraseDistinct(pool: set<nat>, q: seq<nat>)
    requires Distinct(q) && forall i :: 0 <= i < |q| ==> q[i] in pool
    ensures EraseEach(pool, q) == Some(Without(pool, q))
  {
    if q == [] {
      assert Without(pool, q) == pool;
    } else {
      var n := |q| - 1;
      EraseDistinct(pool, q[..n]);
      assert q == q[..n] + [q[n]];
      assert q[n] !in q[..n];
      assert q[n] in Without(pool, q[..n]);
      assert Without(pool, q[..n]) - {q[n]} == Without(pool, q);
    }
  }

  /** Each tried entry lies in one tried bucket, once, and nothing else does. */
  ghost predicate TriedOnce(info: map<nat, Info>, tried: seq<seq<nat>>) {
    && (forall k :: 0 <= k < |tried| ==> Distinct(tried[k]))
    && (forall k, x :: 0 <= k < |tried| && x in tried[k] ==> x in info && info[x].inTried)
    && (forall j, k, x :: 0 <= j < k < |tried| && x in tried[j] ==> x !in tried[k])
    && (forall x :: x in info && info[x].inTried ==> exists k :: 0 <= k < |tried| && x in tried[k])
  }

  lemma TriedOkOnce(cfg: Config, key: Key, info: map<nat, Info>, tried: seq<seq<nat>>)
    requires TriedOk(cfg, key, info, tried)
    ensures TriedOnce(info, tried)
  {
    forall x | x in info && info[x].inTried ensures exists k :: 0 <= k < |tried| && x in tried[k] {
      assert x in tried[TriedBucket(cfg, key, info[x])];
    }
    forall j, k, x | 0 <= j < k < |tried| && x in tried[j] ensures x !in tried[k] {
      assert TriedBucket(cfg, key, info[x]) == j;
    }
  }

  /** The tried ids not in the first n buckets. */
  ghost function Left(pool: set<nat>, tried: seq<seq<nat>>, n: nat): set<nat>
    requires n <= |tried|
  {
    set x | x in pool && forall k :: 0 <= k < n ==> x !in tried[k]
  }

  lemma {:induction false} WalkTriedLeaves(info: map<nat, Info>, tried: seq<seq<nat>>, n: nat)
    requires TriedOnce(info, tried) && n <= |tried|
    ensures WalkTried(TriedIds(info), tried, n) == Some(Left(TriedIds(info), tried, n))
  {
    var pool := TriedIds(info);
    if n == 0 {
      assert Left(pool, tried, 0) == pool;
    } else {
      WalkTriedLeaves(info, tried, n - 1);
      var p, q := Left(pool, tried, n - 1), tried[n - 1];
      forall i | 0 <= i < |q| ensures q[i] in p {
        assert q[i] in q;
      }
      EraseDistinct(p, q);
      assert Without(p, q) == Left(pool, tried, n);
    }
  }

  lemma TriedEmptied(info: map<nat, Info>, tried: seq<seq<nat>>)
    requires TriedOnce(info, tried)
    ensures WalkTried(TriedIds(info), tried, |tried|) == Some({})
  {
    WalkTriedLeaves(info, tried, |tried|);
    assert Left(TriedIds(info), tried, |tried|) == {};
  }

  lemma {:induction false} ErasedOnce(pool: set<nat>, q: seq<nat>)
    requires EraseEach(pool, q).Some?
    ensures Distinct(q) && (forall i :: 0 <= i < |q| ==> q[i] in pool) && EraseEach(pool, q).value == Without(pool, q)
  {
    if q != [] {
      var n := |q| - 1;
      ErasedOnce(pool, q[..n]);
      assert q == q[..n] + [q[n]];
      assert q[n] in Without(pool, q[..n]);
      EraseDistinct(pool, q);
    } else {
      assert Without(pool, q) == pool;
    }
  }

  /** The first n buckets hold ids of the pool, each once in all. */
  ghost predicate Apart(pool: set<nat>, tried: seq<seq<nat>>, n: nat)
    requires n <= |tried|
  {
    && (forall k :: 0 <= k < n ==> Distinct(tried[k]))
    && (forall k, x :: 0 <= k < n && x in tried[k] ==> x in pool)
    && (forall j, k, x :: 0 <= j < k < n && x in tried[j] ==> x !in tried[k])
  }

  lemma {:induction false} WalkedTried(pool: set<nat>, tried: seq<seq<nat>>, n: nat)
    requires n <= |tried| && WalkTried(pool, tried, n).Some?
    ensures Apart(pool, tried, n) && WalkTried(pool, tried, n).value == Left(pool, tried, n)
  {
    if n == 0 {
      assert Left(pool, tried, 0) == pool;
    } else {
      WalkedTried(pool, tried, n - 1);
      var p, q := Left(pool, tried, n - 1), tried[n - 1];
      ErasedOnce(p, q);
      forall x | x in q ensures x in p {
        var i :| 0 <= i < |q| && q[i] == x;
      }
      assert Without(p, q) == Left(pool, tried, n);
    }
  }

  lemma TriedWalked(info: map<nat, Info>, tried: seq<seq<nat>>)
    requires WalkTried(TriedIds(info), tried, |tried|) == Some({})
    ensures TriedOnce(info, tried)
  {
    var pool := TriedIds(info);
    WalkedTried(pool, tried, |tried|);
    forall k, x | 0 <= k < |tried| && x in tried[k] ensures x in info && info[x].inTried {
      assert x in pool;
    }
    forall x | x in info && info[x].inTried ensures exists k :: 0 <= k < |tried| && x in tried[k] {
      assert x in pool && x !in Left(pool, tried, |tried|);
    }
  }

  // --- the new buckets -------------------------------------------------------------------

  /** The new buckets hold new entries only, each as often as its count says. */
  ghost predicate NewHeld(info: map<nat, Info>, newb: seq<set<nat>>) {
    && (forall b, x :: 0 <= b < |newb| && x in newb[b] ==> x in info && !info[x].inTried)
    && (forall x :: x in info && !info[x].inTried ==>
          1 <= info[x].refCount <= NEW_BUCKETS_PER_ADDRESS && info[x].refCount == |Holders(newb, x)|)
  }

  /** The counts left after the buckets before n. */
  ghost predicate CountsLeft(info: map<nat, Info>, newb: seq<set<nat>>, n: nat, c: map<nat, int>)
    requires n <= |newb|
  {
    forall id ::
      && (id in c <==> id in info && !info[id].inTried && info[id].refCount > |Holders(newb[..n], id)|)
      && (id in c ==> c[id] == info[id].refCount - |Holders(newb[..n], id)|)
  }

  ghost function Lowered(c: map<nat, int>, q: seq<nat>): map<nat, int> {
    map id | id in c && !(id in q && c[id] == 1) :: if id in q then c[id] - 1 else c[id]
  }

  lemma {:induction false} CountDownIs(c: map<nat, int>, q: seq<nat>)
    requires Distinct(q) && forall i :: 0 <= i < |q| ==> q[i] in c && c[q[i]] > 0
    ensures CountDown(c, q) == Some(Lowered(c, q))
  {
    if q == [] {
      assert Lowered(c, q) == c;
    } else {
      var n := |q| - 1;
      CountDownIs(c, q[..n]);
      assert q == q[..n] + [q[n]];
      assert q[n] !in q[..n];
      var l, id := Lowered(c, q[..n]), q[n];
      assert id in l && l[id] == c[id];
      assert Lowered(c, q) == if l[id] - 1 == 0 then l - {id} else l[id := l[id] - 1];
    }
  }

  lemma HoldersNext(newb: seq<set<nat>>, n: nat, id: nat)
    requires n < |newb|
    ensures Holders(newb[..n + 1], id) == Holders(newb[..n], id) + if id in newb[n] then {n} else {}
    ensures |Holders(newb[..n + 1], id)| == |Holders(newb[..n], id)| + if id in newb[n] then 1 else 0
  {
    var a, b := Holders(newb[..n + 1], id), Holders(newb[..n], id);
    assert a == b + if id in newb[n] then {n} else {};
  }

  lemma {:induction false} HoldersGrow(newb: seq<set<nat>>, n: nat, m: nat, id: nat)
    requires n <= m <= |newb|
    ensures |Holders(newb[..n], id)| <= |Holders(newb[..m], id)|
  {
    if n < m {
      HoldersGrow(newb, n, m - 1, id);
      HoldersNext(newb, m - 1, id);
    }
  }

  lemma {:induction false} WalkNewLeaves(info: map<nat, Info>, newb: seq<set<nat>>, n: nat)
    requires NewHeld(info, newb) && n <= |newb|
    ensures WalkNew(RefCounts(info), newb, n).Some?
    ensures CountsLeft(info, newb, n, WalkNew(RefCounts(info), newb, n).value)
  {
    if n == 0 {
      forall id ensures Holders(newb[..0], id) == {} {
      }
    } else {
      WalkNewLeaves(info, newb, n - 1);
      WalkNewNext(info, newb, n - 1, WalkNew(RefCounts(info), newb, n - 1).value);
    }
  }

  lemma WalkNewNext(info: map<nat, Info>, newb: seq<set<nat>>, n: nat, c: map<nat, int>)
    requires NewHeld(info, newb) && n < |newb| && CountsLeft(info, newb, n, c)
    ensures CountDown(c, Ascending(newb[n])).Some? && CountsLeft(info, newb, n + 1, CountDown(c, Ascending(newb[n])).value)
  {
    var q := Ascending(newb[n]);
    AscendingEnumerates(newb[n]);
    forall i | 0 <= i < |q| ensures q[i] in c && c[q[i]] > 0 {
      assert q[i] in q;
      HeldIsCounted(info, newb, n, c, q[i]);
    }
    CountDownIs(c, q);
    forall id
      ensures id in Lowered(c, q) <==> id in info && !info[id].inTried && info[id].refCount > |Holders(newb[..n + 1], id)|
      ensures id in Lowered(c, q) ==> Lowered(c, q)[id] == info[id].refCount - |Holders(newb[..n + 1], id)|
    {
      LoweredLeft(info, newb, n, c, q, id);
    }
  }

  lemma HeldIsCounted(info: map<nat, Info>, newb: seq<set<nat>>, n: nat, c: map<nat, int>, id: nat)
    requires NewHeld(info, newb) && n < |newb| && CountsLeft(info, newb, n, c) && id in newb[n]
    ensures id in c && c[id] > 0
  {
    HoldersNext(newb, n, id);
    HoldersGrow(newb, n + 1, |newb|, id);
    assert newb[..|newb|] == newb;
  }

  lemma LoweredLeft(info: map<nat, Info>, newb: seq<set<nat>>, n: nat, c: map<nat, int>, q: seq<nat>, id: nat)
    requires n < |newb| && CountsLeft(info, newb, n, c)
    requires forall x :: x in q <==> x in newb[n]
    ensures id in Lowered(c, q) <==> id in info && !info[id].inTried && info[id].refCount > |Holders(newb[..n + 1], id)|
    ensures id in Lowered(c, q) ==> Lowered(c, q)[id] == info[id].refCount - |Holders(newb[..n + 1], id)|
  {
    HoldersNext(newb, n, id);
  }

  lemma NewEmptied(info: map<nat, Info>, newb: seq<set<nat>>)
    requires NewHeld(info, newb)
    ensures WalkNew(RefCounts(info), newb, |newb|) == Some(map[])
  {
    WalkNewLeaves(info, newb, |newb|);
    assert newb[..|newb|] == newb;
    var c := WalkNew(RefCounts(info), newb, |newb|).value;
    assert c == map[];
  }

  ghost predicate Positive(c: map<nat, int>) { forall x :: x in c ==> c[x] > 0 }

  lemma {:induction false} CountedOnce(c: map<nat, int>, q: seq<nat>)
    requires Distinct(q) && Positive(c) && CountDown(c, q).Some?
    ensures forall i :: 0 <= i < |q| ==> q[i] in c
    ensures CountDown(c, q).value == Lowered(c, q) && Positive(Lowered(c, q))
  {
    if q == [] {
      assert Lowered(c, q) == c;
    } else {
      var n := |q| - 1;
      CountedOnce(c, q[..n]);
      assert q == q[..n] + [q[n]];
      CountDownIs(c, q);
    }
  }

  /** Every id in the first n buckets is a new entry, and held at most as often as its count
      says. */
  ghost predicate HeldSoFar(info: map<nat, Info>, newb: seq<set<nat>>, n: nat)
    requires n <= |newb|
  {
    && (forall b, x :: 0 <= b < n && x in newb[b] ==> x in info && !info[x].inTried)
    && (forall x :: x in info && !info[x].inTried ==> |Holders(newb[..n], x)| <= info[x].refCount)
  }

  lemma {:induction false} WalkedNew(info: map<nat, Info>, newb: seq<set<nat>>, n: nat)
    requires n <= |newb| && Positive(RefCounts(info)) && WalkNew(RefCounts(info), newb, n).Some?
    ensures var c := WalkNew(RefCounts(info), newb, n).value;
            CountsLeft(info, newb, n, c) && Positive(c) && HeldSoFar(info, newb, n)
  {
    if n == 0 {
      forall id ensures Holders(newb[..0], id) == {} {
      }
      forall id | id in info && !info[id].inTried ensures info[id].refCount > 0 {
        assert id in RefCounts(info);
      }
    } else {
      WalkedNew(info, newb, n - 1);
      WalkedNext(info, newb, n - 1, WalkNew(RefCounts(info), newb, n - 1).value);
    }
  }

  lemma WalkedNext(info: map<nat, Info>, newb: seq<set<nat>>, n: nat, c: map<nat, int>)
    requires n < |newb| && CountsLeft(info, newb, n, c) && Positive(c) && HeldSoFar(info, newb, n)
    requires CountDown(c, Ascending(newb[n])).Some?
    ensures var d := CountDown(c, Ascending(newb[n])).value;
            CountsLeft(info, newb, n + 1, d) && Positive(d) && HeldSoFar(info, newb, n + 1)
  {
    var q := Ascending(newb[n]);
    AscendingEnumerates(newb[n]);
    CountedOnce(c, q);
    forall x | x in newb[n] ensures x in c {
      var i :| 0 <= i < |q| && q[i] == x;
    }
    forall id
      ensures id in Lowered(c, q) <==> id in info && !info[id].inTried && info[id].refCount > |Holders(newb[..n + 1], id)|
      ensures id in Lowered(c, q) ==> Lowered(c, q)[id] == info[id].refCount - |Holders(newb[..n + 1], id)|
    {
      LoweredLeft(info, newb, n, c, q, id);
    }
    forall x | x in info && !info[x].inTried ensures |Holders(newb[..n + 1], x)| <= info[x].refCount {
      HoldersNext(newb, n, x);
    }
  }

  lemma NewWalked(info: map<nat, Info>, newb: seq<set<nat>>)
    requires forall x :: x in info && !info[x].inTried ==> 1 <= info[x].refCount <= NEW_BUCKETS_PER_ADDRESS
    requires WalkNew(RefCounts(info), newb, |newb|) == Some(map[])
    ensures NewHeld(info, newb)
  {
    WalkedNew(info, newb, |newb|);
    assert newb[..|newb|] == newb;
    forall x | x in info && !info[x].inTried ensures info[x].refCount == |Holders(newb, x)| {
      assert x !in WalkNew(RefCounts(info), newb, |newb|).value;
    }
  }

  // --- the check as a whole ----------------------------------------------------------------

  lemma SameNumber(info: map<nat, Info>, random: seq<nat>)
    requires RandomOk(info, random)
    ensures |random| == |TriedIds(info)| + |NewIds(info)|
  {
    assert info.Keys == TriedIds(info) + NewIds(info);
    assert |info.Keys| == |TriedIds(info)| + |NewIds(info)|;
    forall id | id in info.Keys ensures id in Elements(random) {
      assert random[info[id].randomPos] == id;
    }
    forall id | id in Elements(random) ensures id in info.Keys {
      var i :| 0 <= i < |random| && random[i] == id;
    }
    assert Elements(random) == info.Keys;
    forall i, j | 0 <= i < j < |random| ensures random[i] != random[j] {
      assert info[random[i]].randomPos == i && info[random[j]].randomPos == j;
    }
    DistinctSize(random);
  }

  lemma {:induction false} DistinctSize(q: seq<nat>)
    requires Distinct(q)
    ensures |Elements(q)| == |q|
  {
    if q == [] {
      assert Elements(q) == {};
    } else {
      var n := |q| - 1;
      DistinctSize(q[..n]);
      assert q == q[..n] + [q[n]];
      assert Elements(q) == Elements(q[..n]) + {q[n]};
    }
  }

  // --- what the check means ----------------------------------------------------------------

  /** The tables as Check_ can see them: everything but which tried bucket an entry belongs to,
      the sizes of buckets, and what the address index holds besides. */
  ghost predicate Sane(s: State) {
    && RandomOk(s.info, s.random) && CountsOk(s.info, s.nNew, s.nTried)
    && (forall id :: id in s.info ==> IndexOf(s.addr, s.info[id].p.svc.ip) == id)
    && (forall id :: id in s.info && s.info[id].inTried ==> s.info[id].refCount == 0)
    && TriedOnce(s.info, s.tried) && NewHeld(s.info, s.newb)
  }

  lemma SanePasses(s: State)
    requires Sane(s) && TimesOk(s)
    ensures Passes(s)
  {
    SameNumber(s.info, s.random);
    TriedEmptied(s.info, s.tried);
    NewEmptied(s.info, s.newb);
  }

  lemma SameKeys(info: map<nat, Info>)
    ensures |info.Keys| == |TriedIds(info)| + |NewIds(info)|
  {
    assert info.Keys == TriedIds(info) + NewIds(info);
  }

  /** As many places as entries, each entry at its own: every place is taken. */
  lemma PlacesTaken(info: map<nat, Info>, random: seq<nat>)
    requires |random| == |info.Keys|
    requires forall id :: id in info ==> 0 <= info[id].randomPos < |random| && random[info[id].randomPos] == id
    ensures RandomOk(info, random)
  {
    var all := Elements(random);
    assert info.Keys <= all by {
      forall id | id in info.Keys ensures id in all {
        assert random[info[id].randomPos] == id;
      }
    }
    SubsetSmaller(info.Keys, all);
    ElementsSize(random);
    SameSizeEqual(info.Keys, all);
    forall i | 0 <= i < |random| ensures random[i] in info && info[random[i]].randomPos == i {
      assert random[i] in all;
      NoPlaceTwice(random, info[random[i]].randomPos, i);
    }
  }

  lemma SameSizeEqual(a: set<nat>, b: set<nat>)
    requires a <= b && |a| == |b|
    ensures a == b
  {
    assert b == a + (b - a);
  }

  /** A list with as many elements as places has none twice. */
  lemma NoPlaceTwice(q: seq<nat>, i: nat, j: nat)
    requires i < |q| && j < |q| && q[i] == q[j] && |Elements(q)| == |q|
    ensures i == j
  {
    if i != j {
      var rest := q[..i] + q[i + 1..];
      assert Elements(rest) == Elements(q) by {
        forall x | x in q ensures x in rest {
          var k :| 0 <= k < |q| && q[k] == x;
          if k == i {
            assert x == if j < i then rest[j] else rest[j - 1];
          } else {
            assert x == if k < i then rest[k] else rest[k - 1];
          }
        }
      }
      ElementsSize(rest);
      assert false;
    }
  }

  lemma EntriesChecked(s: State)
    requires forall id :: id in s.info ==> EntryChecks(s, id)
    ensures forall id :: id in s.info ==> 0 <= s.info[id].randomPos < |s.random| && s.random[s.info[id].randomPos] == id
    ensures forall id :: id in s.info ==> IndexOf(s.addr, s.info[id].p.svc.ip) == id
    ensures forall id :: id in s.info && s.info[id].inTried ==> s.info[id].refCount == 0
    ensures forall id :: id in s.info && !s.info[id].inTried ==> 1 <= s.info[id].refCount <= NEW_BUCKETS_PER_ADDRESS
    ensures TimesOk(s)
  {
  }

  lemma PassesSane(s: State)
    requires Passes(s)
    ensures Sane(s) && TimesOk(s)
  {
    SameKeys(s.info);
    EntriesChecked(s);
    PlacesTaken(s.info, s.random);
    TriedWalked(s.info, s.tried);
    NewWalked(s.info, s.newb);
  }

  /** Check_ returns 0 exactly if the tables are as it can see them and the time stamps are
      acceptable. */
  lemma PassesExactly(s: State)
    ensures Passes(s) <==> Sane(s) && TimesOk(s)
  {
    if Passes(s) {
      PassesSane(s);
    }
    if Sane(s) && TimesOk(s) {
      SanePasses(s);
    }
  }

  lemma ConsistentIsSane(s: State)
    requires Inv(s)
    ensures Sane(s)
  {
    TriedOkOnce(s.cfg, s.key, s.info, s.tried);
  }

  /** A consistent manager passes Check_ exactly if its time stamps do. */
  lemma ConsistentPasses(s: State)
    requires Inv(s)
    ensures Passes(s) <==> TimesOk(s)
  {
    ConsistentIsSane(s);
    PassesExactly(s);
  }

  /** Every run with positive times ends in a manager that passes Check_. */
  lemma EveryRunPasses(cfg: Config, key: Key, ops: seq<Op>) returns (t: State)
    requires forall op :: op in ops ==> PositiveTimes(op)
    ensures Reaches(Empty(cfg, key), ops, t) && Passes(t)
  {
    t := EveryRunIsSafe(cfg, key, ops);
    ConsistentPasses(t);
  }
}
