/** The address file: what the manager writes, what it builds when it reads,
    and that reading back what was written gives the same tables up to a
    renaming of ids. */
module AddrManDisk {
  import opened Common
  import opened SortedSets
  import opened AddrManModel
  import opened AddrManProofs
  import opened AddrManTried

  /** The content of an address file. */
  datatype Image = Image(
    key: Key, nNew: int, nTried: int, nUBuckets: int,
    news: seq<Stats>, trieds: seq<Stats>, buckets: seq<seq<nat>>)

  // --- the stream -----------------------------------------------------------------

  datatype Token = TVersion(v: nat) | TKey(key: Key) | TInt(n: int) | TEntry(p: Stats)

  function Entries(ps: seq<Stats>): seq<Token> {
    seq(|ps|, i requires 0 <= i < |ps| => TEntry(ps[i]))
  }

  function Ints(q: seq<nat>): seq<Token> {
    seq(|q|, i requires 0 <= i < |q| => TInt(q[i]))
  }

  function BucketTokens(bs: seq<seq<nat>>): seq<Token> {
    if bs == [] then [] else [TInt(|bs[0]|)] + Ints(bs[0]) + BucketTokens(bs[1..])
  }

  function Flatten(d: Image): seq<Token> {
    [TVersion(0), TKey(d.key), TInt(d.nNew), TInt(d.nTried), TInt(d.nUBuckets)]
    + Entries(d.news) + Entries(d.trieds) + BucketTokens(d.buckets)
  }

  datatype Read<T> = Fail | Ok(value: T, rest: seq<Token>)

  function ReadEntries(t: seq<Token>, n: int): (r: Read<seq<Stats>>)
    decreases if n < 0 then 0 else n
  {
    if n <= 0 then Ok([], t)
    else if t == [] || !t[0].TEntry? then Fail
    else match ReadEntries(t[1..], n - 1)
      case Fail => Fail
      case Ok(ps, rest) => Ok([t[0].p] + ps, rest)
  }

  function ReadInts(t: seq<Token>, n: int): (r: Read<seq<nat>>)
    decreases if n < 0 then 0 else n
  {
    if n <= 0 then Ok([], t)
    else if t == [] || !t[0].TInt? || t[0].n < 0 then Fail
    else match ReadInts(t[1..], n - 1)
      case Fail => Fail
      case Ok(q, rest) => Ok([t[0].n] + q, rest)
  }

  function ReadBuckets(t: seq<Token>, n: int): (r: Read<seq<seq<nat>>>)
    decreases if n < 0 then 0 else n
  {
    if n <= 0 then Ok([], t)
    else if t == [] || !t[0].TInt? then Fail
    else match ReadInts(t[1..], t[0].n)
      case Fail => Fail
      case Ok(q, rest) =>
        match ReadBuckets(rest, n - 1)
        case Fail => Fail
        case Ok(bs, rest') => Ok([q] + bs, rest')
  }

  /** None stands for the exception of a stream that ends early, or is not of
      this form. */
  function Parse(t: seq<Token>): Option<Image> {
    if |t| < 5 || !t[0].TVersion? || !t[1].TKey? || !t[2].TInt? || !t[3].TInt? || !t[4].TInt? then None
    else match ReadEntries(t[5..], t[2].n)
      case Fail => None
      case Ok(news, t1) =>
        match ReadEntries(t1, t[3].n)
        case Fail => None
        case Ok(trieds, t2) =>
          match ReadBuckets(t2, t[4].n)
          case Fail => None
          case Ok(buckets, _) => Some(Image(t[1].key, t[2].n, t[3].n, t[4].n, news, trieds, buckets))
  }

  lemma {:induction false} EntriesRead(ps: seq<Stats>, rest: seq<Token>)
    ensures ReadEntries(Entries(ps) + rest, |ps|) == Ok(ps, rest)
  {
    if ps == [] {
      assert Entries(ps) + rest == rest;
    } else {
      EntriesRead(ps[1..], rest);
      var t := Entries(ps) + rest;
      assert t[0] == TEntry(ps[0]) && t[1..] == Entries(ps[1..]) + rest;
      assert [ps[0]] + ps[1..] == ps;
    }
  }

  lemma {:induction false} IntsRead(q: seq<nat>, rest: seq<Token>)
    ensures ReadInts(Ints(q) + rest, |q|) == Ok(q, rest)
  {
    if q == [] {
      assert Ints(q) + rest == rest;
    } else {
      IntsRead(q[1..], rest);
      var t := Ints(q) + rest;
      assert t[0] == TInt(q[0]) && t[1..] == Ints(q[1..]) + rest;
      assert [q[0]] + q[1..] == q;
    }
  }

  lemma {:induction false} BucketsRead(bs: seq<seq<nat>>)
    ensures ReadBuckets(BucketTokens(bs), |bs|) == Ok(bs, [])
  {
    if bs != [] {
      BucketsRead(bs[1..]);
      IntsRead(bs[0], BucketTokens(bs[1..]));
      var t := BucketTokens(bs);
      assert t[0] == TInt(|bs[0]|) && t[1..] == Ints(bs[0]) + BucketTokens(bs[1..]);
      assert [bs[0]] + bs[1..] == bs;
    }
  }

  ghost predicate WellCounted(d: Image) {
    d.nNew == |d.news| && d.nTried == |d.trieds| && d.nUBuckets == |d.buckets|
  }

  /** Parsing recovers every image whose counts are right from its stream. */
  lemma ParseFlatten(d: Image)
    requires WellCounted(d)
    ensures Parse(Flatten(d)) == Some(d)
  {
    var t := Flatten(d);
    var rest := Entries(d.trieds) + BucketTokens(d.buckets);
    assert t[5..] == Entries(d.news) + rest;
    EntriesRead(d.news, rest);
    EntriesRead(d.trieds, BucketTokens(d.buckets));
    BucketsRead(d.buckets);
  }

  // --- writing --------------------------------------------------------------------

  /** The entries that the two writing loops pick: those with references for
      the new table, those marked so for the tried table. */
  predicate Picks(i: Info, tried: bool) {
    if tried then i.inTried else i.refCount != 0
  }

  function Pick(q: seq<nat>, info: map<nat, Info>, tried: bool): seq<nat>
    requires forall x :: x in q ==> x in info
  {
    if q == [] then []
    else
      var front, x := q[..|q| - 1], q[|q| - 1];
      Pick(front, info, tried) + if Picks(info[x], tried) then [x] else []
  }

  function Rank(q: seq<nat>, x: nat): (r: nat)
    ensures r <= |q| && (x in q ==> r < |q| && q[r] == x)
  {
    if q == [] then 0 else if q[0] == x then 0 else 1 + Rank(q[1..], x)
  }

  function Ranks(q: seq<nat>, xs: seq<nat>): seq<nat> {
    seq(|xs|, i requires 0 <= i < |xs| => Rank(q, xs[i]))
  }

  function BucketRanks(q: seq<nat>, newb: seq<set<nat>>): seq<seq<nat>> {
    seq(|newb|, b requires 0 <= b < |newb| => Ranks(q, Ascending(newb[b])))
  }

  function StatsOf(info: map<nat, Info>, q: seq<nat>): seq<Stats>
    requires forall x :: x in q ==> x in info
  {
    seq(|q|, i requires 0 <= i < |q| => info[q[i]].p)
  }

  function Ids(info: map<nat, Info>): (q: seq<nat>)
    ensures forall x :: x in q ==> x in info
  {
    AscendingEnumerates(info.Keys);
    Ascending(info.Keys)
  }

  /** What the manager writes. */
  function ImageOf(s: State): Image {
    var ids := Ids(s.info);
    PickIn(ids, s.info, false);
    PickIn(ids, s.info, true);
    var n := Pick(ids, s.info, false);
    Image(s.key, s.nNew, s.nTried, NEW_BUCKET_COUNT, StatsOf(s.info, n), StatsOf(s.info, Pick(ids, s.info, true)),
          BucketRanks(n, s.newb))
  }

  lemma {:induction false} PickIn(q: seq<nat>, info: map<nat, Info>, tried: bool)
    requires forall x :: x in q ==> x in info
    ensures forall x :: x in Pick(q, info, tried) <==> x in q && Picks(info[x], tried)
  {
    if q != [] {
      PickIn(q[..|q| - 1], info, tried);
      assert q == q[..|q| - 1] + [q[|q| - 1]];
    }
  }

  lemma {:induction false} PickAscends(q: seq<nat>, info: map<nat, Info>, tried: bool)
    requires Ascends(q) && forall x :: x in q ==> x in info
    ensures Ascends(Pick(q, info, tried))
  {
    if q != [] {
      var front := q[..|q| - 1];
      PickAscends(front, info, tried);
      PickIn(front, info, tried);
      var r := Pick(front, info, tried);
      forall i | 0 <= i < |r| ensures r[i] < q[|q| - 1] {
        assert r[i] in r;
        assert r[i] in front;
      }
    }
  }

  // --- reading --------------------------------------------------------------------

  /** A default-constructed entry, which reading an unknown index creates. */
  const BLANK: Info := Info(Stats(Service(0, 0), {0}, 100000000, 0, 0, 0), 0, 0, false, -1)

  function Cleared(cfg: Config, d: Image): State {
    Empty(cfg, d.key).(nNew := d.nNew, nTried := d.nTried)
  }

  /** One entry of the new table, under the next id. */
  function LoadNew(s: State, n: nat, p: Stats, rebuild: bool): State
    requires |s.newb| == NEW_BUCKET_COUNT
  {
    var i := Info(p, 0, if rebuild then 1 else 0, false, |s.random|);
    var b := NewBucket(s.cfg, s.key, i, p.source);
    s.(info := s.info[n := i], addr := s.addr[p.svc.ip := n], random := s.random + [n],
       newb := if rebuild then s.newb[b := s.newb[b] + {n}] else s.newb)
  }

  function LoadNews(s: State, ps: seq<Stats>, rebuild: bool): (t: State)
    requires |s.newb| == NEW_BUCKET_COUNT
    ensures |t.newb| == NEW_BUCKET_COUNT && t.cfg == s.cfg && t.key == s.key && t.tried == s.tried
  {
    if ps == [] then s else LoadNew(LoadNews(s, ps[..|ps| - 1], rebuild), |ps| - 1, ps[|ps| - 1], rebuild)
  }

  /** One entry of the tried table; `nLost` is deducted from `nTried` at once. */
  function LoadTried(s: State, p: Stats): State
    requires |s.tried| == TRIED_BUCKET_COUNT
  {
    var id := s.idCount;
    var i := Info(p, 0, 0, true, |s.random|);
    var k := TriedBucket(s.cfg, s.key, i);
    if |s.tried[k]| < TRIED_BUCKET_SIZE then
      s.(idCount := id + 1, info := s.info[id := i], addr := s.addr[p.svc.ip := id],
         random := s.random + [id], tried := s.tried[k := s.tried[k] + [id]])
    else s.(nTried := s.nTried - 1)
  }

  function LoadTrieds(s: State, ps: seq<Stats>): (t: State)
    requires |s.tried| == TRIED_BUCKET_COUNT
    ensures |t.tried| == TRIED_BUCKET_COUNT && t.cfg == s.cfg && t.key == s.key && t.newb == s.newb
  {
    if ps == [] then s else LoadTried(LoadTrieds(s, ps[..|ps| - 1]), ps[|ps| - 1])
  }

  /** One reference read for bucket `b`. */
  function LoadIndex(s: State, b: nat, x: nat, same: bool): State
    requires b < |s.newb|
  {
    var i := if x in s.info then s.info[x] else BLANK;
    if same && i.refCount < NEW_BUCKETS_PER_ADDRESS then
      s.(info := s.info[x := i.(refCount := i.refCount + 1)], newb := s.newb[b := s.newb[b] + {x}])
    else s.(info := s.info[x := i])
  }

  function LoadBucket(s: State, b: nat, q: seq<nat>, same: bool): (t: State)
    requires b < |s.newb|
    ensures |t.newb| == |s.newb|
  {
    if q == [] then s else LoadIndex(LoadBucket(s, b, q[..|q| - 1], same), b, q[|q| - 1], same)
  }

  function LoadBuckets(s: State, bs: seq<seq<nat>>, same: bool): (t: State)
    requires |bs| <= |s.newb|
    ensures |t.newb| == |s.newb|
  {
    if bs == [] then s
    else LoadBucket(LoadBuckets(s, bs[..|bs| - 1], same), |bs| - 1, bs[|bs| - 1], same)
  }

  /** What the manager builds from a file with at most 256 new buckets. */
  function Build(cfg: Config, d: Image): State
    requires |d.buckets| <= NEW_BUCKET_COUNT
  {
    var same := d.nUBuckets == NEW_BUCKET_COUNT;
    var s1 := LoadNews(Cleared(cfg, d), d.news, !same);
    var s2 := LoadTrieds(s1.(idCount := |d.news|), d.trieds);
    LoadBuckets(s2, d.buckets, same)
  }

  // --- the round trip ---------------------------------------------------------------

  /** In a consistent manager the two loops write exactly the new and exactly
      the tried entries, as many as the counters say. */
  lemma WhatIsWritten(s: State)
    requires Inv(s)
    ensures Pick(Ids(s.info), s.info, false) == Ascending(NewIds(s.info))
    ensures Pick(Ids(s.info), s.info, true) == Ascending(TriedIds(s.info))
    ensures |Ascending(NewIds(s.info))| == s.nNew && |Ascending(TriedIds(s.info))| == s.nTried
  {
    PicksNew(s);
    var ids := Ids(s.info);
    AscendingEnumerates(s.info.Keys);
    AscendingEnumerates(NewIds(s.info));
    AscendingEnumerates(TriedIds(s.info));
    PickIn(ids, s.info, false);
    PickIn(ids, s.info, true);
    PickAscends(ids, s.info, false);
    PickAscends(ids, s.info, true);
    AscendingUnique(Pick(ids, s.info, false), Ascending(NewIds(s.info)));
    AscendingUnique(Pick(ids, s.info, true), Ascending(TriedIds(s.info)));
  }

  lemma PicksNew(s: State)
    requires Inv(s)
    ensures forall x :: x in s.info ==> (Picks(s.info[x], false) <==> !s.info[x].inTried)
  {
  }

  /** The entry that new id `i` gets when `n` of the entries `all` are new. */
  function Slot(all: seq<Stats>, n: nat, i: nat): Info
    requires i < |all|
  {
    Info(all[i], 0, 0, i >= n, i)
  }

  ghost predicate DistinctAddresses(all: seq<Stats>) {
    forall i, j :: 0 <= i < j < |all| ==> all[i].svc.ip != all[j].svc.ip
  }

  /** `s` holds exactly the entries `all`, numbered in order. */
  ghost predicate Numbered(s: State, all: seq<Stats>, n: nat) {
    && |s.random| == |all| && (forall i :: 0 <= i < |all| ==> s.random[i] == i)
    && (forall i: nat :: i in s.info <==> i < |all|)
    && (forall i: nat :: i < |all| ==> s.info[i] == Slot(all, n, i))
    && (forall i: nat :: i < |all| ==> all[i].svc.ip in s.addr && s.addr[all[i].svc.ip] == i)
    && (forall a :: a in s.addr ==> s.addr[a] < |all| && all[s.addr[a]].svc.ip == a)
  }

  lemma {:induction false} NewsLoaded(cfg: Config, d: Image, ps: seq<Stats>, n: nat)
    requires DistinctAddresses(ps) && |ps| <= n
    ensures var t := LoadNews(Cleared(cfg, d), ps, false);
            Numbered(t, ps, n) && t.newb == Cleared(cfg, d).newb && t.nNew == d.nNew && t.nTried == d.nTried
  {
    if ps != [] {
      var m := |ps| - 1;
      NewsLoaded(cfg, d, ps[..m], n);
      OneNewLoaded(LoadNews(Cleared(cfg, d), ps[..m], false), ps, n, m);
      assert ps[..m + 1] == ps;
    }
  }

  lemma OneNewLoaded(s: State, ps: seq<Stats>, n: nat, m: nat)
    requires m < |ps| <= n && DistinctAddresses(ps) && Numbered(s, ps[..m], n) && |s.newb| == NEW_BUCKET_COUNT
    ensures Numbered(LoadNew(s, m, ps[m], false), ps[..m + 1], n)
  {
    assert forall i :: 0 <= i < m ==> ps[..m + 1][i] == ps[..m][i];
  }

  ghost function BucketFor(cfg: Config, key: Key, p: Stats): (k: nat)
    ensures k < TRIED_BUCKET_COUNT
  {
    cfg.triedHash(key, p.svc) % TRIED_BUCKET_COUNT
  }

  /** The ids of the entries of bucket `k` among qs, the first having id `n`. */
  ghost function Placed(cfg: Config, key: Key, qs: seq<Stats>, n: nat, k: nat): seq<nat> {
    if qs == [] then []
    else
      var q := qs[|qs| - 1];
      Placed(cfg, key, qs[..|qs| - 1], n, k)
      + if BucketFor(cfg, key, q) == k then [n + |qs| - 1] else []
  }

  lemma {:induction false} PlacedFacts(cfg: Config, key: Key, qs: seq<Stats>, n: nat, k: nat)
    ensures Distinct(Placed(cfg, key, qs, n, k))
    ensures forall x :: x in Placed(cfg, key, qs, n, k) <==>
              n <= x < n + |qs| && BucketFor(cfg, key, qs[x - n]) == k
  {
    if qs != [] {
      PlacedFacts(cfg, key, qs[..|qs| - 1], n, k);
      var r := Placed(cfg, key, qs[..|qs| - 1], n, k);
      assert forall i :: 0 <= i < |r| ==> r[i] in r;
    }
  }

  ghost predicate PlacedFit(cfg: Config, key: Key, qs: seq<Stats>, n: nat) {
    forall k :: 0 <= k < TRIED_BUCKET_COUNT ==> |Placed(cfg, key, qs, n, k)| <= TRIED_BUCKET_SIZE
  }

  lemma PlacedGrows(cfg: Config, key: Key, qs: seq<Stats>, n: nat)
    requires qs != [] && PlacedFit(cfg, key, qs, n)
    ensures PlacedFit(cfg, key, qs[..|qs| - 1], n)
    ensures |Placed(cfg, key, qs[..|qs| - 1], n, BucketFor(cfg, key, qs[|qs| - 1]))| < TRIED_BUCKET_SIZE
  {
    var front := qs[..|qs| - 1];
    forall k | 0 <= k < TRIED_BUCKET_COUNT ensures |Placed(cfg, key, front, n, k)| <= TRIED_BUCKET_SIZE {
      assert |Placed(cfg, key, qs, n, k)| <= TRIED_BUCKET_SIZE;
    }
    assert |Placed(cfg, key, qs, n, BucketFor(cfg, key, qs[|qs| - 1]))| <= TRIED_BUCKET_SIZE;
  }

  ghost predicate TriedsAt(s: State, all: seq<Stats>, n: nat, m: nat)
    requires n <= m <= |all|
  {
    && Numbered(s, all[..m], n) && s.idCount == m && |s.tried| == TRIED_BUCKET_COUNT
    && forall k :: 0 <= k < TRIED_BUCKET_COUNT ==> s.tried[k] == Placed(s.cfg, s.key, all[n..m], n, k)
  }

  lemma SliceFront(all: seq<Stats>, n: nat, m: nat)
    requires n < m <= |all|
    ensures all[n..m][..|all[n..m]| - 1] == all[n..m - 1] && all[n..m][|all[n..m]| - 1] == all[m - 1]
  {
  }

  lemma TriedsNext(s: State, all: seq<Stats>, n: nat, m: nat)
    requires n <= m < |all| && DistinctAddresses(all) && TriedsAt(s, all, n, m)
    requires |s.tried[BucketFor(s.cfg, s.key, all[m])]| < TRIED_BUCKET_SIZE
    ensures var t := LoadTried(s, all[m]);
            TriedsAt(t, all, n, m + 1) && t.nTried == s.nTried && t.nNew == s.nNew
  {
    OneTriedLoaded(s, all, n, m);
    SliceFront(all, n, m + 1);
  }

  lemma {:induction false} TriedsLoaded(s: State, all: seq<Stats>, n: nat, m: nat)
    requires n <= m <= |all| && DistinctAddresses(all) && TriedsAt(s, all, n, n)
    requires PlacedFit(s.cfg, s.key, all[n..m], n)
    ensures var t := LoadTrieds(s, all[n..m]);
            TriedsAt(t, all, n, m) && t.nTried == s.nTried && t.nNew == s.nNew
    decreases m - n
  {
    if n < m {
      SliceFront(all, n, m);
      PlacedGrows(s.cfg, s.key, all[n..m], n);
      TriedsLoaded(s, all, n, m - 1);
      TriedsNext(LoadTrieds(s, all[n..m - 1]), all, n, m - 1);
    }
  }

  lemma OneTriedLoaded(s: State, all: seq<Stats>, n: nat, m: nat)
    requires n <= m < |all| && DistinctAddresses(all)
    requires Numbered(s, all[..m], n) && s.idCount == m && |s.tried| == TRIED_BUCKET_COUNT
    requires |s.tried[BucketFor(s.cfg, s.key, all[m])]| < TRIED_BUCKET_SIZE
    ensures var t := LoadTried(s, all[m]);
            && Numbered(t, all[..m + 1], n) && t.idCount == m + 1 && t.nTried == s.nTried && t.nNew == s.nNew
            && var k := BucketFor(s.cfg, s.key, all[m]);
               t.tried == s.tried[k := s.tried[k] + [m]]
  {
    assert forall i :: 0 <= i < m ==> all[..m + 1][i] == all[..m][i];
  }

  // references

  function One(b: bool): nat { if b then 1 else 0 }

  /** In how many of the lists `x` occurs. */
  ghost function CountIn(bs: seq<seq<nat>>, x: nat): nat {
    if bs == [] then 0 else CountIn(bs[..|bs| - 1], x) + One(x in bs[|bs| - 1])
  }

  /** `t` is `s` with the references of the lists `bs` added. */
  ghost predicate Referred(s: State, t: State, bs: seq<seq<nat>>)
    requires |bs| <= |s.newb|
  {
    && t == s.(info := t.info, newb := t.newb) && |t.newb| == |s.newb|
    && t.info.Keys == s.info.Keys
    && (forall x :: x in s.info ==> t.info[x] == s.info[x].(refCount := s.info[x].refCount + CountIn(bs, x)))
    && (forall b :: 0 <= b < |bs| ==> t.newb[b] == s.newb[b] + Elements(bs[b]))
    && (forall b :: |bs| <= b < |s.newb| ==> t.newb[b] == s.newb[b])
  }

  lemma IndexLoaded(s: State, b: nat, x: nat)
    requires b < |s.newb| && x in s.info && s.info[x].refCount < NEW_BUCKETS_PER_ADDRESS
    ensures var t := LoadIndex(s, b, x, true);
            && t == s.(info := t.info, newb := s.newb[b := s.newb[b] + {x}])
            && t.info.Keys == s.info.Keys
            && t.info[x] == s.info[x].(refCount := s.info[x].refCount + 1)
            && forall y :: y in s.info && y != x ==> t.info[y] == s.info[y]
  {
  }

  /** `t` is `s` with the references of one list added to bucket `b`. */
  ghost predicate Loaded(s: State, t: State, b: nat, q: seq<nat>)
    requires b < |s.newb|
  {
    && t == s.(info := t.info, newb := s.newb[b := s.newb[b] + Elements(q)])
    && t.info.Keys == s.info.Keys
    && forall x :: x in s.info ==> t.info[x] == s.info[x].(refCount := s.info[x].refCount + One(x in q))
  }

  lemma LoadedNext(s: State, m: State, b: nat, q: seq<nat>, x: nat)
    requires b < |s.newb| && Loaded(s, m, b, q) && x !in q && x in s.info && s.info[x].refCount < NEW_BUCKETS_PER_ADDRESS
    ensures Loaded(s, LoadIndex(m, b, x, true), b, q + [x])
  {
    IndexLoaded(m, b, x);
    assert Elements(q + [x]) == Elements(q) + {x};
    assert s.newb[b] + Elements(q + [x]) == s.newb[b] + Elements(q) + {x};
  }

  lemma {:induction false} BucketLoaded(s: State, b: nat, q: seq<nat>)
    requires b < |s.newb| && Distinct(q)
    requires forall x :: x in q ==> x in s.info && s.info[x].refCount < NEW_BUCKETS_PER_ADDRESS
    ensures Loaded(s, LoadBucket(s, b, q, true), b, q)
  {
    if q == [] {
      assert s.newb[b] + Elements(q) == s.newb[b];
    } else {
      var front, x := q[..|q| - 1], q[|q| - 1];
      BucketLoaded(s, b, front);
      assert q == front + [x];
      LoadedNext(s, LoadBucket(s, b, front, true), b, front, x);
    }
  }

  lemma {:induction false} BucketsLoaded(s: State, bs: seq<seq<nat>>)
    requires |bs| <= |s.newb|
    requires forall x :: x in s.info ==> s.info[x].refCount == 0 && CountIn(bs, x) <= NEW_BUCKETS_PER_ADDRESS
    requires forall b :: 0 <= b < |bs| ==> Distinct(bs[b]) && forall x :: x in bs[b] ==> x in s.info
    ensures Referred(s, LoadBuckets(s, bs, true), bs)
  {
    if bs != [] {
      var front, q, b := bs[..|bs| - 1], bs[|bs| - 1], |bs| - 1;
      assert forall c :: 0 <= c < |front| ==> front[c] == bs[c];
      forall x | x in s.info ensures CountIn(front, x) + One(x in q) <= NEW_BUCKETS_PER_ADDRESS {
        assert CountIn(bs, x) <= NEW_BUCKETS_PER_ADDRESS;
      }
      BucketsLoaded(s, front);
      var m := LoadBuckets(s, front, true);
      BucketLoaded(m, b, q);
    }
  }

  // assembly

  /** `t` is `s` with its ids renamed: new id `i` stands for old id `a[i]`. */
  ghost predicate Renamed(s: State, t: State, a: seq<nat>) {
    && Distinct(a) && (forall x :: x in a <==> x in s.info)
    && (forall i: nat :: i in t.info <==> i < |a|)
    && (forall i :: 0 <= i < |a| ==>
          t.info[i] == s.info[a[i]].(lastTry := 0, randomPos := t.info[i].randomPos))
    && |t.newb| == |s.newb| && |t.tried| == |s.tried|
    && (forall b, i: nat {:trigger i in t.newb[b]} :: 0 <= b < |s.newb| ==> (i in t.newb[b] <==> i < |a| && a[i] in s.newb[b]))
    && (forall k, i: nat {:trigger i in t.tried[k]} :: 0 <= k < |s.tried| ==> (i in t.tried[k] <==> i < |a| && a[i] in s.tried[k]))
    && t.cfg == s.cfg && t.key == s.key && t.nNew == s.nNew && t.nTried == s.nTried
  }

  lemma JoinAscending(n: set<nat>, m: set<nat>)
    requires n !! m
    ensures var a := Ascending(n) + Ascending(m);
            Distinct(a) && |a| == |n| + |m| && forall x :: x in a <==> x in n + m
  {
    AscendingEnumerates(n);
    AscendingEnumerates(m);
    var p, q := Ascending(n), Ascending(m);
    forall i, j | 0 <= i < |p| && 0 <= j < |q| ensures p[i] != q[j] {
      assert p[i] in p && q[j] in q;
    }
  }

  lemma AddressesDistinct(s: State, a: seq<nat>, all: seq<Stats>)
    requires AddrOk(s.info, s.addr, s.idCount) && Distinct(a) && forall x :: x in a ==> x in s.info
    requires |all| == |a| && forall i :: 0 <= i < |a| ==> all[i] == s.info[a[i]].p
    ensures DistinctAddresses(all)
  {
    forall i, j | 0 <= i < j < |all| ensures all[i].svc.ip != all[j].svc.ip {
      assert a[i] in a && a[j] in a;
    }
  }

  lemma {:induction false} DistinctFits(q: seq<nat>, s: set<nat>)
    requires Distinct(q) && forall x :: x in q ==> x in s
    ensures |q| <= |s|
  {
    if q != [] {
      var x, front := q[|q| - 1], q[..|q| - 1];
      assert x in q;
      forall y | y in front ensures y in s - {x} {
        assert y in q;
      }
      DistinctFits(front, s - {x});
    }
  }

  ghost function Through(a: seq<nat>, r: seq<nat>): (w: seq<nat>)
    requires forall j :: 0 <= j < |r| ==> r[j] < |a|
    ensures |w| == |r| && forall j :: 0 <= j < |r| ==> w[j] == a[r[j]]
  {
    seq(|r|, j requires 0 <= j < |r| => a[r[j]])
  }

  lemma ThroughDistinct(a: seq<nat>, r: seq<nat>)
    requires Distinct(a) && Distinct(r) && forall j :: 0 <= j < |r| ==> r[j] < |a|
    ensures Distinct(Through(a, r))
  {
    var w := Through(a, r);
    forall i, j | 0 <= i < j < |w| ensures w[i] != w[j] {
      assert r[i] != r[j];
    }
  }

  /** No tried entry is lost: the entries read for a bucket are those it held. */
  lemma NoneLost(s: State, a: seq<nat>, qs: seq<Stats>, n: nat, k: nat)
    requires TriedOk(s.cfg, s.key, s.info, s.tried) && k < TRIED_BUCKET_COUNT
    requires Distinct(a) && |a| == n + |qs|
    requires forall i :: n <= i < |a| ==> a[i] in s.info && s.info[a[i]].inTried && qs[i - n] == s.info[a[i]].p
    ensures |Placed(s.cfg, s.key, qs, n, k)| <= TRIED_BUCKET_SIZE
    ensures forall i :: n <= i < |a| ==> (i in Placed(s.cfg, s.key, qs, n, k) <==> a[i] in s.tried[k])
  {
    var r := Placed(s.cfg, s.key, qs, n, k);
    PlacedFacts(s.cfg, s.key, qs, n, k);
    assert forall j :: 0 <= j < |r| ==> r[j] in r;
    var w := Through(a, r);
    ThroughDistinct(a, r);
    forall i | n <= i < |a| ensures i in r <==> a[i] in s.tried[k] {
      assert TriedBucket(s.cfg, s.key, s.info[a[i]]) == BucketFor(s.cfg, s.key, qs[i - n]);
    }
    forall x | x in w ensures x in Elements(s.tried[k]) {
      var j :| 0 <= j < |w| && w[j] == x;
      assert r[j] in r;
    }
    DistinctFits(w, Elements(s.tried[k]));
    ElementsSize(s.tried[k]);
  }

  lemma RanksFacts(q: seq<nat>, xs: seq<nat>)
    requires Distinct(q) && Distinct(xs) && forall x :: x in xs ==> x in q
    ensures Distinct(Ranks(q, xs)) && |Ranks(q, xs)| == |xs|
    ensures forall i: nat :: i in Ranks(q, xs) <==> i < |q| && q[i] in xs
  {
    var r := Ranks(q, xs);
    assert forall j :: 0 <= j < |r| ==> xs[j] in xs && r[j] < |q| && q[r[j]] == xs[j];
    forall i: nat ensures i in r <==> i < |q| && q[i] in xs {
      if i < |q| && q[i] in xs {
        var j :| 0 <= j < |xs| && xs[j] == q[i];
        assert r[j] == i;
      }
    }
  }

  lemma {:induction false} CountsAgree(bs: seq<seq<nat>>, newb: seq<set<nat>>, x: nat, a: nat, m: nat)
    requires m <= |bs| == |newb| && forall b :: 0 <= b < |bs| ==> (x in bs[b] <==> a in newb[b])
    ensures CountIn(bs[..m], x) == CountHeld(newb, a, m)
  {
    if m > 0 {
      CountsAgree(bs, newb, x, a, m - 1);
      assert bs[..m][..m - 1] == bs[..m - 1];
    }
  }

  /** The entries of the file of `s`: `a` is the order of their ids, `all` their
      persisted fields; the first `n` are the new ones. */
  ghost predicate EntriesWritten(s: State, a: seq<nat>, n: nat, all: seq<Stats>) {
    && n <= |a| == |all| && Distinct(a) && DistinctAddresses(all)
    && (forall x :: x in a <==> x in s.info)
    && (forall i :: 0 <= i < |a| ==> s.info[a[i]].inTried == (i >= n) && all[i] == s.info[a[i]].p)
  }

  ghost predicate BucketsWritten(newb: seq<set<nat>>, bs: seq<seq<nat>>, a: seq<nat>, n: nat) {
    && n <= |a| && |bs| == |newb| == NEW_BUCKET_COUNT
    && (forall b :: 0 <= b < |bs| ==> Distinct(bs[b]) && |bs[b]| <= NEW_BUCKET_SIZE)
    && (forall b, i: nat {:trigger i in bs[b]} :: 0 <= b < |bs| ==> (i in bs[b] <==> i < n && a[i] in newb[b]))
  }

  ghost predicate Written(s: State, d: Image, a: seq<nat>, n: nat, all: seq<Stats>) {
    && EntriesWritten(s, a, n, all) && BucketsWritten(s.newb, d.buckets, a, n)
    && d.key == s.key && d.nNew == s.nNew == n && d.nTried == s.nTried == |a| - n
    && d.nUBuckets == NEW_BUCKET_COUNT && d.news == all[..n] && d.trieds == all[n..]
  }

  lemma EntriesAreWritten(s: State, p: seq<nat>, q: seq<nat>)
    requires AddrOk(s.info, s.addr, s.idCount) && Distinct(p + q)
    requires forall x :: x in p <==> x in NewIds(s.info)
    requires forall x :: x in q <==> x in TriedIds(s.info)
    ensures EntriesWritten(s, p + q, |p|, StatsOf(s.info, p) + StatsOf(s.info, q))
  {
    var a, all := p + q, StatsOf(s.info, p) + StatsOf(s.info, q);
    forall i | 0 <= i < |a|
      ensures a[i] in s.info && s.info[a[i]].inTried == (i >= |p|) && all[i] == s.info[a[i]].p
    {
      assert i < |p| ==> p[i] in p;
      assert i >= |p| ==> q[i - |p|] in q;
    }
    assert forall x :: x in a <==> x in p || x in q;
    AddressesDistinct(s, a, all);
  }

  lemma BucketsAreWritten(info: map<nat, Info>, newb: seq<set<nat>>, p: seq<nat>, q: seq<nat>, bs: seq<seq<nat>>)
    requires NewOk(info, newb, {}) && Distinct(p) && forall x :: x in p <==> x in NewIds(info)
    requires bs == BucketRanks(p, newb)
    ensures BucketsWritten(newb, bs, p + q, |p|)
  {
    forall b | 0 <= b < |newb|
      ensures Distinct(bs[b]) && |bs[b]| <= NEW_BUCKET_SIZE && forall i: nat :: i in bs[b] <==> i < |p| && p[i] in newb[b]
    {
      AscendingEnumerates(newb[b]);
      RanksFacts(p, Ascending(newb[b]));
    }
  }

  lemma ImageParts(s: State, p: seq<nat>, q: seq<nat>)
    requires p == Pick(Ids(s.info), s.info, false) && q == Pick(Ids(s.info), s.info, true)
    requires (forall x :: x in p ==> x in s.info) && (forall x :: x in q ==> x in s.info)
    ensures var d := ImageOf(s); var all := StatsOf(s.info, p) + StatsOf(s.info, q);
            && d.key == s.key && d.nNew == s.nNew && d.nTried == s.nTried && d.nUBuckets == NEW_BUCKET_COUNT
            && d.news == all[..|p|] == StatsOf(s.info, p) && d.trieds == all[|p|..] == StatsOf(s.info, q)
            && d.buckets == BucketRanks(p, s.newb)
  {
  }

  lemma ImageIsWritten(s: State) returns (a: seq<nat>, n: nat, all: seq<Stats>)
    requires Inv(s)
    ensures Written(s, ImageOf(s), a, n, all) && WellCounted(ImageOf(s))
  {
    var p, q := Ascending(NewIds(s.info)), Ascending(TriedIds(s.info));
    WhatIsWritten(s);
    JoinAscending(NewIds(s.info), TriedIds(s.info));
    AscendingEnumerates(NewIds(s.info));
    AscendingEnumerates(TriedIds(s.info));
    EntriesAreWritten(s, p, q);
    ImageParts(s, p, q);
    BucketsAreWritten(s.info, s.newb, p, q, ImageOf(s).buckets);
    a, n, all := p + q, |p|, StatsOf(s.info, p) + StatsOf(s.info, q);
  }

  lemma AllPlaced(s: State, a: seq<nat>, n: nat, all: seq<Stats>)
    requires TriedOk(s.cfg, s.key, s.info, s.tried) && EntriesWritten(s, a, n, all)
    ensures PlacedFit(s.cfg, s.key, all[n..], n)
    ensures forall k, i: nat :: 0 <= k < TRIED_BUCKET_COUNT && i < |a| ==>
              (i in Placed(s.cfg, s.key, all[n..], n, k) <==> a[i] in s.tried[k])
  {
    forall k | 0 <= k < TRIED_BUCKET_COUNT
      ensures |Placed(s.cfg, s.key, all[n..], n, k)| <= TRIED_BUCKET_SIZE
      ensures forall i: nat :: i < |a| ==> (i in Placed(s.cfg, s.key, all[n..], n, k) <==> a[i] in s.tried[k])
    {
      NoneLost(s, a, all[n..], n, k);
      PlacedFacts(s.cfg, s.key, all[n..], n, k);
    }
  }

  function EntriesOf(cfg: Config, d: Image): (t: State)
    ensures |t.newb| == NEW_BUCKET_COUNT
  {
    LoadTrieds(LoadNews(Cleared(cfg, d), d.news, false).(idCount := |d.news|), d.trieds)
  }

  /** After the two entry loops: all entries, none lost, no references yet. */
  lemma EntriesAreBuilt(cfg: Config, d: Image, all: seq<Stats>, n: nat)
    requires n <= |all| && DistinctAddresses(all) && d.news == all[..n] && d.trieds == all[n..]
    requires PlacedFit(cfg, d.key, all[n..], n)
    ensures var t := EntriesOf(cfg, d);
            && TriedsAt(t, all, n, |all|) && t.newb == Cleared(cfg, d).newb
            && t.cfg == cfg && t.key == d.key && t.nNew == d.nNew && t.nTried == d.nTried
  {
    NewsLoaded(cfg, d, d.news, n);
    var s1 := LoadNews(Cleared(cfg, d), d.news, false).(idCount := n);
    assert all[n..|all|] == all[n..] && all[n..n] == [];
    assert TriedsAt(s1, all, n, n);
    TriedsLoaded(s1, all, n, |all|);
  }

  lemma CountsAreWritten(s: State, a: seq<nat>, n: nat, all: seq<Stats>, bs: seq<seq<nat>>, x: nat)
    requires TriedOk(s.cfg, s.key, s.info, s.tried) && NewOk(s.info, s.newb, {})
    requires EntriesWritten(s, a, n, all) && BucketsWritten(s.newb, bs, a, n) && x < |a|
    ensures CountIn(bs, x) == s.info[a[x]].refCount <= NEW_BUCKETS_PER_ADDRESS
  {
    var id := a[x];
    assert id in a;
    forall b | 0 <= b < |bs| ensures x in bs[b] <==> id in s.newb[b] {
      assert x in bs[b] <==> x < n && a[x] in s.newb[b];
    }
    CountsAgree(bs, s.newb, x, id, |bs|);
    assert bs[..|bs|] == bs;
    CountHeldIsHolders(s.newb, id, |s.newb|);
    if x >= n {
      assert Holders(s.newb, id) == {};
    }
  }

  /** `e` holds the entries of `s`, renamed by `a`, still without references. */
  ghost predicate EntriesDone(s: State, e: State, a: seq<nat>, n: nat, all: seq<Stats>) {
    && EntriesWritten(s, a, n, all) && Numbered(e, all, n) && e.idCount == |all|
    && |s.tried| == |e.tried| == TRIED_BUCKET_COUNT && |s.newb| == |e.newb| == NEW_BUCKET_COUNT
    && (forall k :: 0 <= k < |e.tried| ==> |e.tried[k]| <= TRIED_BUCKET_SIZE && Distinct(e.tried[k]))
    && (forall k, i: nat {:trigger i in e.tried[k]} :: 0 <= k < |e.tried| ==> (i in e.tried[k] <==> i < |a| && a[i] in s.tried[k]))
    && (forall b :: 0 <= b < |e.newb| ==> e.newb[b] == {})
    && e.cfg == s.cfg && e.key == s.key && e.nNew == s.nNew && e.nTried == s.nTried
  }

  lemma EntriesAreDone(s: State, d: Image, a: seq<nat>, n: nat, all: seq<Stats>)
    requires TriedOk(s.cfg, s.key, s.info, s.tried) && |s.newb| == NEW_BUCKET_COUNT && Written(s, d, a, n, all)
    ensures EntriesDone(s, EntriesOf(s.cfg, d), a, n, all)
  {
    AllPlaced(s, a, n, all);
    EntriesAreBuilt(s.cfg, d, all, n);
    TriedsAreDone(s, EntriesOf(s.cfg, d), a, n, all);
  }

  lemma TriedsAreDone(s: State, e: State, a: seq<nat>, n: nat, all: seq<Stats>)
    requires |s.tried| == TRIED_BUCKET_COUNT && n <= |all| == |a|
    requires TriedsAt(e, all, n, |all|) && e.cfg == s.cfg && e.key == s.key
    requires PlacedFit(s.cfg, s.key, all[n..], n)
    requires forall k, i: nat :: 0 <= k < TRIED_BUCKET_COUNT && i < |a| ==>
              (i in Placed(s.cfg, s.key, all[n..], n, k) <==> a[i] in s.tried[k])
    ensures Numbered(e, all, n) && |e.tried| == TRIED_BUCKET_COUNT
    ensures forall k :: 0 <= k < |e.tried| ==> |e.tried[k]| <= TRIED_BUCKET_SIZE && Distinct(e.tried[k])
    ensures forall k, i: nat {:trigger i in e.tried[k]} :: 0 <= k < |e.tried| ==> (i in e.tried[k] <==> i < |a| && a[i] in s.tried[k])
  {
    assert all[..|all|] == all && all[n..|all|] == all[n..];
    forall k | 0 <= k < |e.tried|
      ensures |e.tried[k]| <= TRIED_BUCKET_SIZE && Distinct(e.tried[k])
      ensures forall i: nat :: i in e.tried[k] <==> i < |a| && a[i] in s.tried[k]
    {
      assert e.tried[k] == Placed(s.cfg, s.key, all[n..], n, k);
      PlacedFacts(s.cfg, s.key, all[n..], n, k);
    }
  }

  /** `t` is `e` with the references of `bs`, which are those of `s`. */
  ghost predicate RefsDone(s: State, e: State, t: State, a: seq<nat>, bs: seq<seq<nat>>) {
    && t == e.(info := t.info, newb := t.newb) && |t.newb| == |e.newb| == |bs|
    && (forall i: nat :: i in t.info <==> i < |a|)
    && (forall i :: 0 <= i < |a| ==> a[i] in s.info && t.info[i] == s.info[a[i]].(lastTry := 0, randomPos := i))
    && (forall b :: 0 <= b < |bs| ==> t.newb[b] == Elements(bs[b]))
  }

  lemma RefsAreDone(s: State, e: State, a: seq<nat>, n: nat, all: seq<Stats>, bs: seq<seq<nat>>)
    requires TriedOk(s.cfg, s.key, s.info, s.tried) && NewOk(s.info, s.newb, {})
    requires EntriesDone(s, e, a, n, all) && BucketsWritten(s.newb, bs, a, n)
    ensures RefsDone(s, e, LoadBuckets(e, bs, true), a, bs)
  {
    forall x | x in e.info ensures CountIn(bs, x) == s.info[a[x]].refCount <= NEW_BUCKETS_PER_ADDRESS {
      CountsAreWritten(s, a, n, all, bs, x);
    }
    KnownIndexes(s, e, a, n, all, bs);
    BucketsLoaded(e, bs);
    EntriesFromReferred(s, e, LoadBuckets(e, bs, true), a, n, all, bs);
    RefsFromReferred(s, e, LoadBuckets(e, bs, true), a, bs);
  }

  lemma KnownIndexes(s: State, e: State, a: seq<nat>, n: nat, all: seq<Stats>, bs: seq<seq<nat>>)
    requires Numbered(e, all, n) && |all| == |a| && BucketsWritten(s.newb, bs, a, n)
    ensures forall b :: 0 <= b < |bs| ==> Distinct(bs[b]) && forall x :: x in bs[b] ==> x in e.info
  {
    forall b, x: nat | 0 <= b < |bs| && x in bs[b] ensures x in e.info {
      assert x in bs[b] <==> x < n && a[x] in s.newb[b];
    }
  }

  lemma EntryFromReferred(s: State, e: State, t: State, a: seq<nat>, n: nat, all: seq<Stats>, bs: seq<seq<nat>>, i: nat)
    requires EntriesWritten(s, a, n, all) && Numbered(e, all, n) && i < |a|
    requires |bs| <= |e.newb| && Referred(e, t, bs)
    requires i in e.info ==> CountIn(bs, i) == s.info[a[i]].refCount
    ensures t.info[i] == s.info[a[i]].(lastTry := 0, randomPos := i)
  {
    assert i in e.info && e.info[i] == Slot(all, n, i);
    assert t.info[i] == Slot(all, n, i).(refCount := s.info[a[i]].refCount);
    assert all[i] == s.info[a[i]].p;
  }

  lemma RefsFromReferred(s: State, e: State, t: State, a: seq<nat>, bs: seq<seq<nat>>)
    requires |bs| == |e.newb| && Referred(e, t, bs)
    requires forall b :: 0 <= b < |e.newb| ==> e.newb[b] == {}
    requires forall i: nat :: i in e.info <==> i < |a|
    requires forall i :: 0 <= i < |a| ==> a[i] in s.info && t.info[i] == s.info[a[i]].(lastTry := 0, randomPos := i)
    ensures RefsDone(s, e, t, a, bs)
  {
  }

  lemma EntriesFromReferred(s: State, e: State, t: State, a: seq<nat>, n: nat, all: seq<Stats>, bs: seq<seq<nat>>)
    requires EntriesWritten(s, a, n, all) && Numbered(e, all, n) && |bs| == |e.newb| && Referred(e, t, bs)
    requires forall x :: x in e.info ==> CountIn(bs, x) == s.info[a[x]].refCount
    ensures forall i :: 0 <= i < |a| ==> t.info[i] == s.info[a[i]].(lastTry := 0, randomPos := i)
  {
    forall i | 0 <= i < |a| ensures t.info[i] == s.info[a[i]].(lastTry := 0, randomPos := i) {
      EntryFromReferred(s, e, t, a, n, all, bs, i);
    }
  }

  lemma RenamedFrom(s: State, e: State, t: State, a: seq<nat>, n: nat, all: seq<Stats>, bs: seq<seq<nat>>)
    requires NewOk(s.info, s.newb, {})
    requires EntriesDone(s, e, a, n, all) && RefsDone(s, e, t, a, bs) && BucketsWritten(s.newb, bs, a, n)
    ensures Renamed(s, t, a)
  {
    forall b, i: nat | 0 <= b < |s.newb| ensures i in t.newb[b] <==> i < |a| && a[i] in s.newb[b] {
      assert i in t.newb[b] <==> i in bs[b];
      HeldAreNew(s, a, n, all, b, i);
    }
  }

  lemma HeldAreNew(s: State, a: seq<nat>, n: nat, all: seq<Stats>, b: nat, i: nat)
    requires EntriesWritten(s, a, n, all) && NewOk(s.info, s.newb, {}) && b < |s.newb|
    ensures i < |a| && a[i] in s.newb[b] ==> i < n
  {
  }

  // consistency of the result

  lemma RenamedRandom(t: State, a: seq<nat>)
    requires |t.random| == |a| && (forall i :: 0 <= i < |a| ==> t.random[i] == i)
    requires forall i: nat :: i in t.info <==> i < |a|
    requires forall i: nat :: i < |a| ==> t.info[i].randomPos == i
    ensures RandomOk(t.info, t.random)
  {
  }

  lemma RenamedTried(s: State, t: State, a: seq<nat>)
    requires TriedOk(s.cfg, s.key, s.info, s.tried) && Renamed(s, t, a)
    requires forall k :: 0 <= k < |t.tried| ==> |t.tried[k]| <= TRIED_BUCKET_SIZE && Distinct(t.tried[k])
    ensures TriedOk(t.cfg, t.key, t.info, t.tried)
  {
    forall k, id: nat | 0 <= k < |t.tried| && id in t.tried[k]
      ensures id in t.info && t.info[id].inTried && TriedBucket(t.cfg, t.key, t.info[id]) == k
    {
      assert id < |a| && a[id] in s.tried[k];
    }
    forall id | id in t.info && t.info[id].inTried
      ensures t.info[id].refCount == 0 && id in t.tried[TriedBucket(t.cfg, t.key, t.info[id])]
    {
      assert a[id] in a;
    }
  }

  lemma RenamedNew(s: State, t: State, a: seq<nat>)
    requires NewOk(s.info, s.newb, {}) && Renamed(s, t, a)
    requires forall b :: 0 <= b < |t.newb| ==> |t.newb[b]| <= NEW_BUCKET_SIZE
    ensures NewOk(t.info, t.newb, {})
  {
    forall id | id in t.info ensures Holders(t.newb, id) == Holders(s.newb, a[id]) {
    }
    forall b, id: nat | 0 <= b < |t.newb| && id in t.newb[b] ensures id in t.info && !t.info[id].inTried {
      assert id < |a| && a[id] in s.newb[b];
    }
    forall id | id in t.info && !t.info[id].inTried
      ensures 1 <= t.info[id].refCount <= NEW_BUCKETS_PER_ADDRESS && t.info[id].refCount == |Holders(t.newb, id)|
    {
      assert a[id] in a;
    }
  }

  lemma RenamedAddr(s: State, t: State, a: seq<nat>, all: seq<Stats>)
    requires Renamed(s, t, a) && |all| == |a| && t.idCount == |all|
    requires forall i :: 0 <= i < |a| ==> t.info[i].p == all[i]
    requires forall i: nat :: i < |all| ==> all[i].svc.ip in t.addr && t.addr[all[i].svc.ip] == i
    requires forall x :: x in t.addr ==> t.addr[x] < |all| && all[t.addr[x]].svc.ip == x
    ensures AddrOk(t.info, t.addr, t.idCount)
  {
  }

  lemma RangeSize(s: set<nat>, lo: nat, hi: nat)
    requires lo <= hi && forall i: nat :: i in s <==> lo <= i < hi
    ensures |s| == hi - lo
    decreases hi - lo
  {
    if lo == hi {
      assert s == {};
    } else {
      RangeSize(s - {lo}, lo + 1, hi);
    }
  }

  lemma RenamedCounts(s: State, t: State, a: seq<nat>, n: nat)
    requires Renamed(s, t, a) && n <= |a| && s.nNew == n && s.nTried == |a| - n
    requires forall i :: 0 <= i < |a| ==> a[i] in s.info && s.info[a[i]].inTried == (i >= n)
    ensures CountsOk(t.info, t.nNew, t.nTried)
  {
    forall i: nat ensures i in NewIds(t.info) <==> 0 <= i < n {}
    forall i: nat ensures i in TriedIds(t.info) <==> n <= i < |a| {}
    RangeSize(NewIds(t.info), 0, n);
    RangeSize(TriedIds(t.info), n, |a|);
  }

  lemma BuiltIsConsistent(s: State, e: State, t: State, a: seq<nat>, n: nat, all: seq<Stats>, bs: seq<seq<nat>>)
    requires Inv(s) && s.nNew == n && s.nTried == |a| - n && Renamed(s, t, a)
    requires EntriesDone(s, e, a, n, all) && RefsDone(s, e, t, a, bs) && BucketsWritten(s.newb, bs, a, n)
    ensures Inv(t)
  {
    RenamedRandom(t, a);
    RenamedTried(s, t, a);
    forall b | 0 <= b < |t.newb| ensures |t.newb[b]| <= NEW_BUCKET_SIZE {
      ElementsSize(bs[b]);
    }
    RenamedNew(s, t, a);
    RenamedAddr(s, t, a, all);
    RenamedCounts(s, t, a, n);
  }

  /** Writing a consistent manager and reading the stream back gives the same
      tables up to a renaming of ids (and times of the last try, which are not
      stored), consistent again, with no tried entry lost. */
  lemma RoundTrip(s: State) returns (a: seq<nat>, t: State)
    requires Inv(s)
    ensures var d := ImageOf(s);
            && Parse(Flatten(d)) == Some(d) && |d.buckets| == NEW_BUCKET_COUNT && t == Build(s.cfg, d)
            && Renamed(s, t, a) && Inv(t)
  {
    var n, all;
    a, n, all := ImageIsWritten(s);
    var d := ImageOf(s);
    ParseFlatten(d);
    var e := EntriesOf(s.cfg, d);
    EntriesAreDone(s, d, a, n, all);
    RefsAreDone(s, e, a, n, all, d.buckets);
    t := Build(s.cfg, d);
    RenamedFrom(s, e, t, a, n, all, d.buckets);
    BuiltIsConsistent(s, e, t, a, n, all, d.buckets);
  }

  lemma {:induction false} PickPrefix(q: seq<nat>, info: map<nat, Info>, tried: bool, i: nat)
    requires i <= |q| && forall x :: x in q ==> x in info
    ensures Pick(q[..i], info, tried) <= Pick(q, info, tried)
  {
    if i < |q| {
      PickPrefix(q[..|q| - 1], info, tried, i);
      assert q[..|q| - 1][..i] == q[..i];
    } else {
      assert q[..i] == q;
    }
  }

  lemma PickNext(q: seq<nat>, info: map<nat, Info>, tried: bool, i: nat)
    requires i < |q| && forall x :: x in q ==> x in info
    ensures Pick(q[..i + 1], info, tried) == Pick(q[..i], info, tried) + if Picks(info[q[i]], tried) then [q[i]] else []
  {
    assert q[..i + 1][..i] == q[..i];
  }

  lemma {:induction false} RankOf(q: seq<nat>, j: nat)
    requires j < |q| && Distinct(q)
    ensures Rank(q, q[j]) == j
  {
    if j > 0 {
      assert q[0] != q[j];
      RankOf(q[1..], j - 1);
    }
  }

  // --- the writing loops ---------------------------------------------------------

  /** Where a loop over `ids` stands after `i` entries: the first of the picked
      entries are in `ps`, and `unk` knows their ranks. */
  ghost predicate WriteAt(ids: seq<nat>, info: map<nat, Info>, tried: bool, i: nat,
                          ps: seq<Stats>, unk: map<nat, nat>)
    requires forall x :: x in ids ==> x in info
  {
    && i <= |ids|
    && var n := Pick(ids, info, tried);
       && |ps| == |Pick(ids[..i], info, tried)| && Pick(ids[..i], info, tried) <= n
       && (forall j :: 0 <= j < |ps| ==> n[j] in info && ps[j] == info[n[j]].p)
       && (forall j :: 0 <= j < |ps| ==> n[j] in unk && unk[n[j]] == j)
       && (forall x :: x in unk ==> x in ids[..i])
  }

  lemma WriteNext(ids: seq<nat>, info: map<nat, Info>, tried: bool, i: nat, ps: seq<Stats>, unk: map<nat, nat>)
    requires Ascends(ids) && (forall x :: x in ids ==> x in info) && i < |ids|
    requires WriteAt(ids, info, tried, i, ps, unk)
    ensures WriteAt(ids, info, tried, i + 1,
                    ps + if Picks(info[ids[i]], tried) then [info[ids[i]].p] else [], unk[ids[i] := |ps|])
  {
    var n, id := Pick(ids, info, tried), ids[i];
    PickPrefix(ids, info, tried, i + 1);
    PickNext(ids, info, tried, i);
    assert ids[..i + 1] == ids[..i] + [id];
    assert id !in ids[..i];
    forall j | 0 <= j < |ps| ensures n[j] != id {
      assert n[j] in unk;
    }
  }

  lemma WriteDone(ids: seq<nat>, info: map<nat, Info>, tried: bool, i: nat, ps: seq<Stats>, unk: map<nat, nat>)
    requires Ascends(ids) && (forall x :: x in ids ==> x in info)
    requires WriteAt(ids, info, tried, i, ps, unk)
    requires i == |ids| || |ps| == |Pick(ids, info, tried)|
    ensures var n := Pick(ids, info, tried);
            && (forall x :: x in n ==> x in info) && ps == StatsOf(info, n)
            && forall x :: x in n ==> x in unk && unk[x] == Rank(n, x)
  {
    var n := Pick(ids, info, tried);
    PickIn(ids, info, tried);
    PickAscends(ids, info, tried);
    assert |ps| == |n| by {
      assert ids[..|ids|] == ids;
    }
    RanksKnown(n, unk);
  }

  lemma RanksKnown(n: seq<nat>, unk: map<nat, nat>)
    requires Distinct(n)
    requires forall j :: 0 <= j < |n| ==> n[j] in unk && unk[n[j]] == j
    ensures forall x :: x in n ==> x in unk && unk[x] == Rank(n, x)
  {
    forall x | x in n ensures x in unk && unk[x] == Rank(n, x) {
      var j :| 0 <= j < |n| && n[j] == x;
      RankOf(n, j);
    }
  }
}
