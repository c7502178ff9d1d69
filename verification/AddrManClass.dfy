/** The address manager as the object it is: fields updated in place, method by
    method, each tied to what the operation computes on the tables. */
module AddrManClass {
  import opened SortedSets
  import opened AddrManModel
  import opened AddrManProofs
  import opened AddrManTried
  import opened AddrManRuns
  import opened AddrManDisk
  import opened Common

  /** The better of a position already chosen (or none) and a later one. */
  function Better(q: seq<nat>, info: map<nat, Info>, cur: int, j: nat): int
    requires -1 <= cur < |q| && j <= |q| && forall x :: x in q ==> x in info
  {
    if cur == -1 || (j < |q| && info[q[j]].p.time < info[q[cur]].p.time) then j else cur
  }

  /** `newb` with `id` erased from the first `n` buckets. */
  function ErasedBelow(newb: seq<set<nat>>, id: nat, n: nat): (r: seq<set<nat>>) {
    seq(|newb|, b requires 0 <= b < |newb| => if b < n then newb[b] - {id} else newb[b])
  }

  ghost predicate RandomAt(s: State) {
    match s
    case State(_, _, _, info, _, random, _, _, _, _) => RandomOk(info, random)
  }

  lemma RandomEnds(s: State, id: nat)
    requires RandomAt(s) && Ready(s) && id in s.info
    ensures s.random[s.info[id].randomPos] == id
    ensures s.info[s.random[|s.random| - 1]].randomPos == |s.random| - 1
  {
  }

  lemma BumpRandom(s: State, id: nat, n: int)
    requires RandomAt(s) && id in s.info
    ensures RandomAt(SetRef(s, id, n))
  {
    SetRefKeepsRandom(s, id, n);
  }

  lemma FreshRandom(s: State, a: Address, source: NetAddr, penalty: int)
    requires RandomAt(s) && s.idCount !in s.info
    ensures RandomAt(Fresh(s, a, source, penalty))
  {
  }

  lemma RefreshReady(s: State, id: nat, i: Info)
    requires Ready(s) && RandomAt(s) && id in s.info && SamePlace(s.info[id], i)
    ensures Ready(s.(info := s.info[id := i])) && RandomAt(s.(info := s.info[id := i]))
  {
  }

  class AddrMan {
    const cfg: Config
    var key: Key
    var idCount: nat
    var info: map<nat, Info>
    var addr: map<NetAddr, nat>
    var random: seq<nat>
    var nTried: int
    var tried: seq<seq<nat>>
    var nNew: int
    var newb: seq<set<nat>>

    function Snap(): State
      reads this
    {
      State(cfg, key, idCount, info, addr, random, nTried, tried, nNew, newb)
    }

    constructor (cfg: Config, key: Key)
      ensures Snap() == Empty(cfg, key) && Inv(Snap()) && TimesOk(Snap())
    {
      this.cfg, this.key, idCount := cfg, key, 0;
      info, addr, random := map[], map[], [];
      nTried, tried := 0, seq(TRIED_BUCKET_COUNT, _ => []);
      nNew, newb := 0, seq(NEW_BUCKET_COUNT, _ => {});
      new;
      EmptyIsConsistent(cfg, key);
      assert Snap() == Empty(cfg, key);
    }

    method Lookup(ip: NetAddr) returns (found: bool, id: nat)
      ensures found == Find(Snap(), ip)
      ensures found ==> id == addr[ip]
    {
      found, id := false, 0;
      if ip in addr {
        id := addr[ip];
        found := id in info;
      }
    }

    method CreateEntry(a: Address, source: NetAddr) returns (id: nat)
      modifies this
      ensures Snap() == Create(old(Snap()), a, source) && id == old(idCount)
    {
      id := idCount;
      idCount := idCount + 1;
      info := info[id := Info(Stats(a.svc, a.services, a.time, source, 0, 0), 0, 0, false, -1)];
      addr := addr[a.svc.ip := id];
      info := info[id := info[id].(randomPos := |random|)];
      random := random + [id];
    }

    method SwapRandom(p: nat, q: nat)
      requires p < |random| && q < |random| && random[p] in info && random[q] in info
      requires info[random[p]].randomPos == p && info[random[q]].randomPos == q
      modifies this`info, this`random
      ensures info == SwapPositions(old(info), old(random[p]), old(random[q]))
      ensures random == SwapAt(old(random), p, q)
    {
      if p == q { return; }
      var a: nat, b: nat := random[p], random[q];
      info := info[a := info[a].(randomPos := q)];
      info := info[b := info[b].(randomPos := p)];
      random := random[p := b];
      random := random[q := a];
    }

    /** Drops the reference to `id` in bucket `b`, deleting the entry with its
        last reference (the common tail of ShrinkNew's two exits). */
    method Unreference(b: nat, id: nat)
      requires Linked(info, random) && id in info && b < |newb|
      requires random[info[id].randomPos] == id && info[random[|random| - 1]].randomPos == |random| - 1
      modifies this
      ensures Linked(old(info), old(random)) && Snap() == DropRef(old(Snap()), b, id)
    {
      SetRefIndexes(Snap(), id, info[id].refCount - 1);
      info := info[id := info[id].(refCount := info[id].refCount - 1)];
      if info[id].refCount == 0 {
        assert random[info[id].randomPos] == id;
        SwapRandom(info[id].randomPos, |random| - 1);
        random := random[..|random| - 1];
        addr := addr - {info[id].p.svc.ip};
        info := info - {id};
        nNew := nNew - 1;
      }
      newb := newb[b := newb[b] - {id}];
    }

    /** One iteration of SelectTried. */
    method InspectNext(c: Scan, rnd: Draws, base: nat, i: nat) returns (d: Scan)
      requires ScanOk(c, info, i) && i < |c.v|
      ensures d == InspectOne(c, info, rnd, base, i)
    {
      var v: seq<nat> := c.v;
      var p := Draw(rnd, base + i, |v| - i) + i;
      var temp: nat := v[p];
      v := v[p := v[i]];
      v := v[i := temp];
      d := c.(v := v);
      assert c.oldest == -1 || temp in info;
      if c.oldest == -1 || info[temp].p.lastSuccess < info[c.oldest].p.lastSuccess {
        d := d.(oldest := temp, pos := p);
      }
    }

    /** The loop of SelectTried on one bucket. */
    method InspectBucket(v: seq<nat>, rnd: Draws, base: nat) returns (c: Scan)
      requires v != [] && forall x :: x in v ==> x in info
      ensures c == SelectTried(v, info, rnd, base)
    {
      c := Scan(v, -1, -1);
      var i := 0;
      while i < TRIED_ENTRIES_INSPECT_ON_EVICT && i < |c.v|
        invariant ScanOk(c, info, i) && SelectTried(v, info, rnd, base) == Inspect(c, info, rnd, base, i)
      {
        c := InspectNext(c, rnd, base, i);
        i := i + 1;
      }
    }

    method SelectTriedPos(k: nat, rnd: Draws, base: nat) returns (pos: int)
      requires k < |tried| && tried[k] != [] && forall x :: x in tried[k] ==> x in info
      modifies this`tried
      ensures var p := SelectTried(old(tried[k]), info, rnd, base);
              tried == old(tried)[k := p.v] && pos == p.pos
    {
      var c := InspectBucket(tried[k], rnd, base);
      tried := tried[k := c.v];
      pos := c.pos;
    }

    /** The two scans of ShrinkNew: the first terrible entry of the bucket in
        ascending order of ids, or else the oldest of four random picks. */
    method FindVictim(b: nat, now: int, rnd: Draws, base: nat) returns (id: nat, code: int)
      requires b < |newb| && newb[b] != {} && forall x :: x in newb[b] ==> x in info
      ensures id == ShrinkVictim(Snap(), b, now, rnd, base)
      ensures code == if exists x :: x in newb[b] && IsTerrible(info[x], now) then 0 else 1
    {
      var q: seq<nat> := Ascending(newb[b]);
      AscendingEnumerates(newb[b]);
      var i := 0;
      while i < |q|
        invariant i <= |q|
        invariant FirstTerrible(q, info, now, 0) == FirstTerrible(q, info, now, i)
        invariant forall k :: 0 <= k < i ==> !IsTerrible(info[q[k]], now)
      {
        if IsTerrible(info[q[i]], now) {
          assert q[i] in newb[b];
          return q[i], 0;
        }
        i := i + 1;
      }
      id := OldestOfFour(q, rnd, base);
      code := 1;
    }

    method OldestOfFour(q: seq<nat>, rnd: Draws, base: nat) returns (id: nat)
      requires q != [] && forall x :: x in q ==> x in info
      ensures var k := OldestChosen(q, info, FourDraws(rnd, base, |q|), 0);
              k < |q| && id == q[k]
    {
      var n := [Draw(rnd, base, |q|), Draw(rnd, base + 1, |q|), Draw(rnd, base + 2, |q|), Draw(rnd, base + 3, |q|)];
      var oldest: int := -1;
      var i := 0;
      while i < |q|
        invariant i <= |q| && -1 <= oldest < |q|
        invariant OldestChosen(q, info, n, 0) == Better(q, info, oldest, OldestChosen(q, info, n, i))
      {
        if i in n && (oldest == -1 || info[q[i]].p.time < info[q[oldest]].p.time) {
          oldest := i;
        }
        i := i + 1;
      }
      OldestChosenIsOldest(q, info, n, 0);
      assert n[0] in n;
      id := q[oldest];
    }

    /** Returns 0 when a terrible entry was removed, 1 when an old one was. */
    method ShrinkNewBucket(b: nat, now: int, rnd: Draws, base: nat) returns (code: int)
      requires Ready(Snap()) && RandomAt(Snap()) && b < NEW_BUCKET_COUNT && newb[b] != {}
      modifies this
      ensures old(Ready(Snap())) && Snap() == ShrinkNew(old(Snap()), b, now, rnd, base)
      ensures code == 0 <==> exists x :: x in old(newb[b]) && IsTerrible(old(info[x]), now)
      ensures code == 0 || code == 1
    {
      var id: nat;
      id, code := FindVictim(b, now, rnd, base);
      RandomEnds(Snap(), id);
      Unreference(b, id);
    }

    /** The first loop of MakeTried. */
    method EraseFromNew(id: nat)
      requires id in info
      modifies this`newb, this`info
      ensures newb == Without(old(newb), id)
      ensures info == old(info)[id := old(info[id]).(refCount := old(info[id].refCount - CountHeld(newb, id, |newb|)))]
    {
      ghost var w: seq<set<nat>> := newb;
      ghost var m: map<nat, Info> := info;
      assert newb == ErasedBelow(w, id, 0);
      var b := 0;
      while b < |newb|
        invariant b <= |newb| == |w| && newb == ErasedBelow(w, id, b)
        invariant info == m[id := m[id].(refCount := m[id].refCount - CountHeld(w, id, b))]
      {
        assert newb[b] == w[b];
        if id in newb[b] {
          newb := newb[b := newb[b] - {id}];
          info := info[id := info[id].(refCount := info[id].refCount - 1)];
        } else {
          assert w[b] - {id} == w[b];
        }
        assert newb == ErasedBelow(w, id, b + 1);
        b := b + 1;
      }
      assert newb == Without(w, id);
    }

    /** The eviction branch of MakeTried; `id` has left the new buckets. */
    method ReplaceTriedEntry(id: nat, k: nat, origin: nat, rnd: Draws, base: nat)
      requires |newb| == NEW_BUCKET_COUNT && origin < NEW_BUCKET_COUNT && k < |tried| && tried[k] != []
      requires id in info && forall x :: x in tried[k] ==> x in info && x != id
      modifies this
      ensures Snap() == Evict(old(Snap()), id, k, origin, PickTried(old(tried[k]), old(info), rnd, base))
    {
      ghost var p := SelectTried(tried[k], info, rnd, base);
      ghost var bucket0: seq<nat> := tried[k];
      var pos := SelectTriedPos(k, rnd, base);
      var ev: nat := tried[k][pos];
      assert ev in multiset(p.v);
      assert ev in bucket0;
      assert ev in info;
      SendBack(ev, origin);
      var bucket: seq<nat> := tried[k];
      bucket := bucket[pos := id];
      tried := tried[k := bucket];
      info := info[id := info[id].(inTried := true)];
    }

    /** The evicted entry becomes a new one, in a bucket of its own or in `origin`. */
    method SendBack(ev: nat, origin: nat)
      requires |newb| == NEW_BUCKET_COUNT && origin < NEW_BUCKET_COUNT && ev in info
      modifies this`info, this`newb, this`nNew
      ensures var b := NewBucket(cfg, key, old(info[ev]), old(info[ev]).p.source);
              var dest := if |old(newb)[b]| < NEW_BUCKET_SIZE then b else origin;
              newb == old(newb)[dest := old(newb)[dest] + {ev}]
      ensures info == old(info)[ev := old(info[ev]).(inTried := false, refCount := 1)] && nNew == old(nNew) + 1
    {
      var ub := NewBucket(cfg, key, info[ev], info[ev].p.source);
      info := info[ev := info[ev].(inTried := false)];
      info := info[ev := info[ev].(refCount := 1)];
      if |newb[ub]| < NEW_BUCKET_SIZE {
        newb := newb[ub := newb[ub] + {ev}];
      } else {
        newb := newb[origin := newb[origin] + {ev}];
      }
      nNew := nNew + 1;
    }

    method MoveToTried(id: nat, origin: nat, rnd: Draws, base: nat)
      requires Follows(Snap(), id) && origin < NEW_BUCKET_COUNT && id in newb[origin]
      requires CountHeld(newb, id, |newb|) == info[id].refCount
      modifies this
      ensures old(Follows(Snap(), id)) && Snap() == MakeTried(old(Snap()), id, origin, rnd, base)
    {
      EraseFromNew(id);
      nNew := nNew - 1;
      assert info[id].refCount == 0;
      var k := TriedBucket(cfg, key, info[id]);
      if |tried[k]| < TRIED_BUCKET_SIZE {
        tried := tried[k := tried[k] + [id]];
        nTried := nTried + 1;
        info := info[id := info[id].(inTried := true)];
      } else {
        ReplaceTriedEntry(id, k, origin, rnd, base);
      }
    }

    /** The search of Good_ for a bucket that holds the entry. */
    method FindNewBucket(id: nat, r: nat) returns (ub: int)
      ensures ub == FindBucket(newb, id, r, 0)
    {
      ub := -1;
      var n := 0;
      while n < |newb|
        invariant n <= |newb| && FindBucket(newb, id, r, 0) == FindBucket(newb, id, r, n)
      {
        var b := Wrap(n, r, |newb|);
        if id in newb[b] { return b; }
        n := n + 1;
      }
    }

    method Good_(svc: Service, time: int, rnd: Draws)
      requires Ready(Snap())
      requires forall x :: x in info && !info[x].inTried ==> CountHeld(newb, x, |newb|) == info[x].refCount
      modifies this
      ensures old(Ready(Snap())) && Snap() == Good(old(Snap()), svc, time, rnd)
    {
      var found, id := Lookup(svc.ip);
      if !found || info[id].p.svc != svc { return; }
      info := info[id := info[id].(p := info[id].p.(lastSuccess := time, time := ToU32(time), attempts := 0), lastTry := time)];
      if info[id].inTried { return; }
      var ub := FindNewBucket(id, Draw(rnd, 0, |newb|));
      if ub == -1 { return; }
      MoveToTried(id, ub, rnd, 1);
    }

    /** How many times harder the next reference is than the first. */
    static method Factor(refCount: int) returns (factor: nat)
      ensures factor == if refCount <= 0 then 1 else Pow2(refCount)
      ensures refCount > 0 ==> factor > 1
    {
      factor := 1;
      var n := 0;
      while n < refCount
        invariant 0 <= n && (n <= refCount || n == 0) && factor == Pow2(n)
      {
        factor := factor * 2;
        n := n + 1;
      }
    }

    /** The part of Add_ for an address already known: whether to go on. */
    method RefreshEntry(id: nat, a: Address, penalty: int, now: int, rnd: Draws) returns (more: bool)
      requires id in info
      modifies this`info
      ensures info == old(info)[id := Refresh(old(info[id]), a, penalty, now)]
      ensures more == WantsRef(Refresh(old(info[id]), a, penalty, now), a, rnd)
    {
      var online := now - a.time < 24 * 60 * 60;
      var interval := if online then 60 * 60 else 24 * 60 * 60;
      if a.time != 0 && (info[id].p.time == 0 || info[id].p.time < a.time - interval - penalty) {
        info := info[id := info[id].(p := info[id].p.(time := ToU32(Max(0, a.time - penalty))))];
      }
      info := info[id := info[id].(p := info[id].p.(services := info[id].p.services + a.services))];
      if a.time == 0 || (info[id].p.time != 0 && a.time <= info[id].p.time) { return false; }
      if info[id].inTried { return false; }
      if info[id].refCount == NEW_BUCKETS_PER_ADDRESS { return false; }
      var factor := Factor(info[id].refCount);
      if factor > 1 && Draw(rnd, 0, factor) != 0 { return false; }
      return true;
    }

    method Add_(a: Address, source: NetAddr, penalty: int, now: int, rnd: Draws) returns (isNew: bool)
      requires Ready(Snap()) && RandomAt(Snap())
      modifies this
      ensures old(Ready(Snap())) && Added(Snap(), isNew) == Add(old(Snap()), a, source, penalty, now, rnd)
    {
      ghost var s := Snap();
      if !cfg.routable(a.svc.ip) { return false; }
      var found, id := Lookup(a.svc.ip);
      if found {
        var more := RefreshEntry(id, a, penalty, now, rnd);
        RefreshReady(s, id, info[id]);
        if !more { return false; }
        isNew := false;
      } else {
        FreshReady(s, a, source, penalty);
        FreshRandom(s, a, source, penalty);
        id := CreateEntry(a, source);
        info := info[id := info[id].(p := info[id].p.(time := ToU32(Max(0, info[id].p.time - penalty))))];
        nNew := nNew + 1;
        isNew := true;
        assert Snap() == Fresh(s, a, source, penalty);
      }
      InsertReference(id, source, now, rnd);
    }

    /** The common end of Add_: one more bucket refers to the entry. */
    method InsertReference(id: nat, source: NetAddr, now: int, rnd: Draws)
      requires Ready(Snap()) && RandomAt(Snap()) && id in info
      modifies this
      ensures old(Ready(Snap())) && Snap() == Refer(old(Snap()), id, source, now, rnd)
    {
      var b := NewBucket(cfg, key, info[id], source);
      if id !in newb[b] {
        SetRefReady(Snap(), id, info[id].refCount + 1);
        BumpRandom(Snap(), id, info[id].refCount + 1);
        info := info[id := info[id].(refCount := info[id].refCount + 1)];
        assert Snap() == SetRef(old(Snap()), id, old(info[id]).refCount + 1);
        InsertMakingRoom(id, b, now, rnd);
      }
    }

    method InsertMakingRoom(id: nat, b: nat, now: int, rnd: Draws)
      requires Ready(Snap()) && RandomAt(Snap()) && b < NEW_BUCKET_COUNT
      modifies this
      ensures old(Ready(Snap()))
      ensures var u := if |old(newb)[b]| == NEW_BUCKET_SIZE then ShrinkNew(old(Snap()), b, now, rnd, 1) else old(Snap());
              Snap() == u.(newb := u.newb[b := u.newb[b] + {id}])
    {
      if |newb[b]| == NEW_BUCKET_SIZE {
        var code := ShrinkNewBucket(b, now, rnd, 1);
      }
      newb := newb[b := newb[b] + {id}];
    }

    method Attempt_(svc: Service, time: int)
      modifies this
      ensures Snap() == Attempt(old(Snap()), svc, time)
    {
      var found, id := Lookup(svc.ip);
      if !found || info[id].p.svc != svc { return; }
      info := info[id := info[id].(lastTry := time)];
      info := info[id := info[id].(p := info[id].p.(attempts := info[id].p.attempts + 1))];
    }

    method Connected_(svc: Service, time: int)
      modifies this
      ensures Snap() == Connected(old(Snap()), svc, time)
    {
      var found, id := Lookup(svc.ip);
      if !found || info[id].p.svc != svc { return; }
      if time - info[id].p.time > 20 * 60 {
        info := info[id := info[id].(p := info[id].p.(time := ToU32(time)))];
      }
    }

    /** One iteration of GetAddr_. */
    method ShuffleOne(n: nat, rnd: Draws)
      requires n < |random| && RandomOk(info, random) && Known(info, random)
      modifies this
      ensures Snap() == Shuffle(old(Snap()), n, rnd)
    {
      var p := Draw(rnd, n, |random| - n) + n;
      SwapRandom(n, p);
    }

    method GetAddr_(rnd: Draws) returns (list: seq<Info>)
      requires RandomOk(info, random) && Known(info, random)
      modifies this
      ensures Listed(Snap(), list) == GetAddr(old(Snap()), 0, GetAddrCount(|old(random)|), [], rnd)
    {
      ghost var s := Snap();
      var count := GetAddrCount(|random|);
      list := [];
      var n := 0;
      while n < count
        invariant n <= count <= |random| && RandomOk(info, random) && Known(info, random)
        invariant GetAddr(s, 0, count, [], rnd) == GetAddr(Snap(), n, count, list, rnd)
      {
        ShuffleRandom(Snap(), n, rnd);
        ShuffleOne(n, rnd);
        list := list + [info[random[n]]];
        n := n + 1;
      }
    }

    /** Any one operation, from consistent tables to consistent tables. */
    method Perform(op: Op)
      requires Inv(Snap())
      modifies this
      ensures old(Ready(Snap())) && Snap() == Step(old(Snap()), op) && Inv(Snap())
    {
      ghost var s := Snap();
      StepKeeps(s, op);
      MethodsReady(s);
      match op
      case OpAdd(a, source, penalty, now, rnd) => var isNew := Add_(a, source, penalty, now, rnd);
      case OpGood(svc, time, rnd) => Good_(svc, time, rnd);
      case OpAttempt(svc, time) => Attempt_(svc, time);
      case OpConnected(svc, time) => Connected_(svc, time);
      case OpGetAddr(rnd) => var list := GetAddr_(rnd);
    }

    // --- the address file -----------------------------------------------------------

    /** One of the two loops over `mapInfo` that write entries, with its break
        at the counter; the map is `mapUnkIds`, which the first of them fills. */
    method WriteEntries(tried: bool, limit: int) returns (ps: seq<Stats>, unk: map<nat, nat>)
      requires limit == |Pick(Ids(info), info, tried)|
      ensures var n := Pick(Ids(info), info, tried);
              && (forall x :: x in n ==> x in info) && ps == StatsOf(info, n)
              && forall x :: x in n ==> x in unk && unk[x] == Rank(n, x)
    {
      var ids := Ids(info);
      AscendingEnumerates(info.Keys);
      ps, unk := [], map[];
      var i := 0;
      while i < |ids|
        invariant WriteAt(ids, info, tried, i, ps, unk)
      {
        if |ps| == limit { break; }
        ps, unk := WriteEntry(ids, tried, i, ids[i], ps, unk);
        i := i + 1;
      }
      WriteDone(ids, info, tried, i, ps, unk);
    }

    /** One iteration. */
    method WriteEntry(ghost ids: seq<nat>, tried: bool, ghost i: nat, id: nat, ps: seq<Stats>, unk: map<nat, nat>)
      returns (ps2: seq<Stats>, unk2: map<nat, nat>)
      requires Ascends(ids) && (forall x :: x in ids ==> x in info) && i < |ids| && id == ids[i]
      requires WriteAt(ids, info, tried, i, ps, unk)
      ensures WriteAt(ids, info, tried, i + 1, ps2, unk2)
    {
      WriteNext(ids, info, tried, i, ps, unk);
      ps2, unk2 := ps, unk[id := |ps|];
      if Picks(info[id], tried) {
        ps2 := ps2 + [info[id].p];
      } else {
        assert ps + [] == ps;
      }
    }

    method WriteBucket(bucket: set<nat>, unk: map<nat, nat>) returns (q: seq<nat>)
      requires forall x :: x in bucket ==> x in unk
      ensures |q| == |Ascending(bucket)|
      ensures forall i :: 0 <= i < |q| ==> Ascending(bucket)[i] in unk && q[i] == unk[Ascending(bucket)[i]]
    {
      var ids: seq<nat> := Ascending(bucket);
      AscendingEnumerates(bucket);
      q := [];
      for i := 0 to |ids|
        invariant |q| == i && forall j :: 0 <= j < i ==> ids[j] in unk && q[j] == unk[ids[j]]
      {
        assert ids[i] in ids;
        q := q + [unk[ids[i]]];
      }
    }

    method WriteBuckets(unk: map<nat, nat>, ghost n: seq<nat>) returns (bs: seq<seq<nat>>)
      requires forall b, x :: 0 <= b < |newb| && x in newb[b] ==> x in unk && unk[x] == Rank(n, x)
      ensures bs == BucketRanks(n, newb)
    {
      bs := [];
      for b := 0 to |newb|
        invariant |bs| == b && forall c :: 0 <= c < b ==> bs[c] == Ranks(n, Ascending(newb[c]))
      {
        AscendingEnumerates(newb[b]);
        var q := WriteBucket(newb[b], unk);
        assert q == Ranks(n, Ascending(newb[b]));
        bs := bs + [q];
      }
    }

    /** What a consistent manager writes. */
    method Serialize() returns (t: seq<Token>)
      requires Inv(Snap())
      ensures t == Flatten(ImageOf(Snap()))
    {
      WhatIsWritten(Snap());
      var news, unk := WriteEntries(false, nNew);
      var trieds, ignored := WriteEntries(true, nTried);
      ghost var n := Pick(Ids(info), info, false);
      HeldArePicked(Snap());
      var buckets := WriteBuckets(unk, n);
      ImageParts(Snap(), n, Pick(Ids(info), info, true));
      t := Flatten(Image(key, nNew, nTried, NEW_BUCKET_COUNT, news, trieds, buckets));
    }

    /** Rebuilding the tables from a parsed file. */
    method Restore(d: Image)
      requires |d.buckets| <= NEW_BUCKET_COUNT
      modifies this
      ensures Snap() == Build(cfg, d)
    {
      var same := d.nUBuckets == NEW_BUCKET_COUNT;
      key, nNew, nTried, idCount := d.key, d.nNew, d.nTried, 0;
      info, addr, random := map[], map[], [];
      tried, newb := seq(TRIED_BUCKET_COUNT, _ => []), seq(NEW_BUCKET_COUNT, _ => {});
      assert Snap() == Cleared(cfg, d);
      ghost var s1 := AddrManDisk.LoadNews(Snap(), d.news, !same);
      RestoreNews(d.news, !same);
      idCount := |d.news|;
      assert Snap() == s1.(idCount := |d.news|);
      RestoreTrieds(d.trieds);
      RestoreBuckets(d.buckets, same);
    }

    method RestoreNews(ps: seq<Stats>, rebuild: bool)
      requires |newb| == NEW_BUCKET_COUNT
      modifies this
      ensures Snap() == LoadNews(old(Snap()), ps, rebuild)
    {
      ghost var s := Snap();
      for n := 0 to |ps|
        invariant |newb| == NEW_BUCKET_COUNT && Snap() == LoadNews(s, ps[..n], rebuild)
      {
        assert ps[..n + 1][..n] == ps[..n];
        RestoreNew(n, ps[n], rebuild);
      }
      assert ps[..|ps|] == ps;
    }

    /** One entry of the new table. */
    method RestoreNew(n: nat, p: Stats, rebuild: bool)
      requires |newb| == NEW_BUCKET_COUNT
      modifies this
      ensures Snap() == LoadNew(old(Snap()), n, p, rebuild)
    {
      addr := addr[p.svc.ip := n];
      info := info[n := Info(p, 0, 0, false, |random|)];
      random := random + [n];
      if rebuild {
        var b := NewBucket(cfg, key, info[n], p.source);
        newb := newb[b := newb[b] + {n}];
        info := info[n := info[n].(refCount := info[n].refCount + 1)];
      }
    }

    method RestoreTrieds(ps: seq<Stats>)
      requires |tried| == TRIED_BUCKET_COUNT
      modifies this
      ensures Snap() == LoadTrieds(old(Snap()), ps)
    {
      ghost var s := Snap();
      for n := 0 to |ps|
        invariant |tried| == TRIED_BUCKET_COUNT && Snap() == LoadTrieds(s, ps[..n])
      {
        assert ps[..n + 1][..n] == ps[..n];
        var i := Info(ps[n], 0, 0, true, |random|);
        var k := TriedBucket(cfg, key, i);
        if |tried[k]| < TRIED_BUCKET_SIZE {
          random := random + [idCount];
          info := info[idCount := i];
          addr := addr[ps[n].svc.ip := idCount];
          tried := tried[k := tried[k] + [idCount]];
          idCount := idCount + 1;
        } else {
          nTried := nTried - 1;
        }
      }
      assert ps[..|ps|] == ps;
    }

    method RestoreBuckets(bs: seq<seq<nat>>, same: bool)
      requires |bs| <= |newb|
      modifies this
      ensures Snap() == LoadBuckets(old(Snap()), bs, same)
    {
      ghost var s := Snap();
      for b := 0 to |bs|
        invariant |newb| == |s.newb| && Snap() == LoadBuckets(s, bs[..b], same)
      {
        assert bs[..b + 1][..b] == bs[..b];
        RestoreBucket(b, bs[b], same);
      }
      assert bs[..|bs|] == bs;
    }

    method RestoreBucket(b: nat, q: seq<nat>, same: bool)
      requires b < |newb|
      modifies this
      ensures Snap() == LoadBucket(old(Snap()), b, q, same)
    {
      ghost var s := Snap();
      for n := 0 to |q|
        invariant |newb| == |s.newb| && Snap() == LoadBucket(s, b, q[..n], same)
      {
        assert q[..n + 1][..n] == q[..n];
        RestoreIndex(b, q[n], same);
      }
      assert q[..|q|] == q;
    }

    /** One index of a bucket. */
    method RestoreIndex(b: nat, x: nat, same: bool)
      requires b < |newb|
      modifies this
      ensures Snap() == LoadIndex(old(Snap()), b, x, same)
    {
      if x !in info { info := info[x := BLANK]; }
      assert info[x := info[x]] == info;
      if same && info[x].refCount < NEW_BUCKETS_PER_ADDRESS {
        info := info[x := info[x].(refCount := info[x].refCount + 1)];
        newb := newb[b := newb[b] + {x}];
      }
    }

    /** Reading a file replaces everything; a file that cannot be parsed is
        refused, as one with more buckets than there are.  Nothing is said of the
        tables then, which the program has begun to overwrite. */
    method Deserialize(t: seq<Token>) returns (ok: bool)
      modifies this
      ensures ok <==> Parse(t).Some? && |Parse(t).value.buckets| <= NEW_BUCKET_COUNT
      ensures ok ==> Snap() == Build(cfg, Parse(t).value)
    {
      var d := Parse(t);
      ok := d.Some? && |d.value.buckets| <= NEW_BUCKET_COUNT;
      if ok { Restore(d.value); }
    }

    /** Saving and loading again: the same tables, up to the names of ids. */
    method Reload() returns (ghost a: seq<nat>)
      requires Inv(Snap())
      modifies this
      ensures Inv(Snap()) && Renamed(old(Snap()), Snap(), a)
    {
      ghost var u;
      a, u := RoundTrip(Snap());
      var t := Serialize();
      var ok := Deserialize(t);
    }
  }

  lemma HeldArePicked(s: State)
    requires Inv(s)
    ensures forall b, x :: 0 <= b < |s.newb| && x in s.newb[b] ==> x in Pick(Ids(s.info), s.info, false)
  {
    WhatIsWritten(s);
    AscendingEnumerates(NewIds(s.info));
  }

  lemma MethodsReady(s: State)
    requires Inv(s)
    ensures RandomAt(s)
    ensures forall x :: x in s.info && !s.info[x].inTried ==> CountHeld(s.newb, x, |s.newb|) == s.info[x].refCount
  {
    forall x | x in s.info && !s.info[x].inTried ensures CountHeld(s.newb, x, |s.newb|) == s.info[x].refCount {
      Followed(s, x);
    }
  }
}
