/** Promotion to the tried table: Good_ and MakeTried keep the tables consistent. */
module AddrManTried {
  import opened SortedSets
  import opened AddrManModel
  import opened AddrManProofs

  // --- permuting a bucket ----------------------------------------------------

  lemma {:induction false} DistinctCounts(q: seq<nat>, x: nat)
    requires Distinct(q)
    ensures multiset(q)[x] == if x in q then 1 else 0
  {
    if q != [] {
      DistinctCounts(q[1..], x);
      assert q == [q[0]] + q[1..];
    }
  }

  lemma {:induction false} CountsDistinct(q: seq<nat>)
    requires forall x :: multiset(q)[x] <= 1
    ensures Distinct(q)
  {
    if q != [] {
      var rest := q[1..];
      assert q == [q[0]] + rest;
      assert multiset(q) == multiset{q[0]} + multiset(rest);
      forall x ensures multiset(rest)[x] <= 1 {
        assert multiset(q)[x] <= 1;
      }
      CountsDistinct(rest);
      assert q[0] !in rest by {
        assert multiset(q)[q[0]] == 1 + multiset(rest)[q[0]];
      }
    }
  }

  lemma PermutedBucket(v: seq<nat>, w: seq<nat>)
    requires Distinct(v) && multiset(v) == multiset(w)
    ensures Distinct(w) && |w| == |v| && forall x :: x in v <==> x in w
  {
    forall x ensures multiset(w)[x] <= 1 && (x in v <==> x in w) {
      DistinctCounts(v, x);
      assert x in v <==> x in multiset(v);
      assert x in w <==> x in multiset(w);
    }
    CountsDistinct(w);
    assert |multiset(v)| == |multiset(w)|;
  }

  // --- leaving the new buckets -------------------------------------------------

  ghost function HoldersBelow(newb: seq<set<nat>>, id: nat, n: nat): set<nat>
    requires n <= |newb|
  {
    set b | 0 <= b < n && id in newb[b]
  }

  lemma {:induction false} CountHeldIsHolders(newb: seq<set<nat>>, id: nat, n: nat)
    requires n <= |newb|
    ensures CountHeld(newb, id, n) == |HoldersBelow(newb, id, n)|
    ensures HoldersBelow(newb, id, |newb|) == Holders(newb, id)
  {
    if n == 0 {
      assert HoldersBelow(newb, id, 0) == {};
    } else {
      CountHeldIsHolders(newb, id, n - 1);
      if id in newb[n - 1] {
        assert HoldersBelow(newb, id, n) == HoldersBelow(newb, id, n - 1) + {n - 1};
      } else {
        assert HoldersBelow(newb, id, n) == HoldersBelow(newb, id, n - 1);
      }
    }
  }

  /** `w` is `newb` with `id` erased from every bucket. */
  ghost predicate Erased(newb: seq<set<nat>>, w: seq<set<nat>>, id: nat) {
    |w| == |newb| && forall b, x :: 0 <= b < |newb| ==> (x in w[b] <==> x in newb[b] && x != id)
  }

  lemma HoldersErased(newb: seq<set<nat>>, w: seq<set<nat>>, id: nat, x: nat)
    requires Erased(newb, w, id) && x != id
    ensures |Holders(w, x)| == |Holders(newb, x)|
  {
    assert Holders(w, x) == Holders(newb, x);
  }

  lemma ErasedSmaller(newb: seq<set<nat>>, w: seq<set<nat>>, id: nat, b: nat)
    requires Erased(newb, w, id) && b < |newb|
    ensures |w[b]| <= |newb[b]|
    ensures id in newb[b] ==> |w[b]| == |newb[b]| - 1
  {
    if id in newb[b] {
      assert newb[b] == w[b] + {id};
    } else {
      assert newb[b] == w[b];
    }
  }

  lemma ErasedSizes(newb: seq<set<nat>>, w: seq<set<nat>>, id: nat)
    requires Erased(newb, w, id) && forall b :: 0 <= b < |newb| ==> |newb[b]| <= NEW_BUCKET_SIZE
    ensures forall b :: 0 <= b < |w| ==> |w[b]| <= NEW_BUCKET_SIZE
  {
    forall b | 0 <= b < |w| ensures |w[b]| <= NEW_BUCKET_SIZE {
      ErasedSmaller(newb, w, id, b);
    }
  }

  lemma ErasedHolders(newb: seq<set<nat>>, w: seq<set<nat>>, id: nat)
    requires Erased(newb, w, id)
    ensures forall x :: x != id ==> |Holders(w, x)| == |Holders(newb, x)|
  {
    forall x | x != id ensures |Holders(w, x)| == |Holders(newb, x)| {
      HoldersErased(newb, w, id, x);
    }
  }

  lemma {:induction false} ErasedNew(m: map<nat, Info>, n: map<nat, Info>, newb: seq<set<nat>>, w: seq<set<nat>>, id: nat)
    requires NewOk(m, newb, {}) && id in m && !m[id].inTried && id in n && n[id].inTried
    requires n.Keys == m.Keys && forall x :: x in m && x != id ==> n[x] == m[x]
    requires Erased(newb, w, id)
    ensures NewOk(n, w, {})
  {
    ErasedSizes(newb, w, id);
    ErasedHolders(newb, w, id);
  }

  // --- there is room in the tried bucket ---------------------------------------

  ghost predicate Promoted(i: Info, j: Info) {
    j == i.(refCount := 0, inTried := true)
  }

  lemma PromoteAgrees(m: map<nat, Info>, id: nat, i: Info)
    requires id in m && !m[id].inTried && Promoted(m[id], i)
    ensures AgreePlaces(m, m[id := i])
    ensures NewIds(m[id := i]) == NewIds(m) - {id}
    ensures TriedIds(m[id := i]) == TriedIds(m) + {id}
  {
  }

  lemma AppendTried(cfg: Config, key: Key, m: map<nat, Info>, tried: seq<seq<nat>>, id: nat, i: Info)
    requires TriedOk(cfg, key, m, tried) && id in m && !m[id].inTried && Promoted(m[id], i)
    requires |tried[TriedBucket(cfg, key, i)]| < TRIED_BUCKET_SIZE
    ensures var k := TriedBucket(cfg, key, i);
            TriedOk(cfg, key, m[id := i], tried[k := tried[k] + [id]])
  {
  }

  lemma {:induction false} RoomCore(s: State, w: seq<set<nat>>, id: nat, i: Info)
    requires Inv(s) && id in s.info && !s.info[id].inTried && Promoted(s.info[id], i)
    requires |s.tried[TriedBucket(s.cfg, s.key, i)]| < TRIED_BUCKET_SIZE
    requires Erased(s.newb, w, id)
    ensures var k := TriedBucket(s.cfg, s.key, i);
            Inv(s.(info := s.info[id := i], newb := w, nNew := s.nNew - 1,
                   nTried := s.nTried + 1, tried := s.tried[k := s.tried[k] + [id]]))
  {
    PromoteAgrees(s.info, id, i);
    PlacesFrame(s, s.info[id := i]);
    AppendTried(s.cfg, s.key, s.info, s.tried, id, i);
    ErasedNew(s.info, s.info[id := i], s.newb, w, id);
    PromotedCounts(s.info, s.info[id := i], id);
  }

  lemma PromotedCounts(m: map<nat, Info>, n: map<nat, Info>, id: nat)
    requires id in m && !m[id].inTried && n.Keys == m.Keys && NewIds(n) == NewIds(m) - {id}
    ensures |NewIds(n)| == |NewIds(m)| - 1 && |TriedIds(n)| == |TriedIds(m)| + 1
  {
    forall x ensures x in TriedIds(n) <==> x in TriedIds(m) + {id} {
      assert x in NewIds(n) <==> x in NewIds(m) - {id};
    }
    assert TriedIds(n) == TriedIds(m) + {id};
  }

  // --- an entry has to be evicted ----------------------------------------------

  ghost predicate Demoted(i: Info, j: Info) {
    j == i.(refCount := 1, inTried := false)
  }

  lemma ExchangeAgrees(m: map<nat, Info>, id: nat, i: Info, ev: nat, e: Info)
    requires id in m && !m[id].inTried && Promoted(m[id], i)
    requires ev in m && m[ev].inTried && Demoted(m[ev], e)
    ensures AgreePlaces(m, m[ev := e][id := i])
    ensures NewIds(m[ev := e][id := i]) == NewIds(m) - {id} + {ev}
    ensures TriedIds(m[ev := e][id := i]) == TriedIds(m) - {ev} + {id}
  {
  }

  lemma ReplaceTried(cfg: Config, key: Key, m: map<nat, Info>, tried: seq<seq<nat>>,
                     id: nat, i: Info, e: Info, v: seq<nat>, pos: nat)
    requires TriedOk(cfg, key, m, tried) && id in m && !m[id].inTried && Promoted(m[id], i)
    requires multiset(v) == multiset(tried[TriedBucket(cfg, key, i)])
    requires pos < |v| && v[pos] in m && Demoted(m[v[pos]], e)
    ensures TriedOk(cfg, key, m[v[pos] := e][id := i], tried[TriedBucket(cfg, key, i) := v[pos := id]])
  {
    var k := TriedBucket(cfg, key, i);
    PermutedBucket(tried[k], v);
    var w := v[pos := id];
    assert forall x :: x in w ==> x == id || (x in v && x != v[pos]);
    forall x | x in v && x != v[pos] ensures x in w {
      var j :| 0 <= j < |v| && v[j] == x;
      assert w[j] == x;
    }
    assert w[pos] == id;
  }

  lemma DemotedNew(m: map<nat, Info>, w: seq<set<nat>>, ev: nat, e: Info, dest: nat)
    requires NewOk(m, w, {}) && ev in m && m[ev].inTried && Demoted(m[ev], e)
    requires dest < NEW_BUCKET_COUNT && |w[dest]| < NEW_BUCKET_SIZE
    ensures NewOk(m[ev := e], w[dest := w[dest] + {ev}], {})
  {
    assert Holders(w, ev) == {};
    assert NewOk(m[ev := e], w, {ev});
    InsertNew(m[ev := e], w, dest, ev);
  }

  lemma UpdatesCommute(m: map<nat, Info>, a: nat, i: Info, b: nat, j: Info)
    requires a != b
    ensures m[a := i][b := j] == m[b := j][a := i]
  {
  }

  lemma EvictNew(m: map<nat, Info>, newb: seq<set<nat>>, w: seq<set<nat>>, id: nat, i: Info, ev: nat, e: Info, dest: nat)
    requires NewOk(m, newb, {}) && id in m && !m[id].inTried && Promoted(m[id], i)
    requires ev in m && m[ev].inTried && Demoted(m[ev], e)
    requires Erased(newb, w, id) && dest < NEW_BUCKET_COUNT && |w[dest]| < NEW_BUCKET_SIZE
    ensures NewOk(m[ev := e][id := i], w[dest := w[dest] + {ev}], {})
  {
    UpdatesCommute(m, ev, e, id, i);
    ErasedNew(m, m[id := i], newb, w, id);
    DemotedNew(m[id := i], w, ev, e, dest);
  }

  lemma {:induction false} EvictCore(s: State, t: State, id: nat, i: Info, ev: nat, e: Info, k: nat, v: seq<nat>, pos: nat,
                  w: seq<set<nat>>, dest: nat)
    requires Inv(s) && id in s.info && !s.info[id].inTried && Promoted(s.info[id], i)
    requires k == TriedBucket(s.cfg, s.key, i) && multiset(v) == multiset(s.tried[k])
    requires pos < |v| && v[pos] == ev && ev in s.info && s.info[ev].inTried && Demoted(s.info[ev], e)
    requires Erased(s.newb, w, id) && dest < NEW_BUCKET_COUNT && |w[dest]| < NEW_BUCKET_SIZE
    requires t == s.(info := s.info[ev := e][id := i], newb := w[dest := w[dest] + {ev}],
                     tried := s.tried[k := v[pos := id]])
    ensures Inv(t)
  {
    ExchangeAgrees(s.info, id, i, ev, e);
    PlacesFrame(s, t.info);
    ReplaceTried(s.cfg, s.key, s.info, s.tried, id, i, e, v, pos);
    EvictNew(s.info, s.newb, w, id, i, ev, e, dest);
    ExchangeCounts(s.info, t.info, id, ev);
  }

  lemma ExchangeCounts(m: map<nat, Info>, n: map<nat, Info>, id: nat, ev: nat)
    requires id in m && !m[id].inTried && ev in m && m[ev].inTried && n.Keys == m.Keys
    requires NewIds(n) == NewIds(m) - {id} + {ev}
    ensures |NewIds(n)| == |NewIds(m)| && |TriedIds(n)| == |TriedIds(m)|
  {
    assert TriedIds(n) == TriedIds(m) - {ev} + {id};
  }

  // --- MakeTried and Good_ ------------------------------------------------------

  ghost predicate Follows(s: State, id: nat) {
    Ready(s) && id in s.info && !s.info[id].inTried
  }

  lemma Followed(s: State, id: nat)
    requires Inv(s) && id in s.info && !s.info[id].inTried
    ensures Follows(s, id)
    ensures CountHeld(s.newb, id, |s.newb|) == s.info[id].refCount
  {
    InvIsReady(s);
    CountHeldIsHolders(s.newb, id, |s.newb|);
  }

  lemma MakeTriedRoomShape(s: State, id: nat, origin: nat, rnd: Draws, base: nat) returns (i: Info, k: nat)
    requires Follows(s, id) && origin < NEW_BUCKET_COUNT
    requires CountHeld(s.newb, id, |s.newb|) == s.info[id].refCount
    requires |s.tried[TriedBucket(s.cfg, s.key, s.info[id])]| < TRIED_BUCKET_SIZE
    ensures Promoted(s.info[id], i) && k == TriedBucket(s.cfg, s.key, i) == TriedBucket(s.cfg, s.key, s.info[id])
    ensures MakeTried(s, id, origin, rnd, base)
         == s.(info := s.info[id := i], newb := Without(s.newb, id), nNew := s.nNew - 1,
               nTried := s.nTried + 1, tried := s.tried[k := s.tried[k] + [id]])
  {
    i := s.info[id].(refCount := 0, inTried := true);
    k := TriedBucket(s.cfg, s.key, i);
    assert s.info[id := s.info[id].(refCount := 0)][id := i] == s.info[id := i];
  }

  /** Everything the eviction branch of MakeTried decides. */
  ghost predicate Evicts(s: State, t: State, id: nat, origin: nat, i: Info, ev: nat, e: Info,
                         k: nat, v: seq<nat>, pos: nat, dest: nat)
    requires Follows(s, id)
  {
    && Promoted(s.info[id], i) && k == TriedBucket(s.cfg, s.key, s.info[id])
    && multiset(v) == multiset(s.tried[k]) && pos < |v| && v[pos] == ev
    && ev in s.info && ev in s.tried[k] && Demoted(s.info[ev], e)
    && dest < NEW_BUCKET_COUNT && (dest == origin || |Without(s.newb, id)[dest]| < NEW_BUCKET_SIZE)
    && (dest == origin || dest == NewBucket(s.cfg, s.key, s.info[ev], s.info[ev].p.source))
    && t == s.(info := s.info[ev := e][id := i],
               newb := Without(s.newb, id)[dest := Without(s.newb, id)[dest] + {ev}],
               tried := s.tried[k := v[pos := id]])
  }

  lemma MakeTriedEvictShape(s: State, id: nat, origin: nat, rnd: Draws, base: nat)
    returns (i: Info, ev: nat, e: Info, k: nat, v: seq<nat>, pos: nat, dest: nat)
    requires Follows(s, id) && origin < NEW_BUCKET_COUNT
    requires CountHeld(s.newb, id, |s.newb|) == s.info[id].refCount
    requires |s.tried[TriedBucket(s.cfg, s.key, s.info[id])]| >= TRIED_BUCKET_SIZE
    ensures Evicts(s, MakeTried(s, id, origin, rnd, base), id, origin, i, ev, e, k, v, pos, dest)
  {
    k := TriedBucket(s.cfg, s.key, s.info[id]);
    var t := LeaveNew(s, id);
    var d := PickTried(t.tried[k], t.info, rnd, base);
    i, ev, e, dest := EvictUnfolds(s, t, id, k, origin, d);
    v, pos := d.v, d.pos;
  }

  lemma EvictUnfolds(s: State, t: State, id: nat, k: nat, origin: nat, d: Scan) returns (i: Info, ev: nat, e: Info, dest: nat)
    requires Follows(s, id) && origin < NEW_BUCKET_COUNT && k == TriedBucket(s.cfg, s.key, s.info[id])
    requires t == s.(info := s.info[id := s.info[id].(refCount := 0)], newb := Without(s.newb, id), nNew := s.nNew - 1)
    requires 0 <= d.pos < |d.v| && multiset(d.v) == multiset(s.tried[k]) && d.v[d.pos] in s.tried[k]
    ensures d.v[d.pos] in t.info && Evicts(s, Evict(t, id, k, origin, d), id, origin, i, ev, e, k, d.v, d.pos, dest)
  {
    i := s.info[id].(refCount := 0, inTried := true);
    ev := d.v[d.pos];
    assert ev in s.info && ev != id;
    e := s.info[ev].(refCount := 1, inTried := false);
    var b := NewBucket(s.cfg, s.key, s.info[ev], s.info[ev].p.source);
    dest := if |t.newb[b]| < NEW_BUCKET_SIZE then b else origin;
    UpdatesCommute(s.info, id, s.info[id].(refCount := 0), ev, e);
    assert t.info[ev := e][id := i] == s.info[ev := e][id := i];
  }

  lemma WithoutErases(newb: seq<set<nat>>, id: nat)
    ensures Erased(newb, Without(newb, id), id)
  {
  }

  lemma MakeTriedKeeps(s: State, id: nat, origin: nat, rnd: Draws, base: nat)
    requires Inv(s) && id in s.info && !s.info[id].inTried
    requires origin < NEW_BUCKET_COUNT && id in s.newb[origin]
    ensures Follows(s, id) && Inv(MakeTried(s, id, origin, rnd, base))
  {
    Followed(s, id);
    WithoutErases(s.newb, id);
    var w := Without(s.newb, id);
    if |s.tried[TriedBucket(s.cfg, s.key, s.info[id])]| < TRIED_BUCKET_SIZE {
      var i, k := MakeTriedRoomShape(s, id, origin, rnd, base);
      RoomCore(s, w, id, i);
    } else {
      var i, ev, e, k, v, pos, dest := MakeTriedEvictShape(s, id, origin, rnd, base);
      ErasedSmaller(s.newb, w, id, origin);
      EvictCore(s, MakeTried(s, id, origin, rnd, base), id, i, ev, e, k, v, pos, w, dest);
    }
  }

  /** A new entry is always found in some bucket, so Good_ never bails out. */
  lemma NewIsHeld(s: State, id: nat, r: nat)
    requires Inv(s) && id in s.info && !s.info[id].inTried
    ensures FindBucket(s.newb, id, r, 0) >= 0
  {
    assert Holders(s.newb, id) != {};
    var b :| b in Holders(s.newb, id);
    var m := Unwrap(b, r);
    assert id in s.newb[Wrap(m, r, NEW_BUCKET_COUNT)];
  }

  lemma Unwrap(b: nat, r: nat) returns (m: nat)
    requires b < NEW_BUCKET_COUNT
    ensures m < NEW_BUCKET_COUNT && Wrap(m, r, NEW_BUCKET_COUNT) == b
  {
    m := (b - r) % NEW_BUCKET_COUNT;
  }

  function GoodInfo(i: Info, time: int): Info {
    i.(p := i.p.(lastSuccess := time, time := ToU32(time), attempts := 0), lastTry := time)
  }

  lemma PromotionKeeps(s: State, id: nat, rnd: Draws)
    requires Inv(s) && id in s.info && !s.info[id].inTried
    ensures Follows(s, id)
    ensures var b := FindBucket(s.newb, id, Draw(rnd, 0, |s.newb|), 0);
            b >= 0 && Inv(MakeTried(s, id, b, rnd, 1))
  {
    NewIsHeld(s, id, Draw(rnd, 0, |s.newb|));
    MakeTriedKeeps(s, id, FindBucket(s.newb, id, Draw(rnd, 0, |s.newb|), 0), rnd, 1);
  }

  lemma GoodUnfolds(s: State, svc: Service, time: int, rnd: Draws, id: nat, t: State)
    requires Ready(s) && Find(s, svc.ip) && id == s.addr[svc.ip] && s.info[id].p.svc == svc
    requires t == s.(info := s.info[id := GoodInfo(s.info[id], time)])
    requires !s.info[id].inTried ==> Follows(t, id) && FindBucket(t.newb, id, Draw(rnd, 0, |t.newb|), 0) >= 0
    ensures Good(s, svc, time, rnd) ==
            if s.info[id].inTried then t
            else MakeTried(t, id, FindBucket(t.newb, id, Draw(rnd, 0, |t.newb|), 0), rnd, 1)
  {
  }

  lemma GoodKeeps(s: State, svc: Service, time: int, rnd: Draws)
    requires Inv(s)
    ensures Ready(s) && Inv(Good(s, svc, time, rnd))
  {
    InvIsReady(s);
    if Find(s, svc.ip) && s.info[s.addr[svc.ip]].p.svc == svc {
      var id := s.addr[svc.ip];
      var t := s.(info := s.info[id := GoodInfo(s.info[id], time)]);
      TouchKeeps(s, id, GoodInfo(s.info[id], time), {});
      if !s.info[id].inTried {
        PromotionKeeps(t, id, rnd);
      }
      GoodUnfolds(s, svc, time, rnd, id, t);
    }
  }

  lemma PositionsAgree(m: map<nat, Info>, n: map<nat, Info>)
    requires UpToPosition(m, n)
    ensures AgreeTried(m, n) && AgreeNew(m, n)
  {
  }

  lemma PositionsAddr(m: map<nat, Info>, n: map<nat, Info>, addr: map<NetAddr, nat>, c: nat)
    requires UpToPosition(m, n) && AddrOk(m, addr, c)
    ensures AddrOk(n, addr, c)
  {
  }

  lemma UpToPositionTrans(a: map<nat, Info>, b: map<nat, Info>, c: map<nat, Info>)
    requires UpToPosition(a, b) && UpToPosition(b, c)
    ensures UpToPosition(a, c)
  {
  }

  lemma ShuffleMoves(s: State, n: nat, rnd: Draws)
    requires Known(s.info, s.random) && n < |s.random|
    ensures var t := Shuffle(s, n, rnd);
            t == s.(info := t.info, random := t.random) && UpToPosition(s.info, t.info)
  {
    SwapEffect(s.info, s.random[n], s.random[Draw(rnd, n, |s.random| - n) + n]);
  }

  lemma ShuffleRandom(s: State, n: nat, rnd: Draws)
    requires RandomOk(s.info, s.random) && n < |s.random|
    ensures Known(s.info, s.random)
    ensures RandomOk(Shuffle(s, n, rnd).info, Shuffle(s, n, rnd).random)
  {
    SwapKeepsRandom(s.info, s.random, n, Draw(rnd, n, |s.random| - n) + n);
  }

  /** GetAddr_ only moves entries within `vRandom`. */
  lemma {:induction false} GetAddrMoves(s: State, n: nat, count: nat, got: seq<Info>, rnd: Draws)
    requires Known(s.info, s.random) && n <= count <= |s.random|
    ensures var r := GetAddr(s, n, count, got, rnd).s;
            r == s.(info := r.info, random := r.random) && UpToPosition(s.info, r.info)
    decreases count - n
  {
    if n < count {
      var t := Shuffle(s, n, rnd);
      ShuffleMoves(s, n, rnd);
      GetAddrMoves(t, n + 1, count, got + [t.info[t.random[n]]], rnd);
      UpToPositionTrans(s.info, t.info, GetAddr(s, n, count, got, rnd).s.info);
    }
  }

  lemma {:induction false} GetAddrRandom(s: State, n: nat, count: nat, got: seq<Info>, rnd: Draws)
    requires Known(s.info, s.random) && RandomOk(s.info, s.random) && n <= count <= |s.random|
    ensures var r := GetAddr(s, n, count, got, rnd).s; RandomOk(r.info, r.random)
    decreases count - n
  {
    if n < count {
      var t := Shuffle(s, n, rnd);
      ShuffleRandom(s, n, rnd);
      GetAddrRandom(t, n + 1, count, got + [t.info[t.random[n]]], rnd);
    }
  }

  lemma MovedKeeps(s: State, r: State)
    requires Inv(s) && r == s.(info := r.info, random := r.random)
    requires UpToPosition(s.info, r.info) && RandomOk(r.info, r.random)
    ensures Inv(r)
  {
    PositionsAgree(s.info, r.info);
    PositionsAddr(s.info, r.info, s.addr, s.idCount);
    TriedFrame(s.cfg, s.key, s.info, r.info, s.tried);
    NewFrame(s.info, r.info, s.newb, {});
  }

  lemma GetAddrKeeps(s: State, rnd: Draws)
    requires Inv(s)
    ensures Known(s.info, s.random)
    ensures Inv(GetAddr(s, 0, GetAddrCount(|s.random|), [], rnd).s)
  {
    GetAddrRandom(s, 0, GetAddrCount(|s.random|), [], rnd);
    GetAddrMoves(s, 0, GetAddrCount(|s.random|), [], rnd);
    MovedKeeps(s, GetAddr(s, 0, GetAddrCount(|s.random|), [], rnd).s);
  }

  /** The first `n` entries of `vRandom` are those listed. */
  ghost predicate Listing(info: map<nat, Info>, random: seq<nat>, n: nat, got: seq<Info>)
    requires Known(info, random) && n <= |random|
  {
    |got| == n && forall i :: 0 <= i < n ==> got[i] == info[random[i]]
  }

  /** Positions that were filled are left alone by the later swaps. */
  lemma ShuffleLists(s: State, n: nat, rnd: Draws, got: seq<Info>)
    requires RandomOk(s.info, s.random) && Known(s.info, s.random) && n < |s.random|
    requires Listing(s.info, s.random, n, got)
    ensures var t := Shuffle(s, n, rnd); Listing(t.info, t.random, n + 1, got + [t.info[t.random[n]]])
  {
  }

  lemma {:induction false} GetAddrLists(s: State, n: nat, count: nat, got: seq<Info>, rnd: Draws)
    requires RandomOk(s.info, s.random) && Known(s.info, s.random) && n <= count <= |s.random|
    requires Listing(s.info, s.random, n, got)
    ensures var r := GetAddr(s, n, count, got, rnd);
            Known(r.s.info, r.s.random) && |r.s.random| == |s.random| && Listing(r.s.info, r.s.random, count, r.list)
    decreases count - n
  {
    if n < count {
      var t := Shuffle(s, n, rnd);
      ShuffleRandom(s, n, rnd);
      ShuffleLists(s, n, rnd, got);
      GetAddrLists(t, n + 1, count, got + [t.info[t.random[n]]], rnd);
    }
  }

  /** `list` is the stored data of the entries `ids`, with no address twice. */
  ghost predicate ListsEntries(info: map<nat, Info>, ids: seq<nat>, list: seq<Info>) {
    && Distinct(ids) && |list| == |ids|
    && (forall i :: 0 <= i < |ids| ==> ids[i] in info && list[i].p == info[ids[i]].p)
    && forall i, j :: 0 <= i < j < |list| ==> list[i].p.svc.ip != list[j].p.svc.ip
  }

  lemma ListedEntries(m: map<nat, Info>, addr: map<NetAddr, nat>, c: nat, n: map<nat, Info>, random: seq<nat>, k: nat, list: seq<Info>)
    requires AddrOk(m, addr, c) && UpToPosition(m, n) && RandomOk(n, random) && Known(n, random)
    requires k <= |random| && Listing(n, random, k, list)
    ensures ListsEntries(m, random[..k], list)
  {
  }

  /** GetAddr_ lists the stored data of as many different entries as its limits allow,
      with no address twice. */
  lemma GetAddrOutcome(s: State, rnd: Draws) returns (ids: seq<nat>)
    requires Inv(s)
    ensures Known(s.info, s.random) && |ids| == GetAddrCount(|s.random|)
    ensures ListsEntries(s.info, ids, GetAddr(s, 0, GetAddrCount(|s.random|), [], rnd).list)
  {
    var count := GetAddrCount(|s.random|);
    var r := GetAddr(s, 0, count, [], rnd);
    GetAddrLists(s, 0, count, [], rnd);
    GetAddrRandom(s, 0, count, [], rnd);
    GetAddrMoves(s, 0, count, [], rnd);
    ids := r.s.random[..count];
    ListedEntries(s.info, s.addr, s.idCount, r.s.info, r.s.random, count, r.list);
  }
}
