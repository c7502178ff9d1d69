/** Every operation of the address manager keeps its tables consistent. */
module AddrManProofs {
  import opened SortedSets
  import opened AddrManModel

  lemma EmptyIsConsistent(cfg: Config, key: Key)
    ensures Inv(Empty(cfg, key)) && TimesOk(Empty(cfg, key))
  {
    var s := Empty(cfg, key);
    assert NewIds(s.info) == {} && TriedIds(s.info) == {};
  }

  lemma InvIsReady(s: State)
    requires Inv(s)
    ensures Ready(s)
  {
  }

  // --- frames: what each part of the invariant looks at ----------------------

  ghost predicate AgreePlaces(m: map<nat, Info>, n: map<nat, Info>) {
    && m.Keys == n.Keys
    && forall id :: id in m ==> m[id].randomPos == n[id].randomPos && m[id].p.svc.ip == n[id].p.svc.ip
  }

  ghost predicate AgreeTried(m: map<nat, Info>, n: map<nat, Info>) {
    && (forall id :: id in m && m[id].inTried ==>
          id in n && n[id].inTried && n[id].p.svc == m[id].p.svc && n[id].refCount == m[id].refCount)
    && (forall id :: id in n && n[id].inTried ==> id in m && m[id].inTried)
  }

  ghost predicate AgreeNew(m: map<nat, Info>, n: map<nat, Info>) {
    && (forall id :: id in m && !m[id].inTried ==> id in n && !n[id].inTried && n[id].refCount == m[id].refCount)
    && (forall id :: id in n && !n[id].inTried ==> id in m && !m[id].inTried)
  }

  lemma PlacesFrame(s: State, n: map<nat, Info>)
    requires RandomOk(s.info, s.random) && AddrOk(s.info, s.addr, s.idCount) && AgreePlaces(s.info, n)
    ensures RandomOk(n, s.random) && AddrOk(n, s.addr, s.idCount)
  {
  }

  lemma TriedFrame(cfg: Config, key: Key, m: map<nat, Info>, n: map<nat, Info>, tried: seq<seq<nat>>)
    requires TriedOk(cfg, key, m, tried) && AgreeTried(m, n)
    ensures TriedOk(cfg, key, n, tried) && TriedIds(m) == TriedIds(n)
  {
  }

  lemma NewFrame(m: map<nat, Info>, n: map<nat, Info>, newb: seq<set<nat>>, pend: set<nat>)
    requires NewOk(m, newb, pend) && AgreeNew(m, n)
    ensures NewOk(n, newb, pend) && NewIds(m) == NewIds(n)
  {
  }

  // --- changing the statistics of one entry ----------------------------------

  ghost predicate SamePlace(i: Info, j: Info) {
    i.p.svc == j.p.svc && i.refCount == j.refCount && i.inTried == j.inTried && i.randomPos == j.randomPos
  }

  lemma TouchAgrees(m: map<nat, Info>, id: nat, i: Info)
    requires id in m && SamePlace(m[id], i)
    ensures AgreePlaces(m, m[id := i]) && AgreeTried(m, m[id := i]) && AgreeNew(m, m[id := i])
  {
  }

  lemma TouchKeeps(s: State, id: nat, i: Info, pend: set<nat>)
    requires Consistent(s, pend) && id in s.info && SamePlace(s.info[id], i)
    ensures Consistent(s.(info := s.info[id := i]), pend)
  {
    var n := s.info[id := i];
    TouchAgrees(s.info, id, i);
    PlacesFrame(s, n);
    TriedFrame(s.cfg, s.key, s.info, n, s.tried);
    NewFrame(s.info, n, s.newb, pend);
  }

  // --- references ------------------------------------------------------------

  lemma SetRefAgrees(m: map<nat, Info>, id: nat, k: int)
    requires id in m && !m[id].inTried
    ensures AgreePlaces(m, m[id := m[id].(refCount := k)])
    ensures AgreeTried(m, m[id := m[id].(refCount := k)])
    ensures NewIds(m) == NewIds(m[id := m[id].(refCount := k)])
  {
  }

  lemma BumpNew(m: map<nat, Info>, newb: seq<set<nat>>, id: nat)
    requires NewOk(m, newb, {}) && id in m && !m[id].inTried
    requires m[id].refCount < NEW_BUCKETS_PER_ADDRESS
    ensures NewOk(m[id := m[id].(refCount := m[id].refCount + 1)], newb, {id})
  {
  }

  lemma BumpKeeps(s: State, id: nat)
    requires Inv(s) && id in s.info && !s.info[id].inTried
    requires s.info[id].refCount < NEW_BUCKETS_PER_ADDRESS
    ensures Consistent(SetRef(s, id, s.info[id].refCount + 1), {id})
  {
    var t := SetRef(s, id, s.info[id].refCount + 1);
    SetRefAgrees(s.info, id, s.info[id].refCount + 1);
    PlacesFrame(s, t.info);
    TriedFrame(s.cfg, s.key, s.info, t.info, s.tried);
    BumpNew(s.info, s.newb, id);
    assert RandomOk(t.info, t.random);
    assert AddrOk(t.info, t.addr, t.idCount);
    assert TriedOk(t.cfg, t.key, t.info, t.tried);
    assert NewOk(t.info, t.newb, {id});
    assert CountsOk(t.info, t.nNew, t.nTried);
  }

  lemma FreshAgrees(m: map<nat, Info>, id: nat, i: Info)
    requires id !in m && !i.inTried
    ensures AgreeTried(m, m[id := i])
    ensures NewIds(m[id := i]) == NewIds(m) + {id}
  {
  }

  lemma FreshPlaces(s: State, a: Address, i: Info)
    requires RandomOk(s.info, s.random) && AddrOk(s.info, s.addr, s.idCount)
    requires a.svc.ip !in s.addr && i.p.svc == a.svc && i.randomPos == |s.random|
    ensures RandomOk(s.info[s.idCount := i], s.random + [s.idCount])
    ensures AddrOk(s.info[s.idCount := i], s.addr[a.svc.ip := s.idCount], s.idCount + 1)
  {
  }

  lemma FreshNew(m: map<nat, Info>, newb: seq<set<nat>>, id: nat, i: Info)
    requires NewOk(m, newb, {}) && id !in m && !i.inTried && i.refCount == 1
    ensures NewOk(m[id := i], newb, {id})
  {
    assert Holders(newb, id) == {};
  }

  lemma FreshCore(s: State, a: Address, i: Info)
    requires Inv(s) && a.svc.ip !in s.addr
    requires i.p.svc == a.svc && i.randomPos == |s.random| && !i.inTried && i.refCount == 1
    ensures Consistent(s.(idCount := s.idCount + 1, info := s.info[s.idCount := i],
                          addr := s.addr[a.svc.ip := s.idCount], random := s.random + [s.idCount],
                          nNew := s.nNew + 1), {s.idCount})
  {
    FreshAgrees(s.info, s.idCount, i);
    FreshPlaces(s, a, i);
    TriedFrame(s.cfg, s.key, s.info, s.info[s.idCount := i], s.tried);
    FreshNew(s.info, s.newb, s.idCount, i);
  }

  lemma FreshShape(s: State, a: Address, source: NetAddr, penalty: int) returns (i: Info)
    ensures SetRef(Fresh(s, a, source, penalty), s.idCount, 1)
         == s.(idCount := s.idCount + 1, info := s.info[s.idCount := i],
               addr := s.addr[a.svc.ip := s.idCount], random := s.random + [s.idCount],
               nNew := s.nNew + 1)
    ensures i.p.svc == a.svc && i.randomPos == |s.random| && !i.inTried && i.refCount == 1
  {
    var t := SetRef(Fresh(s, a, source, penalty), s.idCount, 1);
    i := t.info[s.idCount];
    assert t.info == s.info[s.idCount := i];
  }

  lemma FreshKeeps(s: State, a: Address, source: NetAddr, penalty: int)
    requires Inv(s) && !Find(s, a.svc.ip)
    ensures Consistent(SetRef(Fresh(s, a, source, penalty), s.idCount, 1), {s.idCount})
  {
    var i := FreshShape(s, a, source, penalty);
    FreshCore(s, a, i);
  }

  lemma HoldersAfterErase(newb: seq<set<nat>>, b: nat, id: nat, x: nat)
    requires b < |newb| && id in newb[b]
    ensures |Holders(newb[b := newb[b] - {id}], x)| == |Holders(newb, x)| - if x == id then 1 else 0
  {
    var w := newb[b := newb[b] - {id}];
    if x == id {
      assert Holders(newb, x) == Holders(w, x) + {b};
    } else {
      assert Holders(newb, x) == Holders(w, x);
    }
  }

  lemma HoldersAfterInsert(newb: seq<set<nat>>, b: nat, id: nat, x: nat)
    requires b < |newb| && id !in newb[b]
    ensures |Holders(newb[b := newb[b] + {id}], x)| == |Holders(newb, x)| + if x == id then 1 else 0
  {
    var w := newb[b := newb[b] + {id}];
    if x == id {
      assert Holders(w, x) == Holders(newb, x) + {b};
    } else {
      assert Holders(newb, x) == Holders(w, x);
    }
  }

  lemma InsertNew(m: map<nat, Info>, newb: seq<set<nat>>, b: nat, id: nat)
    requires NewOk(m, newb, {id}) && b < NEW_BUCKET_COUNT
    requires id !in newb[b] && |newb[b]| < NEW_BUCKET_SIZE
    ensures NewOk(m, newb[b := newb[b] + {id}], {})
  {
    forall x ensures |Holders(newb[b := newb[b] + {id}], x)| == |Holders(newb, x)| + if x == id then 1 else 0 {
      HoldersAfterInsert(newb, b, id, x);
    }
  }

  lemma InsertKeeps(s: State, b: nat, id: nat)
    requires Consistent(s, {id}) && b < NEW_BUCKET_COUNT
    requires id !in s.newb[b] && |s.newb[b]| < NEW_BUCKET_SIZE
    ensures Inv(s.(newb := s.newb[b := s.newb[b] + {id}]))
  {
    InsertNew(s.info, s.newb, b, id);
  }

  // --- deletion --------------------------------------------------------------

  ghost predicate UpToPosition(m: map<nat, Info>, n: map<nat, Info>) {
    && m.Keys == n.Keys
    && forall x :: x in m ==> n[x] == m[x].(randomPos := n[x].randomPos)
  }

  lemma SwapEffect(m: map<nat, Info>, a: nat, b: nat)
    requires a in m && b in m
    ensures UpToPosition(m, SwapPositions(m, a, b))
  {
  }

  /** `t` is `c` without entry `id`: every other entry keeps everything but
      its position in `vRandom`. */
  ghost predicate Deleted(c: State, t: State, id: nat)
    requires id in c.info
  {
    && t == c.(info := t.info, random := t.random, addr := c.addr - {c.info[id].p.svc.ip}, nNew := c.nNew - 1)
    && t.info.Keys == c.info.Keys - {id}
    && (forall x :: x in t.info ==> t.info[x] == c.info[x].(randomPos := t.info[x].randomPos))
  }

  lemma DeleteRandom(info: map<nat, Info>, random: seq<nat>, id: nat)
    requires RandomOk(info, random) && id in info
    ensures RandomOk(SwapPositions(info, id, random[|random| - 1]) - {id},
                     SwapAt(random, info[id].randomPos, |random| - 1)[..|random| - 1])
  {
    var i, last := info[id].randomPos, |random| - 1;
    assert random[i] == id;
    SwapKeepsRandom(info, random, i, last);
    LastIsGone(SwapPositions(info, id, random[last]), SwapAt(random, i, last), id);
  }

  lemma DeleteEffect(s: State, id: nat)
    requires Linked(s.info, s.random) && id in s.info
    ensures Deleted(s, Delete(s, id), id)
  {
    SwapEffect(s.info, id, s.random[|s.random| - 1]);
  }

  lemma LastIsGone(m: map<nat, Info>, random: seq<nat>, id: nat)
    requires RandomOk(m, random) && |random| > 0 && random[|random| - 1] == id
    ensures RandomOk(m - {id}, random[..|random| - 1])
  {
  }

  lemma DeleteAgrees(m: map<nat, Info>, n: map<nat, Info>, id: nat)
    requires id in m && !m[id].inTried && n.Keys == m.Keys - {id}
    requires forall x :: x in n ==> n[x] == m[x].(randomPos := n[x].randomPos)
    ensures AgreeTried(m, n) && NewIds(n) == NewIds(m) - {id}
  {
  }

  lemma DeleteAddr(m: map<nat, Info>, n: map<nat, Info>, addr: map<NetAddr, nat>, c: nat, id: nat)
    requires AddrOk(m, addr, c) && id in m && n.Keys == m.Keys - {id}
    requires forall x :: x in n ==> n[x].p.svc == m[x].p.svc
    ensures AddrOk(n, addr - {m[id].p.svc.ip}, c)
  {
  }

  lemma HoldersEmpty(newb: seq<set<nat>>, id: nat)
    requires |Holders(newb, id)| == 0
    ensures forall b :: 0 <= b < |newb| ==> id !in newb[b]
  {
    forall b | 0 <= b < |newb| ensures id !in newb[b] {
      assert id in newb[b] ==> b in Holders(newb, id);
    }
  }

  /** Taking one reference away, `n` being the entries that remain. */
  lemma DropNew(m: map<nat, Info>, n: map<nat, Info>, newb: seq<set<nat>>, pend: set<nat>, b: nat, id: nat)
    requires NewOk(m, newb, pend) && b < NEW_BUCKET_COUNT && id in newb[b] && id !in pend
    requires n.Keys == if m[id].refCount == 1 then m.Keys - {id} else m.Keys
    requires forall x :: x in n ==> n[x].inTried == m[x].inTried
    requires forall x :: x in n ==> n[x].refCount == m[x].refCount - if x == id then 1 else 0
    ensures NewOk(n, newb[b := newb[b] - {id}], pend)
  {
    var w := newb[b := newb[b] - {id}];
    forall x ensures |Holders(w, x)| == |Holders(newb, x)| - if x == id then 1 else 0 {
      HoldersAfterErase(newb, b, id, x);
    }
    if m[id].refCount == 1 {
      HoldersEmpty(w, id);
    }
  }

  /** The last reference goes, and the entry with it. */
  lemma DropLastCore(s: State, t: State, b: nat, id: nat, pend: set<nat>)
    requires Consistent(s, pend) && b < NEW_BUCKET_COUNT && id in s.newb[b] && id !in pend
    requires s.info[id].refCount == 1 && Deleted(s, t, id) && RandomOk(t.info, t.random)
    ensures Consistent(t.(newb := s.newb[b := s.newb[b] - {id}]), pend)
  {
    DeleteAgrees(s.info, t.info, id);
    DeleteAddr(s.info, t.info, s.addr, s.idCount, id);
    TriedFrame(s.cfg, s.key, s.info, t.info, s.tried);
    DropNew(s.info, t.info, s.newb, pend, b, id);
  }

  lemma DeletedAfterSetRef(s: State, t: State, id: nat, n: int)
    requires id in s.info && Deleted(SetRef(s, id, n), t, id)
    ensures Deleted(s, t, id)
  {
  }

  lemma DropOneCore(s: State, b: nat, id: nat, pend: set<nat>)
    requires Consistent(s, pend) && b < NEW_BUCKET_COUNT && id in s.newb[b] && id !in pend
    requires s.info[id].refCount > 1
    ensures Consistent(SetRef(s, id, s.info[id].refCount - 1).(newb := s.newb[b := s.newb[b] - {id}]), pend)
  {
    var c := SetRef(s, id, s.info[id].refCount - 1);
    SetRefAgrees(s.info, id, s.info[id].refCount - 1);
    PlacesFrame(s, c.info);
    TriedFrame(s.cfg, s.key, s.info, c.info, s.tried);
    DropNew(s.info, c.info, s.newb, pend, b, id);
  }

  lemma SetRefKeepsRandom(s: State, id: nat, n: int)
    requires RandomOk(s.info, s.random) && id in s.info
    ensures RandomOk(SetRef(s, id, n).info, s.random)
  {
  }

  lemma DropRefKeeps(s: State, b: nat, id: nat, pend: set<nat>)
    requires Consistent(s, pend) && b < NEW_BUCKET_COUNT && id in s.newb[b] && id !in pend
    ensures Consistent(DropRef(s, b, id), pend)
    ensures DropRef(s, b, id).newb == s.newb[b := s.newb[b] - {id}]
  {
    if s.info[id].refCount == 1 {
      DropLastKeeps(s, b, id, pend);
    } else {
      DropOneCore(s, b, id, pend);
    }
  }

  lemma DropLastKeeps(s: State, b: nat, id: nat, pend: set<nat>)
    requires Consistent(s, pend) && b < NEW_BUCKET_COUNT && id in s.newb[b] && id !in pend && s.info[id].refCount == 1
    ensures Consistent(DropRef(s, b, id), pend)
    ensures DropRef(s, b, id).newb == s.newb[b := s.newb[b] - {id}]
  {
    var c := SetRef(s, id, 0);
    SetRefKeepsRandom(s, id, 0);
    DeleteRandom(c.info, c.random, id);
    DeleteEffect(c, id);
    DeletedAfterSetRef(s, Delete(c, id), id, 0);
    DropLastCore(s, Delete(c, id), b, id, pend);
  }

  lemma ReferKeeps(s: State, id: nat, source: NetAddr, now: int, rnd: Draws)
    requires Ready(s) && id in s.info
    requires Consistent(SetRef(s, id, s.info[id].refCount + 1), {id})
    requires id in s.newb[NewBucket(s.cfg, s.key, s.info[id], source)] ==> Inv(s)
    ensures Inv(Refer(s, id, source, now, rnd))
  {
    var b := NewBucket(s.cfg, s.key, s.info[id], source);
    if id !in s.newb[b] {
      var t := SetRef(s, id, s.info[id].refCount + 1);
      if |t.newb[b]| == NEW_BUCKET_SIZE {
        var v := ShrinkVictim(t, b, now, rnd, 1);
        DropRefKeeps(t, b, v, {id});
        InsertKeeps(ShrinkNew(t, b, now, rnd, 1), b, id);
      } else {
        InsertKeeps(t, b, id);
      }
    }
  }

  lemma AddKnownKeeps(s: State, id: nat, i: Info, a: Address, source: NetAddr, now: int, rnd: Draws)
    requires Inv(s) && id in s.info && SamePlace(s.info[id], i) && WantsRef(i, a, rnd)
    ensures Ready(s.(info := s.info[id := i]))
    ensures Inv(Refer(s.(info := s.info[id := i]), id, source, now, rnd))
  {
    var t := s.(info := s.info[id := i]);
    TouchKeeps(s, id, i, {});
    InvIsReady(t);
    BumpKeeps(t, id);
    ReferKeeps(t, id, source, now, rnd);
  }

  lemma AddFreshKeeps(s: State, a: Address, source: NetAddr, penalty: int, now: int, rnd: Draws)
    requires Inv(s) && !Find(s, a.svc.ip)
    ensures Ready(Fresh(s, a, source, penalty))
    ensures Inv(Refer(Fresh(s, a, source, penalty), s.idCount, source, now, rnd))
  {
    InvIsReady(s);
    FreshReady(s, a, source, penalty);
    FreshKeeps(s, a, source, penalty);
    FreshEntry(s, a, source, penalty);
    FreshUnheld(s.info, s.addr, s.idCount, s.newb);
    FirstRefer(Fresh(s, a, source, penalty), s.idCount, source, now, rnd);
  }

  lemma FreshEntry(s: State, a: Address, source: NetAddr, penalty: int)
    ensures var t := Fresh(s, a, source, penalty); s.idCount in t.info && t.info[s.idCount].refCount == 0 && t.newb == s.newb
  {
  }

  /** No bucket holds the next id. */
  lemma FreshUnheld(info: map<nat, Info>, addr: map<NetAddr, nat>, idCount: nat, newb: seq<set<nat>>)
    requires AddrOk(info, addr, idCount) && NewOk(info, newb, {})
    ensures Unheld(newb, idCount)
  {
    assert idCount !in info;
  }

  ghost predicate Unheld(newb: seq<set<nat>>, id: nat) { forall b :: 0 <= b < |newb| ==> id !in newb[b] }

  /** An entry gets its first reference. */
  lemma FirstRefer(t: State, id: nat, source: NetAddr, now: int, rnd: Draws)
    requires Ready(t) && id in t.info && t.info[id].refCount == 0 && Unheld(t.newb, id)
    requires Consistent(SetRef(t, id, 1), {id})
    ensures Inv(Refer(t, id, source, now, rnd))
  {
    assert t.info[id].refCount + 1 == 1;
    var b := NewBucket(t.cfg, t.key, t.info[id], source);
    assert b < |t.newb| && id !in t.newb[b];
    ReferKeeps(t, id, source, now, rnd);
  }

  lemma AddKeeps(s: State, a: Address, source: NetAddr, penalty: int, now: int, rnd: Draws)
    requires Inv(s)
    ensures Ready(s) && Inv(Add(s, a, source, penalty, now, rnd).s)
  {
    InvIsReady(s);
    if s.cfg.routable(a.svc.ip) {
      if Find(s, a.svc.ip) {
        var id := s.addr[a.svc.ip];
        var i := Refresh(s.info[id], a, penalty, now);
        TouchKeeps(s, id, i, {});
        if WantsRef(i, a, rnd) {
          AddKnownKeeps(s, id, i, a, source, now, rnd);
        }
      } else {
        AddFreshKeeps(s, a, source, penalty, now, rnd);
      }
    }
  }
}
