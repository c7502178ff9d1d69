/** The stochastic address manager: its tables as values, and what every
    operation computes on them.  Random draws and the clock are inputs; the
    two bucket hashes and the routability test are parameters (`Config`). */
module AddrManModel {
  import opened Common
  import opened SortedSets

  const TRIED_BUCKET_COUNT := 64
  const TRIED_BUCKET_SIZE := 64
  const NEW_BUCKET_COUNT := 256
  const NEW_BUCKET_SIZE := 64
  const NEW_BUCKETS_PER_ADDRESS := 4
  const TRIED_ENTRIES_INSPECT_ON_EVICT := 4
  const HORIZON_DAYS := 30
  const RETRIES := 3
  const MAX_FAILURES := 10
  const MIN_FAIL_DAYS := 7
  const GETADDR_MAX_PCT := 23
  const GETADDR_MAX := 2500

  type NetAddr = nat          // CNetAddr: the 128-bit address
  type Key = seq<bv8>

  datatype Service = Service(ip: NetAddr, port: nat)
  /** CAddress; the flag word `nServices` is the set of its bits. */
  datatype Address = Address(svc: Service, services: set<nat>, time: nat)

  /** The part of CAddrInfo that is written to disk. */
  datatype Stats = Stats(
    svc: Service, services: set<nat>, time: nat, source: NetAddr,
    lastSuccess: int, attempts: int)

  /** CAddrInfo: the persisted statistics, and four memory-only fields. */
  datatype Info = Info(
    p: Stats, lastTry: int, refCount: int, inTried: bool, randomPos: int)

  datatype Config = Config(
    triedHash: (Key, Service) -> nat,
    newHash: (Key, NetAddr, NetAddr) -> nat,
    routable: NetAddr -> bool)

  /** One infinite run of raw random numbers; draw `i` below `n` is `Draw`. */
  type Draws = nat -> nat

  function Draw(rnd: Draws, i: nat, n: nat): (r: nat)
    ensures n > 0 ==> r < n
  {
    if n == 0 then 0 else Remainder(rnd(i), n)
  }

  /** x % n, written without a division by a variable. */
  function Remainder(x: nat, n: nat): (r: nat)
    requires n > 0
    ensures r < n
  {
    if x < n then x else Remainder(x - n, n)
  }

  datatype State = State(
    cfg: Config, key: Key, idCount: nat,
    info: map<nat, Info>, addr: map<NetAddr, nat>, random: seq<nat>,
    nTried: int, tried: seq<seq<nat>>,
    nNew: int, newb: seq<set<nat>>)

  /** Assignment of a 64-bit value to the 32-bit `nTime`. */
  function ToU32(x: int): (r: nat)
    ensures r < 0x1_0000_0000
  {
    x % 0x1_0000_0000
  }

  function Max(a: int, b: int): int { if a < b then b else a }

  function TriedBucket(cfg: Config, key: Key, i: Info): (b: nat)
    ensures b < TRIED_BUCKET_COUNT
  {
    cfg.triedHash(key, i.p.svc) % TRIED_BUCKET_COUNT
  }

  function NewBucket(cfg: Config, key: Key, i: Info, src: NetAddr): (b: nat)
    ensures b < NEW_BUCKET_COUNT
  {
    cfg.newHash(key, i.p.svc.ip, src) % NEW_BUCKET_COUNT
  }

  predicate IsTerrible(i: Info, now: int) {
    if i.lastTry != 0 && i.lastTry >= now - 60 then false
    else
      || i.p.time > now + 10 * 60
      || i.p.time == 0
      || now - i.p.time > HORIZON_DAYS * 86400
      || (i.p.lastSuccess == 0 && i.p.attempts >= RETRIES)
      || (now - i.p.lastSuccess > MIN_FAIL_DAYS * 86400 && i.p.attempts >= MAX_FAILURES)
  }

  function Empty(cfg: Config, key: Key): State {
    State(cfg, key, 0, map[], map[], [],
          0, seq(TRIED_BUCKET_COUNT, _ => []),
          0, seq(NEW_BUCKET_COUNT, _ => {}))
  }

  // ---------------------------------------------------------------------
  // The consistency condition (Check_, strengthened by bucket placement)
  // ---------------------------------------------------------------------

  /** `nRandomPos` and `vRandom` are inverse to each other. */
  ghost predicate RandomOk(info: map<nat, Info>, random: seq<nat>) {
    && (forall id :: id in info ==>
          0 <= info[id].randomPos < |random| && random[info[id].randomPos] == id)
    && (forall i :: 0 <= i < |random| ==> random[i] in info && info[random[i]].randomPos == i)
  }

  /** `mapAddr` and the addresses in `mapInfo` are inverse to each other. */
  ghost predicate AddrOk(info: map<nat, Info>, addr: map<NetAddr, nat>, idCount: nat) {
    && (forall id :: id in info ==>
          id < idCount && info[id].p.svc.ip in addr && addr[info[id].p.svc.ip] == id)
    && (forall a :: a in addr ==> addr[a] in info && info[addr[a]].p.svc.ip == a)
  }

  ghost predicate Distinct(q: seq<nat>) {
    forall i, j :: 0 <= i < j < |q| ==> q[i] != q[j]
  }

  /** Tried entries sit exactly once in their own bucket; buckets are bounded. */
  ghost predicate TriedOk(cfg: Config, key: Key, info: map<nat, Info>, tried: seq<seq<nat>>) {
    && |tried| == TRIED_BUCKET_COUNT
    && (forall k :: 0 <= k < |tried| ==> |tried[k]| <= TRIED_BUCKET_SIZE && Distinct(tried[k]))
    && (forall k, id :: 0 <= k < |tried| && id in tried[k] ==>
          id in info && info[id].inTried && TriedBucket(cfg, key, info[id]) == k)
    && (forall id :: id in info && info[id].inTried ==>
          info[id].refCount == 0 && id in tried[TriedBucket(cfg, key, info[id])])
  }

  ghost function Holders(newb: seq<set<nat>>, id: nat): set<nat> {
    set b | 0 <= b < |newb| && id in newb[b]
  }

  /** New entries are referenced by as many buckets as `nRefCount` says; an id
      in `pend` is counted once more than it is held (Add_ counts first). */
  ghost predicate NewOk(info: map<nat, Info>, newb: seq<set<nat>>, pend: set<nat>) {
    && |newb| == NEW_BUCKET_COUNT
    && (forall b :: 0 <= b < |newb| ==> |newb[b]| <= NEW_BUCKET_SIZE)
    && (forall b, id :: 0 <= b < |newb| && id in newb[b] ==> id in info && !info[id].inTried)
    && (forall id :: id in pend ==> id in info && !info[id].inTried)
    && (forall id :: id in info && !info[id].inTried ==>
          && 1 <= info[id].refCount <= NEW_BUCKETS_PER_ADDRESS
          && info[id].refCount == |Holders(newb, id)| + if id in pend then 1 else 0)
  }

  ghost function TriedIds(info: map<nat, Info>): set<nat> {
    set id | id in info && info[id].inTried
  }

  ghost function NewIds(info: map<nat, Info>): set<nat> {
    set id | id in info && !info[id].inTried
  }

  ghost predicate CountsOk(info: map<nat, Info>, nNew: int, nTried: int) {
    nNew == |NewIds(info)| && nTried == |TriedIds(info)|
  }

  ghost predicate Consistent(s: State, pend: set<nat>) {
    match s
    case State(cfg, key, idCount, info, addr, random, nTried, tried, nNew, newb) =>
      && RandomOk(info, random)
      && AddrOk(info, addr, idCount)
      && TriedOk(cfg, key, info, tried)
      && NewOk(info, newb, pend)
      && CountsOk(info, nNew, nTried)
  }

  ghost predicate Inv(s: State) { Consistent(s, {}) }

  /** The three conditions of Check_ on time stamps. */
  ghost predicate TimesOk(s: State) {
    forall id :: id in s.info ==>
      && s.info[id].lastTry >= 0 && s.info[id].p.lastSuccess >= 0
      && (s.info[id].inTried ==> s.info[id].p.lastSuccess != 0)
  }

  /** Positions and ids can be followed both ways (the range checks that the
      original asserts). */
  ghost predicate Linked(info: map<nat, Info>, random: seq<nat>) {
    && Known(info, random)
    && forall id :: id in info ==> 0 <= info[id].randomPos < |random|
  }

  ghost predicate Known(info: map<nat, Info>, random: seq<nat>) {
    forall i :: 0 <= i < |random| ==> random[i] in info
  }

  /** All that the operations need in order not to fail one of their asserts
      (implied by `Inv`). */
  ghost predicate Ready(s: State) {
    && Linked(s.info, s.random) && (forall id :: id in s.info ==> id < s.idCount)
    && |s.newb| == NEW_BUCKET_COUNT && |s.tried| == TRIED_BUCKET_COUNT
    && (forall b, x :: 0 <= b < |s.newb| && x in s.newb[b] ==> x in s.info && !s.info[x].inTried)
    && (forall k, x :: 0 <= k < |s.tried| && x in s.tried[k] ==> x in s.info && s.info[x].inTried)
  }

  // ---------------------------------------------------------------------
  // Building blocks
  // ---------------------------------------------------------------------

  function Find(s: State, ip: NetAddr): bool {
    ip in s.addr && s.addr[ip] in s.info
  }

  function Create(s: State, a: Address, source: NetAddr): State {
    var id := s.idCount;
    var i := Info(Stats(a.svc, a.services, a.time, source, 0, 0), 0, 0, false, |s.random|);
    s.(idCount := id + 1, info := s.info[id := i],
       addr := s.addr[a.svc.ip := id], random := s.random + [id])
  }

  function SwapPositions(info: map<nat, Info>, a: nat, b: nat): map<nat, Info>
    requires a in info && b in info
  {
    info[a := info[a].(randomPos := info[b].randomPos)][b := info[b].(randomPos := info[a].randomPos)]
  }

  function SwapAt(q: seq<nat>, i: nat, j: nat): seq<nat>
    requires i < |q| && j < |q|
  {
    q[i := q[j]][j := q[i]]
  }

  /** Removes entry `id` from the four indexes (its buckets aside). */
  function Delete(s: State, id: nat): State
    requires Linked(s.info, s.random) && id in s.info
  {
    var last := |s.random| - 1;
    s.(random := SwapAt(s.random, s.info[id].randomPos, last)[..last],
       addr := s.addr - {s.info[id].p.svc.ip},
       info := SwapPositions(s.info, id, s.random[last]) - {id},
       nNew := s.nNew - 1)
  }

  function SetRef(s: State, id: nat, n: int): State
    requires id in s.info
  {
    s.(info := s.info[id := s.info[id].(refCount := n)])
  }

  /** Takes `id` out of new bucket `b`, and out of the manager when that was
      its last reference. */
  function DropRef(s: State, b: nat, id: nat): State
    requires Linked(s.info, s.random) && id in s.info && b < |s.newb|
  {
    var c := SetRef(s, id, s.info[id].refCount - 1);
    var t := if c.info[id].refCount == 0 then Delete(c, id) else c;
    t.(newb := t.newb[b := t.newb[b] - {id}])
  }

  /** Index of the first terrible entry of `q` from position `i` on, or |q|. */
  function FirstTerrible(q: seq<nat>, info: map<nat, Info>, now: int, i: nat): (j: nat)
    requires i <= |q| && forall x :: x in q ==> x in info
    ensures i <= j <= |q|
    decreases |q| - i
  {
    if i == |q| then i
    else if IsTerrible(info[q[i]], now) then i
    else FirstTerrible(q, info, now, i + 1)
  }

  lemma {:induction false} FirstTerribleIsFirst(q: seq<nat>, info: map<nat, Info>, now: int, i: nat)
    requires i <= |q| && forall x :: x in q ==> x in info
    ensures var j := FirstTerrible(q, info, now, i);
            && (forall k :: i <= k < j ==> !IsTerrible(info[q[k]], now))
            && (j < |q| ==> IsTerrible(info[q[j]], now))
    decreases |q| - i
  {
    if i < |q| && !IsTerrible(info[q[i]], now) {
      FirstTerribleIsFirst(q, info, now, i + 1);
    }
  }

  /** The chosen position, at or after `i`, whose entry was seen least recently;
      the earliest on ties; |q| when no position is chosen. */
  function OldestChosen(q: seq<nat>, info: map<nat, Info>, n: seq<nat>, i: nat): (j: nat)
    requires i <= |q| && forall x :: x in q ==> x in info
    ensures i <= j <= |q|
    decreases |q| - i
  {
    if i == |q| then i
    else
      var j := OldestChosen(q, info, n, i + 1);
      if i in n && (j == |q| || info[q[i]].p.time <= info[q[j]].p.time) then i else j
  }

  lemma {:induction false} OldestChosenIsOldest(q: seq<nat>, info: map<nat, Info>, n: seq<nat>, i: nat)
    requires i <= |q| && forall x :: x in q ==> x in info
    ensures var j := OldestChosen(q, info, n, i);
            && (j < |q| ==> j in n)
            && (forall k :: i <= k < |q| && k in n ==>
                  && j < |q| && info[q[j]].p.time <= info[q[k]].p.time
                  && (k < j ==> info[q[j]].p.time < info[q[k]].p.time))
    decreases |q| - i
  {
    if i < |q| {
      OldestChosenIsOldest(q, info, n, i + 1);
    }
  }

  function FourDraws(rnd: Draws, base: nat, size: nat): seq<nat> {
    [Draw(rnd, base, size), Draw(rnd, base + 1, size), Draw(rnd, base + 2, size), Draw(rnd, base + 3, size)]
  }

  /** The entry ShrinkNew removes from a non-empty bucket. */
  function ShrinkVictim(s: State, b: nat, now: int, rnd: Draws, base: nat): (id: nat)
    requires b < |s.newb| && s.newb[b] != {}
    requires forall x :: x in s.newb[b] ==> x in s.info
    ensures id in s.newb[b]
  {
    var q := Ascending(s.newb[b]);
    AscendingEnumerates(s.newb[b]);
    var j := FirstTerrible(q, s.info, now, 0);
    if j < |q| then q[j]
    else
      var n := FourDraws(rnd, base, |q|);
      OldestChosenIsOldest(q, s.info, n, 0);
      assert n[0] in n;
      q[OldestChosen(q, s.info, n, 0)]
  }

  lemma SetRefReady(s: State, id: nat, n: int)
    requires Ready(s) && id in s.info
    ensures Ready(SetRef(s, id, n))
  {
  }

  function ShrinkNew(s: State, b: nat, now: int, rnd: Draws, base: nat): State
    requires Ready(s) && b < NEW_BUCKET_COUNT && s.newb[b] != {}
  {
    DropRef(s, b, ShrinkVictim(s, b, now, rnd, base))
  }

  /** SelectTried's variables: the bucket, the id with the smallest
      `nLastSuccess` so far (-1: none), and the position it was swapped from. */
  datatype Scan = Scan(v: seq<nat>, oldest: int, pos: int)

  ghost predicate ScanOk(c: Scan, info: map<nat, Info>, i: nat) {
    && i <= |c.v| && (forall x :: x in c.v ==> x in info)
    && (c.oldest == -1 || c.oldest in info)
    && (c.oldest == -1 <==> i == 0) && (i > 0 ==> 0 <= c.pos < |c.v|)
  }

  /** One iteration: element `i` is exchanged with a random later one. */
  function InspectOne(c: Scan, info: map<nat, Info>, rnd: Draws, base: nat, i: nat): (d: Scan)
    requires ScanOk(c, info, i) && i < |c.v|
    ensures ScanOk(d, info, i + 1) && |d.v| == |c.v|
  {
    var r := Draw(rnd, base + i, |c.v| - i) + i;
    var x := c.v[r];
    var w := c.v[r := c.v[i]][i := x];
    SwapPermutes(c.v, i, r);
    if c.oldest == -1 || info[x].p.lastSuccess < info[c.oldest].p.lastSuccess
    then Scan(w, x, r) else Scan(w, c.oldest, c.pos)
  }

  function Inspect(c: Scan, info: map<nat, Info>, rnd: Draws, base: nat, i: nat): (d: Scan)
    requires ScanOk(c, info, i)
    ensures |d.v| == |c.v| && (|c.v| > 0 ==> 0 <= d.pos < |d.v|)
    decreases |c.v| - i
  {
    if i < TRIED_ENTRIES_INSPECT_ON_EVICT && i < |c.v| then
      Inspect(InspectOne(c, info, rnd, base, i), info, rnd, base, i + 1)
    else c
  }

  function SelectTried(v: seq<nat>, info: map<nat, Info>, rnd: Draws, base: nat): (d: Scan)
    requires v != [] && forall x :: x in v ==> x in info
    ensures multiset(d.v) == multiset(v) && 0 <= d.pos < |d.v| == |v|
  {
    InspectPermutes(Scan(v, -1, -1), info, rnd, base, 0);
    Inspect(Scan(v, -1, -1), info, rnd, base, 0)
  }

  /** SelectTried on a bucket; some element of it ends up at `pos`. */
  function PickTried(v: seq<nat>, info: map<nat, Info>, rnd: Draws, base: nat): (d: Scan)
    requires v != [] && forall x :: x in v ==> x in info
    ensures 0 <= d.pos < |d.v| && d.v[d.pos] in v
  {
    var d := SelectTried(v, info, rnd, base);
    assert d.v[d.pos] in multiset(d.v);
    d
  }

  lemma {:induction false} InspectPermutes(c: Scan, info: map<nat, Info>, rnd: Draws, base: nat, i: nat)
    requires ScanOk(c, info, i)
    ensures multiset(Inspect(c, info, rnd, base, i).v) == multiset(c.v)
    decreases |c.v| - i
  {
    if i < TRIED_ENTRIES_INSPECT_ON_EVICT && i < |c.v| {
      var r := Draw(rnd, base + i, |c.v| - i) + i;
      SwapPermutes(c.v, i, r);
      assert InspectOne(c, info, rnd, base, i).v == c.v[r := c.v[i]][i := c.v[r]];
      InspectPermutes(InspectOne(c, info, rnd, base, i), info, rnd, base, i + 1);
    }
  }

  lemma SwapPermutes(v: seq<nat>, i: nat, r: nat)
    requires i <= r < |v|
    ensures var w := v[r := v[i]][i := v[r]];
            multiset(w) == multiset(v) && forall y :: y in w ==> y in v
  {
    var u := v[r := v[i]];
    assert multiset(u) == multiset(v) - multiset{v[r]} + multiset{v[i]};
    assert multiset(u[i := v[r]]) == multiset(u) - multiset{u[i]} + multiset{v[r]};
  }

  function Without(newb: seq<set<nat>>, id: nat): (r: seq<set<nat>>)
    ensures |r| == |newb| && forall b :: 0 <= b < |r| ==> r[b] == newb[b] - {id}
  {
    seq(|newb|, b requires 0 <= b < |newb| => newb[b] - {id})
  }

  /** How many of the first `n` buckets hold `id`. */
  function CountHeld(newb: seq<set<nat>>, id: nat, n: nat): nat
    requires n <= |newb|
  {
    if n == 0 then 0
    else CountHeld(newb, id, n - 1) + if id in newb[n - 1] then 1 else 0
  }

  /** Entry `id`, already out of the new buckets, replaces the entry that was
      picked in its full bucket `k`; that one goes back to the new buckets. */
  function Evict(t: State, id: nat, k: nat, origin: nat, d: Scan): State
    requires |t.newb| == NEW_BUCKET_COUNT && origin < NEW_BUCKET_COUNT && k < |t.tried|
    requires id in t.info && 0 <= d.pos < |d.v| && d.v[d.pos] in t.info
  {
    var ev := d.v[d.pos];
    var b := NewBucket(t.cfg, t.key, t.info[ev], t.info[ev].p.source);
    var dest := if |t.newb[b]| < NEW_BUCKET_SIZE then b else origin;
    var m := t.info[ev := t.info[ev].(inTried := false, refCount := 1)];
    t.(newb := t.newb[dest := t.newb[dest] + {ev}], nNew := t.nNew + 1,
       tried := t.tried[k := d.v[d.pos := id]],
       info := m[id := t.info[id].(inTried := true)])
  }

  /** Entry `id` leaves all the new buckets. */
  function LeaveNew(s: State, id: nat): State
    requires id in s.info
  {
    var i := s.info[id].(refCount := s.info[id].refCount - CountHeld(s.newb, id, |s.newb|));
    s.(info := s.info[id := i], newb := Without(s.newb, id), nNew := s.nNew - 1)
  }

  function EnterTried(t: State, id: nat, k: nat): State
    requires id in t.info && k < |t.tried|
  {
    t.(tried := t.tried[k := t.tried[k] + [id]], nTried := t.nTried + 1,
       info := t.info[id := t.info[id].(inTried := true)])
  }

  /** Moves new entry `id`, found in new bucket `origin`, to the tried table. */
  function MakeTried(s: State, id: nat, origin: nat, rnd: Draws, base: nat): State
    requires Ready(s) && id in s.info && !s.info[id].inTried && origin < NEW_BUCKET_COUNT
  {
    var t := LeaveNew(s, id);
    var k := TriedBucket(s.cfg, s.key, s.info[id]);
    if |t.tried[k]| < TRIED_BUCKET_SIZE then EnterTried(t, id, k)
    else Evict(t, id, k, origin, PickTried(t.tried[k], t.info, rnd, base))
  }

  function Wrap(n: nat, r: nat, size: nat): (b: nat)
    requires size > 0
    ensures b < size
  {
    (n + r) % size
  }

  /** The first of the buckets r, r+1, ... (wrapping) that holds `id`, looking
      from offset `n` on; -1 when none does. */
  function FindBucket(newb: seq<set<nat>>, id: nat, r: nat, n: nat): (b: int)
    requires n <= |newb|
    ensures -1 <= b < |newb|
    ensures b >= 0 ==> id in newb[b]
    ensures b < 0 ==> forall m :: n <= m < |newb| ==> id !in newb[Wrap(m, r, |newb|)]
    decreases |newb| - n
  {
    if n == |newb| then -1
    else if id in newb[Wrap(n, r, |newb|)] then Wrap(n, r, |newb|)
    else FindBucket(newb, id, r, n + 1)
  }

  // ---------------------------------------------------------------------
  // The operations
  // ---------------------------------------------------------------------

  function Good(s: State, svc: Service, time: int, rnd: Draws): State
    requires Ready(s)
  {
    if !Find(s, svc.ip) || s.info[s.addr[svc.ip]].p.svc != svc then s
    else
      var id := s.addr[svc.ip];
      var i := s.info[id].(p := s.info[id].p.(lastSuccess := time, time := ToU32(time), attempts := 0), lastTry := time);
      var t := s.(info := s.info[id := i]);
      if i.inTried then t
      else
        var b := FindBucket(t.newb, id, Draw(rnd, 0, |t.newb|), 0);
        if b == -1 then t else MakeTried(t, id, b, rnd, 1)
  }

  /** What Add_ does to the entry of an address it already knows. */
  function Refresh(i: Info, a: Address, penalty: int, now: int): Info {
    var interval := if now - a.time < 24 * 60 * 60 then 60 * 60 else 24 * 60 * 60;
    var t := if a.time != 0 && (i.p.time == 0 || i.p.time < a.time - interval - penalty)
             then ToU32(Max(0, a.time - penalty)) else i.p.time;
    i.(p := i.p.(time := t, services := i.p.services + a.services))
  }

  /** Whether Add_ goes on to give a known address one more reference. */
  predicate WantsRef(i: Info, a: Address, rnd: Draws) {
    && a.time != 0 && (i.p.time == 0 || a.time > i.p.time)
    && !i.inTried
    && i.refCount != NEW_BUCKETS_PER_ADDRESS
    && (i.refCount <= 0 || Draw(rnd, 0, Pow2(i.refCount)) == 0)
  }

  /** Adds one reference to `id` in the bucket chosen by the source, making
      room first when the bucket is full. */
  function Refer(s: State, id: nat, source: NetAddr, now: int, rnd: Draws): State
    requires Ready(s) && id in s.info
  {
    var b := NewBucket(s.cfg, s.key, s.info[id], source);
    if id in s.newb[b] then s
    else
      var t := SetRef(s, id, s.info[id].refCount + 1);
      SetRefReady(s, id, s.info[id].refCount + 1);
      var u := if |t.newb[b]| == NEW_BUCKET_SIZE then ShrinkNew(t, b, now, rnd, 1) else t;
      u.(newb := u.newb[b := u.newb[b] + {id}])
  }

  function Fresh(s: State, a: Address, source: NetAddr, penalty: int): State {
    var t := Create(s, a, source);
    var id := s.idCount;
    t.(info := t.info[id := t.info[id].(p := t.info[id].p.(time := ToU32(Max(0, a.time - penalty))))],
       nNew := t.nNew + 1)
  }

  datatype Added = Added(s: State, isNew: bool)

  function Add(s: State, a: Address, source: NetAddr, penalty: int, now: int, rnd: Draws): Added
    requires Ready(s)
  {
    if !s.cfg.routable(a.svc.ip) then Added(s, false)
    else if Find(s, a.svc.ip) then
      var id := s.addr[a.svc.ip];
      var i := Refresh(s.info[id], a, penalty, now);
      var t := s.(info := s.info[id := i]);
      Added(if WantsRef(i, a, rnd) then Refer(t, id, source, now, rnd) else t, false)
    else
      FreshReady(s, a, source, penalty);
      Added(Refer(Fresh(s, a, source, penalty), s.idCount, source, now, rnd), true)
  }

  lemma FreshReady(s: State, a: Address, source: NetAddr, penalty: int)
    requires Ready(s)
    ensures Ready(Fresh(s, a, source, penalty))
  {
    var t := Fresh(s, a, source, penalty);
    assert forall x :: x in s.info ==> x in t.info && t.info[x] == s.info[x];
  }

  function AttemptInfo(i: Info, time: int): Info {
    i.(lastTry := time, p := i.p.(attempts := i.p.attempts + 1))
  }

  function Attempt(s: State, svc: Service, time: int): State {
    if !Find(s, svc.ip) || s.info[s.addr[svc.ip]].p.svc != svc then s
    else
      var id := s.addr[svc.ip];
      s.(info := s.info[id := AttemptInfo(s.info[id], time)])
  }

  function Connected(s: State, svc: Service, time: int): State {
    if !Find(s, svc.ip) || s.info[s.addr[svc.ip]].p.svc != svc then s
    else
      var id := s.addr[svc.ip];
      var i := s.info[id];
      if time - i.p.time > 20 * 60 then s.(info := s.info[id := i.(p := i.p.(time := ToU32(time)))]) else s
  }

  function GetAddrCount(size: nat): (n: nat)
    ensures n <= size && n <= GETADDR_MAX
  {
    var n := GETADDR_MAX_PCT * size / 100;
    if n > GETADDR_MAX then GETADDR_MAX else n
  }

  function SwapRandom(s: State, i: nat, j: nat): State
    requires Known(s.info, s.random) && i < |s.random| && j < |s.random|
  {
    s.(info := SwapPositions(s.info, s.random[i], s.random[j]), random := SwapAt(s.random, i, j))
  }

  lemma SwapKeepsKnown(s: State, i: nat, j: nat)
    requires Known(s.info, s.random) && i < |s.random| && j < |s.random|
    ensures Known(SwapRandom(s, i, j).info, SwapRandom(s, i, j).random)
  {
  }

  /** One iteration of GetAddr_: a random entry is brought to position `n`. */
  function Shuffle(s: State, n: nat, rnd: Draws): (t: State)
    requires Known(s.info, s.random) && n < |s.random|
    ensures Known(t.info, t.random) && |t.random| == |s.random|
  {
    SwapKeepsKnown(s, n, Draw(rnd, n, |s.random| - n) + n);
    SwapRandom(s, n, Draw(rnd, n, |s.random| - n) + n)
  }

  datatype Listed = Listed(s: State, list: seq<Info>)

  /** GetAddr_ from iteration `n` on, `got` being what was listed before. */
  function GetAddr(s: State, n: nat, count: nat, got: seq<Info>, rnd: Draws): Listed
    requires Known(s.info, s.random) && n <= count <= |s.random|
    decreases count - n
  {
    if n == count then Listed(s, got)
    else
      var t := Shuffle(s, n, rnd);
      GetAddr(t, n + 1, count, got + [t.info[t.random[n]]], rnd)
  }

  lemma SwapKeepsRandom(info: map<nat, Info>, random: seq<nat>, i: nat, j: nat)
    requires RandomOk(info, random) && i < |random| && j < |random|
    ensures RandomOk(SwapPositions(info, random[i], random[j]), SwapAt(random, i, j))
  {
  }

  // ---------------------------------------------------------------------
  // Runs
  // ---------------------------------------------------------------------

  datatype Op =
    | OpAdd(a: Address, source: NetAddr, penalty: int, now: int, rnd: Draws)
    | OpGood(svc: Service, time: int, rnd: Draws)
    | OpAttempt(svc: Service, time: int)
    | OpConnected(svc: Service, time: int)
    | OpGetAddr(rnd: Draws)

  function Step(s: State, op: Op): State
    requires Ready(s)
  {
    match op
    case OpAdd(a, source, penalty, now, rnd) => Add(s, a, source, penalty, now, rnd).s
    case OpGood(svc, time, rnd) => Good(s, svc, time, rnd)
    case OpAttempt(svc, time) => Attempt(s, svc, time)
    case OpConnected(svc, time) => Connected(s, svc, time)
    case OpGetAddr(rnd) => GetAddr(s, 0, GetAddrCount(|s.random|), [], rnd).s
  }
}
