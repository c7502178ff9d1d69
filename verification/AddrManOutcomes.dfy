/** What each operation of the address manager does to the entry it is about, in terms of
    the stored data before and after. */
module AddrManOutcomes {
  import opened Common
  import opened SortedSets
  import opened AddrManModel
  import opened AddrManProofs
  import opened AddrManTried
  import opened AddrManRuns
  import Check = AddrManCheck
  import opened AddrManDisk

  // --- Add_ on a known address ---------------------------------------------------------------

  /** The stored time is missing, or older than the announced one by more than the penalty
      and an hour, or a day for an address not seen in the last day. */
  predicate Overdue(stored: int, a: Address, penalty: int, now: int) {
    a.time != 0 && (stored == 0 || a.time - penalty - stored > if now - a.time < 86400 then 3600 else 86400)
  }

  lemma RefreshTime(i: Info, a: Address, penalty: int, now: int)
    ensures Refresh(i, a, penalty, now).p.time ==
              if !Overdue(i.p.time, a, penalty, now) then i.p.time
              else if a.time <= penalty then 0 else (a.time - penalty) % 0x1_0000_0000
  {
  }

  lemma KnownKeeps(s: State, id: nat, a: Address, source: NetAddr, penalty: int, now: int, rnd: Draws)
    requires Ready(s) && s.cfg.routable(a.svc.ip) && Find(s, a.svc.ip) && id == s.addr[a.svc.ip]
    ensures var t := Add(s, a, source, penalty, now, rnd).s;
            id in t.info && SameEntry(Refresh(s.info[id], a, penalty, now), t.info[id])
  {
    var i := Refresh(s.info[id], a, penalty, now);
    if WantsRef(i, a, rnd) {
      var lost := ReferLoses(s.(info := s.info[id := i]), id, source, now, rnd);
    }
  }

  /** The stored time is replaced exactly when it is overdue. */
  lemma KnownTime(s: State, id: nat, a: Address, source: NetAddr, penalty: int, now: int, rnd: Draws)
    requires Ready(s) && s.cfg.routable(a.svc.ip) && Find(s, a.svc.ip) && id == s.addr[a.svc.ip]
    ensures var i, t := s.info[id], Add(s, a, source, penalty, now, rnd).s;
            id in t.info && t.info[id].p.time ==
              if !Overdue(i.p.time, a, penalty, now) then i.p.time
              else if a.time <= penalty then 0 else (a.time - penalty) % 0x1_0000_0000
  {
    KnownKeeps(s, id, a, source, penalty, now, rnd);
    RefreshTime(s.info[id], a, penalty, now);
  }

  /** A known entry gets one more reference exactly if it is a new one with fewer than four,
      the announcement is newer than the time now stored, the draw out of 2^n is 0 where n is
      the number of references, and the bucket of the source does not hold it yet. */
  lemma KnownReference(s: State, id: nat, a: Address, source: NetAddr, penalty: int, now: int, rnd: Draws)
    requires Ready(s) && s.cfg.routable(a.svc.ip) && Find(s, a.svc.ip) && id == s.addr[a.svc.ip]
    requires 0 <= s.info[id].refCount <= 4
    ensures var i, t := s.info[id], Add(s, a, source, penalty, now, rnd).s;
            var b := s.cfg.newHash(s.key, i.p.svc.ip, source) % 256;
            var more := !i.inTried && i.refCount < 4 && a.time != 0 && (t.info[id].p.time == 0 || a.time > t.info[id].p.time)
                        && Draw(rnd, 0, Pow2(i.refCount)) == 0 && id !in s.newb[b];
            && id in t.info && t.info[id].refCount == i.refCount + (if more then 1 else 0)
            && (more ==> id in t.newb[b])
  {
    var i := Refresh(s.info[id], a, penalty, now);
    var r := s.(info := s.info[id := i]);
    if WantsRef(i, a, rnd) {
      var lost := ReferLoses(r, id, source, now, rnd);
    }
  }

  // --- Add_ on a new address -------------------------------------------------------------------

  lemma FreshStays(s: State, a: Address, source: NetAddr, penalty: int, now: int, rnd: Draws)
    requires Inv(s) && s.cfg.routable(a.svc.ip) && !Find(s, a.svc.ip)
    ensures Ready(s)
    ensures var t, id := Add(s, a, source, penalty, now, rnd).s, s.idCount;
            && id in t.info && SameEntry(Fresh(s, a, source, penalty).info[id], t.info[id]) && t.info[id].refCount == 1
            && |t.newb| == NEW_BUCKET_COUNT && id in t.newb[s.cfg.newHash(s.key, a.svc.ip, source) % 256]
  {
    InvIsReady(s);
    AddFreshKeeps(s, a, source, penalty, now, rnd);
    FreshUnheld(s.info, s.addr, s.idCount, s.newb);
    var lost := ReferLoses(Fresh(s, a, source, penalty), s.idCount, source, now, rnd);
  }

  /** A new address is stored as announced, with the time less the penalty, not tried and with
      one reference, in the bucket of its source. */
  lemma FreshEntryIs(s: State, a: Address, source: NetAddr, penalty: int, now: int, rnd: Draws)
    requires Inv(s) && s.cfg.routable(a.svc.ip) && !Find(s, a.svc.ip)
    ensures Ready(s)
    ensures var t, id := Add(s, a, source, penalty, now, rnd).s, s.idCount;
            && id in t.info && |t.newb| == NEW_BUCKET_COUNT
            && t.info[id].p == Stats(a.svc, a.services, if a.time <= penalty then 0 else (a.time - penalty) % 0x1_0000_0000, source, 0, 0)
            && t.info[id].lastTry == 0 && !t.info[id].inTried && t.info[id].refCount == 1
            && id in t.newb[s.cfg.newHash(s.key, a.svc.ip, source) % 256]
  {
    FreshStays(s, a, source, penalty, now, rnd);
    FreshIs(s, a, source, penalty);
  }

  lemma FreshIs(s: State, a: Address, source: NetAddr, penalty: int)
    ensures var i := Fresh(s, a, source, penalty).info[s.idCount];
            && i.p == Stats(a.svc, a.services, if a.time <= penalty then 0 else (a.time - penalty) % 0x1_0000_0000, source, 0, 0)
            && i.lastTry == 0 && !i.inTried
  {
  }

  // --- making room -----------------------------------------------------------------------------

  /** Not tried in the last minute; and from the future, never seen, not seen for 30 days,
      three attempts without any success, or ten without one for a week. */
  predicate Hopeless(i: Info, now: int) {
    && (i.lastTry == 0 || now - i.lastTry > 60)
    && (|| i.p.time - now > 600
        || i.p.time == 0
        || now - i.p.time > 2592000
        || (i.p.lastSuccess == 0 && i.p.attempts > 2)
        || (now - i.p.lastSuccess > 604800 && i.p.attempts > 9))
  }

  lemma HopelessIs(i: Info, now: int)
    ensures Hopeless(i, now) <==> IsTerrible(i, now)
  {
  }

  ghost predicate AnyHopeless(s: State, b: nat, now: int)
    requires b < |s.newb| && forall x :: x in s.newb[b] ==> x in s.info
  {
    exists x :: x in s.newb[b] && Hopeless(s.info[x], now)
  }

  /** A full bucket gives up its first hopeless entry in the order of ids. */
  lemma HopelessGoes(s: State, b: nat, now: int, rnd: Draws, base: nat)
    requires b < |s.newb| && s.newb[b] != {} && forall x :: x in s.newb[b] ==> x in s.info
    requires AnyHopeless(s, b, now)
    ensures var v := ShrinkVictim(s, b, now, rnd, base);
            v in s.newb[b] && Hopeless(s.info[v], now) && forall x :: x in s.newb[b] && x < v ==> !Hopeless(s.info[x], now)
  {
    var q := Ascending(s.newb[b]);
    AscendingEnumerates(s.newb[b]);
    FirstTerribleIsFirst(q, s.info, now, 0);
    var y :| y in s.newb[b] && Hopeless(s.info[y], now);
    HopelessIs(s.info[y], now);
    var i :| 0 <= i < |q| && q[i] == y;
    var j := FirstTerrible(q, s.info, now, 0);
    HopelessIs(s.info[q[j]], now);
    forall x | x in s.newb[b] && x < q[j] ensures !Hopeless(s.info[x], now) {
      HopelessIs(s.info[x], now);
      var k :| 0 <= k < |q| && q[k] == x;
    }
  }

  /** One of the four entries drawn, by their places in the order of ids. */
  predicate Drawn(q: seq<nat>, rnd: Draws, base: nat, x: nat)
    requires q != []
  {
    || x == q[Draw(rnd, base, |q|)] || x == q[Draw(rnd, base + 1, |q|)]
    || x == q[Draw(rnd, base + 2, |q|)] || x == q[Draw(rnd, base + 3, |q|)]
  }

  /** Without a hopeless one it gives up, of four entries drawn, the one seen least recently,
      the first on ties. */
  lemma OldestGoes(s: State, b: nat, now: int, rnd: Draws, base: nat)
    requires b < |s.newb| && s.newb[b] != {} && forall x :: x in s.newb[b] ==> x in s.info
    requires !AnyHopeless(s, b, now)
    ensures var v, q := ShrinkVictim(s, b, now, rnd, base), Ascending(s.newb[b]);
            && q != [] && Drawn(q, rnd, base, v)
            && forall x :: x in s.newb[b] && Drawn(q, rnd, base, x) ==>
                 s.info[v].p.time <= s.info[x].p.time && (x < v ==> s.info[v].p.time < s.info[x].p.time)
  {
    var q := Ascending(s.newb[b]);
    AscendingEnumerates(s.newb[b]);
    NoneTerrible(s, b, now);
    var o := OldestPlace(q, s.info, rnd, base);
    forall x | x in s.newb[b] && Drawn(q, rnd, base, x)
      ensures s.info[q[o]].p.time <= s.info[x].p.time && (x < q[o] ==> s.info[q[o]].p.time < s.info[x].p.time)
    {
      var k := DrawnAt(q, rnd, base, x);
      PlacesOrdered(q, k, o);
    }
  }

  lemma PlacesOrdered(q: seq<nat>, i: nat, j: nat)
    requires Ascends(q) && i < |q| && j < |q|
    ensures q[i] < q[j] ==> i < j
  {
  }

  lemma OldestPlace(q: seq<nat>, info: map<nat, Info>, rnd: Draws, base: nat) returns (o: nat)
    requires q != [] && forall x :: x in q ==> x in info
    ensures var n := FourDraws(rnd, base, |q|); o == OldestChosen(q, info, n, 0) < |q| && Drawn(q, rnd, base, q[o])
    ensures forall k :: 0 <= k < |q| && k in FourDraws(rnd, base, |q|) ==>
              info[q[o]].p.time <= info[q[k]].p.time && (k < o ==> info[q[o]].p.time < info[q[k]].p.time)
  {
    var n := FourDraws(rnd, base, |q|);
    OldestChosenIsOldest(q, info, n, 0);
    assert n[0] in n;
    o := OldestChosen(q, info, n, 0);
    var k :| 0 <= k < |n| && n[k] == o;
  }

  lemma NoneTerrible(s: State, b: nat, now: int)
    requires b < |s.newb| && forall x :: x in s.newb[b] ==> x in s.info
    requires !AnyHopeless(s, b, now)
    ensures var q := Ascending(s.newb[b]);
            (forall x :: x in q ==> x in s.info) && FirstTerrible(q, s.info, now, 0) == |q|
  {
    var q := Ascending(s.newb[b]);
    AscendingEnumerates(s.newb[b]);
    FirstTerribleIsFirst(q, s.info, now, 0);
    var j := FirstTerrible(q, s.info, now, 0);
    if j < |q| {
      HopelessIs(s.info[q[j]], now);
    }
  }

  lemma DrawnAt(q: seq<nat>, rnd: Draws, base: nat, x: nat) returns (k: nat)
    requires q != [] && Drawn(q, rnd, base, x)
    ensures k < |q| && q[k] == x && k in FourDraws(rnd, base, |q|)
  {
    var n := FourDraws(rnd, base, |q|);
    if x == q[n[0]] {
      k := n[0];
    } else if x == q[n[1]] {
      k := n[1];
    } else if x == q[n[2]] {
      k := n[2];
    } else {
      k := n[3];
    }
  }

  /** One more reference goes into the bucket of the source, and only there; a full bucket
      first gives up the entry chosen. */
  lemma ReferBuckets(s: State, id: nat, source: NetAddr, now: int, rnd: Draws)
    requires Ready(s) && id in s.info
    ensures var b := s.cfg.newHash(s.key, s.info[id].p.svc.ip, source) % 256;
            var r := SetRef(s, id, s.info[id].refCount + 1);
            var t := Refer(s, id, source, now, rnd);
            if id in s.newb[b] then t == s
            else if |s.newb[b]| == 64 then
              (forall x :: x in r.newb[b] ==> x in r.info)
              && t.newb == s.newb[b := s.newb[b] - {ShrinkVictim(r, b, now, rnd, 1)} + {id}]
            else t.newb == s.newb[b := s.newb[b] + {id}]
  {
    ReferShape(s, id, source, now, rnd);
    SetRefReady(s, id, s.info[id].refCount + 1);
  }

  // --- Attempt_ and Connected_ -----------------------------------------------------------------

  /** An attempt on a stored service is counted and its time kept; nothing else changes, and
      nothing at all for any other service. */
  lemma AttemptCounts(s: State, svc: Service, time: int)
    ensures var t := Attempt(s, svc, time);
            if svc.ip in s.addr && s.addr[svc.ip] in s.info && s.info[s.addr[svc.ip]].p.svc == svc then
              var id := s.addr[svc.ip];
              && t == s.(info := t.info) && t.info.Keys == s.info.Keys
              && t.info[id].p.attempts == s.info[id].p.attempts + 1 && t.info[id].lastTry == time
              && t.info[id] == s.info[id].(lastTry := time, p := s.info[id].p.(attempts := t.info[id].p.attempts))
              && forall x :: x in s.info && x != id ==> t.info[x] == s.info[x]
            else t == s
  {
  }

  /** A connection refreshes the time of a stored service exactly if that is more than 20
      minutes old. */
  lemma ConnectionRefreshes(s: State, svc: Service, time: int)
    ensures var t := Connected(s, svc, time);
            if svc.ip in s.addr && s.addr[svc.ip] in s.info && s.info[s.addr[svc.ip]].p.svc == svc then
              var id := s.addr[svc.ip]; var i := s.info[id];
              && t == s.(info := t.info) && t.info.Keys == s.info.Keys
              && t.info[id] == i.(p := i.p.(time := if time - i.p.time > 1200 then time % 0x1_0000_0000 else i.p.time))
              && forall x :: x in s.info && x != id ==> t.info[x] == s.info[x]
            else t == s
  {
  }

  // --- GetAddr_ ----------------------------------------------------------------------------------

  /** The list holds 23 of a hundred entries, rounded down, and not more than 2500. */
  lemma ListLength(s: State, rnd: Draws)
    requires Inv(s)
    ensures Known(s.info, s.random)
    ensures var n, k := |s.info|, |GetAddr(s, 0, GetAddrCount(|s.random|), [], rnd).list|;
            && k <= 2500 && 100 * k <= 23 * n && (k < 2500 ==> 23 * n < 100 * (k + 1))
  {
    var ids := GetAddrOutcome(s, rnd);
    RandomSize(s.info, s.random);
  }

  lemma RandomSize(info: map<nat, Info>, random: seq<nat>)
    requires RandomOk(info, random)
    ensures |info| == |random|
  {
    assert Distinct(random);
    Check.DistinctSize(random);
    assert Elements(random) == info.Keys;
  }

  // --- SelectTried -------------------------------------------------------------------------------

  /** Place i of the first n holds the entry that the scan remembers: the one that succeeded
      least recently, the first on ties, with the place it was swapped from. */
  ghost predicate Chosen(d: Scan, info: map<nat, Info>, rnd: Draws, base: nat, n: nat, i: nat)
    requires n <= |d.v| && forall x :: x in d.v ==> x in info
  {
    && i < n && d.v[i] == d.oldest && d.pos == Draw(rnd, base + i, |d.v| - i) + i
    && (forall j :: 0 <= j < n ==> info[d.v[i]].p.lastSuccess <= info[d.v[j]].p.lastSuccess)
    && (forall j :: 0 <= j < i ==> info[d.v[i]].p.lastSuccess < info[d.v[j]].p.lastSuccess)
  }

  lemma InspectChooses(c: Scan, info: map<nat, Info>, rnd: Draws, base: nat, i: nat, was: nat) returns (at: nat)
    requires ScanOk(c, info, i) && i < |c.v| && (i > 0 ==> Chosen(c, info, rnd, base, i, was))
    ensures Chosen(InspectOne(c, info, rnd, base, i), info, rnd, base, i + 1, at)
  {
    var r := Draw(rnd, base + i, |c.v| - i) + i;
    var d := InspectOne(c, info, rnd, base, i);
    assert forall j :: 0 <= j < i ==> d.v[j] == c.v[j];
    assert d.v[i] == c.v[r];
    at := if c.oldest == -1 || info[c.v[r]].p.lastSuccess < info[c.oldest].p.lastSuccess then i else was;
  }

  lemma {:induction false} InspectAll(c: Scan, info: map<nat, Info>, rnd: Draws, base: nat, i: nat, was: nat) returns (at: nat)
    requires ScanOk(c, info, i) && i <= 4 && (i > 0 ==> Chosen(c, info, rnd, base, i, was))
    requires |c.v| > 0
    ensures var d := Inspect(c, info, rnd, base, i);
            (forall x :: x in d.v ==> x in info) && Chosen(d, info, rnd, base, if |d.v| < 4 then |d.v| else 4, at)
    decreases |c.v| - i
  {
    if i < 4 && i < |c.v| {
      var next := InspectChooses(c, info, rnd, base, i, was);
      at := InspectAll(InspectOne(c, info, rnd, base, i), info, rnd, base, i + 1, next);
    } else {
      at := was;
    }
  }

  /** The scan permutes the bucket, and remembers of the first four places the entry that
      succeeded least recently with the place it was swapped from. */
  lemma ScanIs(v: seq<nat>, info: map<nat, Info>, rnd: Draws, base: nat) returns (at: nat)
    requires v != [] && forall x :: x in v ==> x in info
    ensures var d := SelectTried(v, info, rnd, base);
            && multiset(d.v) == multiset(v) && (forall x :: x in d.v ==> x in info)
            && Chosen(d, info, rnd, base, if |v| < 4 then |v| else 4, at)
  {
    InspectPermutes(Scan(v, -1, -1), info, rnd, base, 0);
    at := InspectAll(Scan(v, -1, -1), info, rnd, base, 0, 0);
  }

  // --- Good_ --------------------------------------------------------------------------------------

  /** The new buckets once `id` has left them and `ev` has entered `dest`: its own bucket if
      there is room, or else one that `id` was in. */
  ghost predicate Settles(newb: seq<set<nat>>, after: seq<set<nat>>, id: nat, ev: nat, own: nat, dest: nat)
    requires |newb| == |after| == NEW_BUCKET_COUNT && own < 256
  {
    && dest < 256
    && (if |newb[own] - {id}| < 64 then dest == own else id in newb[dest])
    && forall b :: 0 <= b < 256 ==> after[b] == (newb[b] - {id}) + if b == dest then {ev} else {}
  }

  function TriedPlace(s: State, id: nat): nat
    requires id in s.info
  {
    s.cfg.triedHash(s.key, s.info[id].p.svc) % 64
  }

  function NewPlace(s: State, id: nat): nat
    requires id in s.info
  {
    s.cfg.newHash(s.key, s.info[id].p.svc.ip, s.info[id].p.source) % 256
  }

  /** The entry leaves all new buckets and enters its own tried bucket, which has room. */
  ghost predicate Enters(s: State, t: State, id: nat)
    requires id in s.info && |s.newb| == |t.newb| == NEW_BUCKET_COUNT && |s.tried| == |t.tried| == TRIED_BUCKET_COUNT
  {
    && t.tried == s.tried[TriedPlace(s, id) := s.tried[TriedPlace(s, id)] + [id]]
    && forall b :: 0 <= b < 256 ==> t.newb[b] == s.newb[b] - {id}
  }

  /** Its tried bucket is full: the entry at the place that the scan `d` remembers makes room
      and settles in a new bucket. */
  ghost predicate Replaces(s: State, t: State, id: nat, d: Scan, dest: nat)
    requires id in s.info && |s.newb| == |t.newb| == NEW_BUCKET_COUNT && |s.tried| == |t.tried| == TRIED_BUCKET_COUNT
  {
    && 0 <= d.pos < |d.v| && d.v[d.pos] in s.info && d.v[d.pos] != id
    && t.tried == s.tried[TriedPlace(s, id) := d.v[d.pos := id]]
    && Settles(s.newb, t.newb, id, d.v[d.pos], NewPlace(s, d.v[d.pos]), dest)
  }

  /** The scan of tried bucket k. */
  ghost predicate Scanned(info: map<nat, Info>, bucket: seq<nat>, d: Scan, rnd: Draws, base: nat, i: nat) {
    && multiset(d.v) == multiset(bucket) && |d.v| >= 4 && (forall x :: x in d.v ==> x in info)
    && Chosen(d, info, rnd, base, 4, i)
  }

  lemma ScannedElsewhere(m: map<nat, Info>, n: map<nat, Info>, bucket: seq<nat>, d: Scan, rnd: Draws, base: nat, i: nat)
    requires Scanned(m, bucket, d, rnd, base, i)
    requires forall x :: x in bucket ==> x in n && x in m && n[x].p.lastSuccess == m[x].p.lastSuccess
    ensures Scanned(n, bucket, d, rnd, base, i)
  {
    forall x | x in d.v ensures x in n && n[x].p.lastSuccess == m[x].p.lastSuccess {
      assert x in multiset(d.v);
    }
  }

  lemma RoomEnters(s: State, id: nat, origin: nat, rnd: Draws, base: nat)
    requires Follows(s, id) && origin < NEW_BUCKET_COUNT
    requires CountHeld(s.newb, id, |s.newb|) == s.info[id].refCount
    requires |s.tried[TriedPlace(s, id)]| < 64
    ensures var t := MakeTried(s, id, origin, rnd, base);
            |t.newb| == NEW_BUCKET_COUNT && |t.tried| == TRIED_BUCKET_COUNT && Enters(s, t, id)
  {
    var i, k := MakeTriedRoomShape(s, id, origin, rnd, base);
  }

  lemma EvictReplaces(s: State, t: State, id: nat, origin: nat, d: Scan) returns (dest: nat)
    requires Follows(s, id) && origin < NEW_BUCKET_COUNT && id in s.newb[origin]
    requires t.cfg == s.cfg && t.key == s.key && t.tried == s.tried && t.newb == Without(s.newb, id)
    requires 0 <= d.pos < |d.v| && d.v[d.pos] in s.info && d.v[d.pos] != id
    requires id in t.info && d.v[d.pos] in t.info && t.info[d.v[d.pos]] == s.info[d.v[d.pos]]
    ensures Replaces(s, Evict(t, id, TriedPlace(s, id), origin, d), id, d, dest)
  {
    dest := if |t.newb[NewPlace(s, d.v[d.pos])]| < NEW_BUCKET_SIZE then NewPlace(s, d.v[d.pos]) else origin;
  }

  lemma FullReplaces(s: State, id: nat, origin: nat, rnd: Draws, base: nat) returns (d: Scan, dest: nat, i: nat)
    requires Follows(s, id) && origin < NEW_BUCKET_COUNT && id in s.newb[origin]
    requires |s.tried[TriedPlace(s, id)]| >= 64
    ensures var t := MakeTried(s, id, origin, rnd, base);
            |t.newb| == NEW_BUCKET_COUNT && |t.tried| == TRIED_BUCKET_COUNT && Replaces(s, t, id, d, dest)
    ensures Scanned(s.info, s.tried[TriedPlace(s, id)], d, rnd, base, i)
  {
    var t := LeaveNew(s, id);
    var bucket := s.tried[TriedPlace(s, id)];
    d := PickTried(bucket, t.info, rnd, base);
    i := ScanIs(bucket, t.info, rnd, base);
    ScannedElsewhere(t.info, s.info, bucket, d, rnd, base, i);
    assert d.v[d.pos] in multiset(d.v);
    dest := EvictReplaces(s, t, id, origin, d);
  }

  /** What Good_ does with a new entry. */
  ghost predicate Moves(s: State, t: State, id: nat, d: Scan, dest: nat, rnd: Draws, i: nat)
    requires id in s.info && |s.newb| == |t.newb| == NEW_BUCKET_COUNT && |s.tried| == |t.tried| == TRIED_BUCKET_COUNT
  {
    if |s.tried[TriedPlace(s, id)]| < 64 then Enters(s, t, id)
    else Replaces(s, t, id, d, dest) && Scanned(s.info, s.tried[TriedPlace(s, id)], d, rnd, 1, i)
  }

  lemma MakeMoves(s: State, id: nat, origin: nat, rnd: Draws) returns (d: Scan, dest: nat, i: nat)
    requires Follows(s, id) && origin < NEW_BUCKET_COUNT && id in s.newb[origin]
    requires CountHeld(s.newb, id, |s.newb|) == s.info[id].refCount
    ensures var t := MakeTried(s, id, origin, rnd, 1);
            |t.newb| == NEW_BUCKET_COUNT && |t.tried| == TRIED_BUCKET_COUNT && Moves(s, t, id, d, dest, rnd, i)
  {
    d, dest, i := Scan([], -1, -1), 0, 0;
    if |s.tried[TriedPlace(s, id)]| < 64 {
      RoomEnters(s, id, origin, rnd, 1);
    } else {
      d, dest, i := FullReplaces(s, id, origin, rnd, 1);
    }
  }

  lemma SameMoves(s: State, r: State, t: State, id: nat, d: Scan, dest: nat, rnd: Draws, i: nat)
    requires Ready(s) && r == s.(info := r.info) && id in s.info && !s.info[id].inTried
    requires id in r.info && r.info == s.info[id := r.info[id]] && r.info[id].p.svc == s.info[id].p.svc
    requires |t.newb| == NEW_BUCKET_COUNT && |t.tried| == TRIED_BUCKET_COUNT && Moves(r, t, id, d, dest, rnd, i)
    ensures Moves(s, t, id, d, dest, rnd, i)
  {
    var k := TriedPlace(s, id);
    assert TriedPlace(r, id) == k;
    if |s.tried[k]| >= 64 {
      ScannedElsewhere(r.info, s.info, s.tried[k], d, rnd, 1, i);
      assert NewPlace(r, d.v[d.pos]) == NewPlace(s, d.v[d.pos]);
    }
  }

  /** Where Good_ puts a new entry, and what it evicts. */
  lemma GoodMoves(s: State, svc: Service, time: int, rnd: Draws) returns (d: Scan, dest: nat, i: nat)
    requires Inv(s) && Find(s, svc.ip) && s.info[s.addr[svc.ip]].p.svc == svc && !s.info[s.addr[svc.ip]].inTried
    ensures Ready(s) && var t := Good(s, svc, time, rnd);
            |t.newb| == NEW_BUCKET_COUNT && |t.tried| == TRIED_BUCKET_COUNT && Moves(s, t, s.addr[svc.ip], d, dest, rnd, i)
  {
    var id := s.addr[svc.ip];
    var r, b := Promotion(s, svc, time, rnd);
    d, dest, i := MakeMoves(r, id, b, rnd);
    SameMoves(s, r, Good(s, svc, time, rnd), id, d, dest, rnd, i);
  }

  /** Good_ promotes the entry, its statistics updated, from a bucket that holds it. */
  lemma Promotion(s: State, svc: Service, time: int, rnd: Draws) returns (r: State, b: nat)
    requires Inv(s) && Find(s, svc.ip) && s.info[s.addr[svc.ip]].p.svc == svc && !s.info[s.addr[svc.ip]].inTried
    ensures Ready(s) && Follows(r, s.addr[svc.ip]) && b < NEW_BUCKET_COUNT && s.addr[svc.ip] in r.newb[b]
    ensures var id := s.addr[svc.ip];
            && r == s.(info := s.info[id := GoodInfo(s.info[id], time)])
            && CountHeld(r.newb, id, |r.newb|) == r.info[id].refCount
            && Good(s, svc, time, rnd) == MakeTried(r, id, b, rnd, 1)
  {
    InvIsReady(s);
    var id := s.addr[svc.ip];
    r := s.(info := s.info[id := GoodInfo(s.info[id], time)]);
    TouchKeeps(s, id, GoodInfo(s.info[id], time), {});
    Followed(r, id);
    NewIsHeld(r, id, Draw(rnd, 0, |r.newb|));
    GoodUnfolds(s, svc, time, rnd, id, r);
    b := FindBucket(r.newb, id, Draw(rnd, 0, |r.newb|), 0);
  }

  // --- a file with another number of new buckets ----------------------------------------------------

  /** Every entry in the one bucket of its source, with one reference. */
  ghost predicate Rebuilt(t: State, ps: seq<Stats>) {
    && |t.newb| == NEW_BUCKET_COUNT
    && (forall n: nat :: n < |ps| ==> n in t.info && t.info[n] == Info(ps[n], 0, 1, false, n))
    && (forall b, x: nat {:trigger x in t.newb[b]} :: 0 <= b < 256 ==>
          (x in t.newb[b] <==> x < |ps| && t.cfg.newHash(t.key, ps[x].svc.ip, ps[x].source) % 256 == b))
  }

  lemma {:induction false} NewsRebuilt(cfg: Config, d: Image, ps: seq<Stats>)
    ensures var t := LoadNews(Cleared(cfg, d), ps, true); Rebuilt(t, ps) && |t.random| == |ps|
  {
    if ps != [] {
      var m := |ps| - 1;
      NewsRebuilt(cfg, d, ps[..m]);
      NewRebuilt(LoadNews(Cleared(cfg, d), ps[..m], true), ps, m);
    }
  }

  lemma NewRebuilt(s: State, ps: seq<Stats>, m: nat)
    requires |ps| == m + 1 && Rebuilt(s, ps[..m]) && |s.random| == m
    ensures Rebuilt(LoadNew(s, m, ps[m], true), ps)
  {
    assert forall n :: 0 <= n < m ==> ps[n] == ps[..m][n];
  }

  lemma {:induction false} TriedsLeave(s: State, ps: seq<Stats>)
    requires |s.tried| == TRIED_BUCKET_COUNT
    ensures var t := LoadTrieds(s, ps);
            t.idCount >= s.idCount && forall n: nat :: n < s.idCount && n in s.info ==> n in t.info && t.info[n] == s.info[n]
  {
    if ps != [] {
      TriedsLeave(s, ps[..|ps| - 1]);
    }
  }

  ghost predicate Keeps(s: State, t: State) {
    t.newb == s.newb && t.cfg == s.cfg && t.key == s.key && forall n :: n in s.info ==> n in t.info && t.info[n] == s.info[n]
  }

  lemma {:induction false} BucketIgnored(s: State, b: nat, q: seq<nat>)
    requires b < |s.newb|
    ensures Keeps(s, LoadBucket(s, b, q, false))
  {
    if q != [] {
      BucketIgnored(s, b, q[..|q| - 1]);
    }
  }

  lemma {:induction false} BucketsIgnored(s: State, bs: seq<seq<nat>>)
    requires |bs| <= |s.newb|
    ensures Keeps(s, LoadBuckets(s, bs, false))
  {
    if bs != [] {
      var n := |bs| - 1;
      BucketsIgnored(s, bs[..n]);
      BucketIgnored(LoadBuckets(s, bs[..n], false), n, bs[n]);
    }
  }

  /** The buckets such a file lists are ignored, and built from the entries. */
  lemma OtherBucketCount(cfg: Config, d: Image)
    requires |d.buckets| <= NEW_BUCKET_COUNT && d.nUBuckets != 256
    ensures var t := Build(cfg, d); t.cfg == cfg && t.key == d.key && Rebuilt(t, d.news)
  {
    var s1 := LoadNews(Cleared(cfg, d), d.news, true);
    NewsRebuilt(cfg, d, d.news);
    var s2 := LoadTrieds(s1.(idCount := |d.news|), d.trieds);
    TriedsLeave(s1.(idCount := |d.news|), d.trieds);
    BucketsIgnored(s2, d.buckets);
  }
}
