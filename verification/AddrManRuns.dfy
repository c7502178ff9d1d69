/** What the operations of the address manager do to its contents, and what
    every run of them keeps. */
module AddrManRuns {
  import opened SortedSets
  import opened AddrManModel
  import opened AddrManProofs
  import opened AddrManTried

  // --- Add_ --------------------------------------------------------------------

  /** The same entry, up to its references and its place in `vRandom`. */
  ghost predicate SameEntry(i: Info, j: Info) {
    j == i.(refCount := j.refCount, randomPos := j.randomPos)
  }

  /** `t` is `s` less the entries `lost`: at most one, never a tried one, and
      only the last reference to an entry of a full bucket `b`. */
  ghost predicate Loses(s: State, t: State, lost: set<nat>, b: nat)
    requires |s.newb| == NEW_BUCKET_COUNT && b < NEW_BUCKET_COUNT
  {
    && |lost| <= 1
    && (forall x :: x in lost ==>
          x in s.info && !s.info[x].inTried && s.info[x].refCount == 1 && x in s.newb[b]
          && |s.newb[b]| == NEW_BUCKET_SIZE)
    && t.info.Keys == s.info.Keys - lost
    && (forall x :: x in t.info ==> SameEntry(s.info[x], t.info[x]))
    && t.tried == s.tried && t.nTried == s.nTried && t.idCount == s.idCount
    && t.cfg == s.cfg && t.key == s.key
  }

  lemma SetRefIndexes(s: State, id: nat, n: int)
    requires Linked(s.info, s.random) && id in s.info
    ensures Linked(SetRef(s, id, n).info, s.random)
  {
  }

  lemma DropRefLoses(s: State, b: nat, id: nat) returns (lost: set<nat>)
    requires Linked(s.info, s.random) && |s.newb| == NEW_BUCKET_COUNT && b < NEW_BUCKET_COUNT
    requires id in s.newb[b] && id in s.info && !s.info[id].inTried && |s.newb[b]| == NEW_BUCKET_SIZE
    ensures Loses(s, DropRef(s, b, id), lost, b) && lost <= {id}
    ensures forall x :: x in DropRef(s, b, id).info && x != id ==> DropRef(s, b, id).info[x].refCount == s.info[x].refCount
    ensures DropRef(s, b, id).newb == s.newb[b := s.newb[b] - {id}]
  {
    if s.info[id].refCount == 1 {
      SetRefIndexes(s, id, 0);
      DeleteEffect(SetRef(s, id, 0), id);
      lost := {id};
    } else {
      lost := {};
    }
  }

  lemma LosesAfterBump(s: State, id: nat, n: int, u: State, r: State, lost: set<nat>, b: nat)
    requires |s.newb| == NEW_BUCKET_COUNT && b < NEW_BUCKET_COUNT
    requires id in s.info && id !in s.newb[b]
    requires Loses(SetRef(s, id, n), u, lost, b) && r == u.(newb := r.newb)
    ensures Loses(s, r, lost, b)
  {
  }

  lemma ReferLosesFull(s: State, id: nat, b: nat, now: int, rnd: Draws) returns (lost: set<nat>)
    requires Ready(s) && id in s.info && b < NEW_BUCKET_COUNT
    requires id !in s.newb[b] && |s.newb[b]| == NEW_BUCKET_SIZE
    ensures var t := SetRef(s, id, s.info[id].refCount + 1);
            Ready(t) && var u := ShrinkNew(t, b, now, rnd, 1);
            && Loses(t, u, lost, b) && id !in lost
            && u.info[id].refCount == t.info[id].refCount && u.newb == t.newb[b := u.newb[b]]
  {
    var t := SetRef(s, id, s.info[id].refCount + 1);
    SetRefReady(s, id, s.info[id].refCount + 1);
    lost := DropRefLoses(t, b, ShrinkVictim(t, b, now, rnd, 1));
  }

  lemma ReferShape(s: State, id: nat, source: NetAddr, now: int, rnd: Draws)
    requires Ready(s) && id in s.info
    ensures var b := NewBucket(s.cfg, s.key, s.info[id], source);
            var t := SetRef(s, id, s.info[id].refCount + 1);
            id !in s.newb[b] ==>
              && Ready(t)
              && var u := if |s.newb[b]| == NEW_BUCKET_SIZE then ShrinkNew(t, b, now, rnd, 1) else t;
                 |u.newb| > b && Refer(s, id, source, now, rnd) == u.(newb := u.newb[b := u.newb[b] + {id}])
  {
    SetRefReady(s, id, s.info[id].refCount + 1);
  }

  lemma ReferLoses(s: State, id: nat, source: NetAddr, now: int, rnd: Draws) returns (lost: set<nat>)
    requires Ready(s) && id in s.info
    ensures var b := NewBucket(s.cfg, s.key, s.info[id], source);
            var t := Refer(s, id, source, now, rnd);
            && Loses(s, t, lost, b) && id !in lost && id in t.info && id in t.newb[b]
            && t.info[id].refCount == s.info[id].refCount + if id in s.newb[b] then 0 else 1
  {
    var b := NewBucket(s.cfg, s.key, s.info[id], source);
    lost := {};
    if id !in s.newb[b] {
      var t := SetRef(s, id, s.info[id].refCount + 1);
      ReferShape(s, id, source, now, rnd);
      if |s.newb[b]| == NEW_BUCKET_SIZE {
        lost := ReferLosesFull(s, id, b, now, rnd);
        LosesAfterBump(s, id, t.info[id].refCount, ShrinkNew(t, b, now, rnd, 1), Refer(s, id, source, now, rnd), lost, b);
      } else {
        LosesAfterBump(s, id, t.info[id].refCount, t, Refer(s, id, source, now, rnd), lost, b);
      }
    }
  }

  /** What Add_ does: `lost` is the entry that made room, if any. */
  ghost predicate AddSpec(s: State, t: State, isNew: bool, a: Address, lost: set<nat>) {
    && (isNew <==> s.cfg.routable(a.svc.ip) && !Find(s, a.svc.ip))
    && (!s.cfg.routable(a.svc.ip) ==> t == s)
    && |lost| <= 1 && lost <= NewIds(s.info)
    && t.info.Keys == s.info.Keys + (if isNew then {s.idCount} else {}) - lost
    && (forall x :: x in s.info && x !in lost && (Find(s, a.svc.ip) ==> x != s.addr[a.svc.ip]) ==>
          SameEntry(s.info[x], t.info[x]))
    && (Find(s, a.svc.ip) ==> var id := s.addr[a.svc.ip];
          && id !in lost && t.info[id].p.svc == s.info[id].p.svc && t.info[id].inTried == s.info[id].inTried)
    && (isNew ==> s.idCount !in lost && t.info[s.idCount].p.svc == a.svc && t.info[s.idCount].refCount == 1)
    && t.tried == s.tried && t.nTried == s.nTried
  }

  /** An address is reported new exactly when it is routable and unknown; at
      most one entry, never a tried one, makes room; the rest is untouched. */
  lemma AddOutcome(s: State, a: Address, source: NetAddr, penalty: int, now: int, rnd: Draws) returns (lost: set<nat>)
    requires Ready(s)
    ensures var r := Add(s, a, source, penalty, now, rnd); AddSpec(s, r.s, r.isNew, a, lost)
  {
    lost := {};
    if s.cfg.routable(a.svc.ip) {
      if Find(s, a.svc.ip) {
        lost := KnownOutcome(s, s.addr[a.svc.ip], a, source, penalty, now, rnd);
      } else {
        lost := FreshOutcome(s, a, source, penalty, now, rnd);
      }
    }
  }

  /** After Add_, a routable address is known under its own entry. */
  lemma AddIsFound(s: State, a: Address, source: NetAddr, penalty: int, now: int, rnd: Draws)
    requires Inv(s) && s.cfg.routable(a.svc.ip)
    ensures Ready(s) && Find(Add(s, a, source, penalty, now, rnd).s, a.svc.ip)
  {
    InvIsReady(s);
    AddKeeps(s, a, source, penalty, now, rnd);
    var lost := AddOutcome(s, a, source, penalty, now, rnd);
    FoundByAddress(s, Add(s, a, source, penalty, now, rnd).s, Add(s, a, source, penalty, now, rnd).isNew, a, lost);
  }

  lemma FoundByAddress(s: State, t: State, isNew: bool, a: Address, lost: set<nat>)
    requires AddrOk(s.info, s.addr, s.idCount) && Inv(t) && s.cfg.routable(a.svc.ip) && AddSpec(s, t, isNew, a, lost)
    ensures Find(t, a.svc.ip)
  {
    var id := if isNew then s.idCount else s.addr[a.svc.ip];
    assert id in t.info && t.info[id].p.svc.ip == a.svc.ip;
  }

  lemma KnownOutcome(s: State, id: nat, a: Address, source: NetAddr, penalty: int, now: int, rnd: Draws) returns (lost: set<nat>)
    requires Ready(s) && s.cfg.routable(a.svc.ip) && Find(s, a.svc.ip) && id == s.addr[a.svc.ip]
    ensures var r := Add(s, a, source, penalty, now, rnd);
            && !r.isNew
            && |lost| <= 1 && lost <= NewIds(s.info) && id !in lost
            && r.s.info.Keys == s.info.Keys - lost
            && (forall x :: x in s.info && x !in lost && x != id ==> SameEntry(s.info[x], r.s.info[x]))
            && r.s.info[id].inTried == s.info[id].inTried && r.s.info[id].p.svc == s.info[id].p.svc
            && r.s.tried == s.tried && r.s.nTried == s.nTried
  {
    lost := {};
    var i := Refresh(s.info[id], a, penalty, now);
    if WantsRef(i, a, rnd) {
      var t := s.(info := s.info[id := i]);
      lost := ReferLoses(t, id, source, now, rnd);
    }
  }

  /** An address heard of again: the flags join, the time stays or becomes the one announced
      less the penalty, never going back while that fits into 32 bits, and only a newer time
      gives a new entry one more reference. */
  lemma KnownEntry(s: State, id: nat, a: Address, source: NetAddr, penalty: int, now: int, rnd: Draws)
    requires Ready(s) && s.cfg.routable(a.svc.ip) && Find(s, a.svc.ip) && id == s.addr[a.svc.ip]
    ensures var i, t := s.info[id], Add(s, a, source, penalty, now, rnd).s;
            && id in t.info && t.info[id].lastTry == i.lastTry
            && t.info[id].p == i.p.(services := i.p.services + a.services, time := t.info[id].p.time)
            && (t.info[id].p.time == i.p.time || t.info[id].p.time == ToU32(Max(0, a.time - penalty)))
            && (a.time - penalty < 0x1_0000_0000 ==> i.p.time <= t.info[id].p.time <= Max(i.p.time, a.time - penalty))
            && i.refCount <= t.info[id].refCount <= i.refCount + 1
            && (t.info[id].refCount > i.refCount ==>
                  !i.inTried && i.refCount != NEW_BUCKETS_PER_ADDRESS && (t.info[id].p.time == 0 || a.time > t.info[id].p.time))
  {
    var i := Refresh(s.info[id], a, penalty, now);
    if WantsRef(i, a, rnd) {
      var lost := ReferLoses(s.(info := s.info[id := i]), id, source, now, rnd);
    }
  }

  lemma FreshOutcome(s: State, a: Address, source: NetAddr, penalty: int, now: int, rnd: Draws) returns (lost: set<nat>)
    requires Ready(s) && s.idCount !in s.info && s.cfg.routable(a.svc.ip) && !Find(s, a.svc.ip)
    ensures var r := Add(s, a, source, penalty, now, rnd);
            && r.isNew
            && |lost| <= 1 && lost <= NewIds(s.info)
            && r.s.info.Keys == s.info.Keys + {s.idCount} - lost
            && s.idCount !in lost
            && (forall x :: x in s.info && x !in lost ==> SameEntry(s.info[x], r.s.info[x]))
            && r.s.info[s.idCount].p.svc == a.svc && r.s.info[s.idCount].refCount == 1
            && r.s.tried == s.tried && r.s.nTried == s.nTried
  {
    var t := Fresh(s, a, source, penalty);
    FreshReady(s, a, source, penalty);
    lost := ReferLoses(t, s.idCount, source, now, rnd);
  }

  // --- Good_ -------------------------------------------------------------------

  /** What Good_ does: the entry is in the tried table afterwards, in its own
      bucket, with fresh statistics; `moved` went back to the new table to make
      room, which happens only when that bucket was full. */
  ghost predicate GoodSpec(s: State, t: State, svc: Service, time: int, moved: set<nat>) {
    if !Find(s, svc.ip) || s.info[s.addr[svc.ip]].p.svc != svc then t == s && moved == {}
    else
      var id := s.addr[svc.ip];
      var k := TriedBucket(s.cfg, s.key, s.info[id]);
      && t.info.Keys == s.info.Keys && t.addr == s.addr && t.random == s.random && t.idCount == s.idCount
      && t.info[id] == GoodInfo(s.info[id], time).(inTried := true, refCount := 0)
      && k < |s.tried| && k < |t.tried| && id in t.tried[k]
      && |moved| <= 1 && id !in moved
      && (moved != {} ==> !s.info[id].inTried && |s.tried[k]| >= TRIED_BUCKET_SIZE)
      && (forall x :: x in moved ==>
            x in s.info && s.info[x].inTried && x in s.tried[k] && Demoted(s.info[x], t.info[x]))
      && (forall x :: x in s.info && x != id && x !in moved ==> t.info[x] == s.info[x])
  }

  /** The same for MakeTried, moving new entry `id`. */
  ghost predicate MadeSpec(s: State, t: State, id: nat, moved: set<nat>)
    requires id in s.info && |s.tried| == TRIED_BUCKET_COUNT
  {
    var k := TriedBucket(s.cfg, s.key, s.info[id]);
    && t.info.Keys == s.info.Keys && t.addr == s.addr && t.random == s.random && t.idCount == s.idCount
    && Promoted(s.info[id], t.info[id]) && |t.tried| == |s.tried| && id in t.tried[k]
    && |moved| <= 1 && id !in moved
    && (moved != {} ==> |s.tried[k]| >= TRIED_BUCKET_SIZE)
    && (forall x :: x in moved ==>
          x in s.info && s.info[x].inTried && x in s.tried[k] && Demoted(s.info[x], t.info[x]))
    && (forall x :: x in s.info && x != id && x !in moved ==> t.info[x] == s.info[x])
  }

  lemma MakeTriedOutcome(s: State, id: nat, origin: nat, rnd: Draws, base: nat) returns (moved: set<nat>)
    requires Follows(s, id) && origin < NEW_BUCKET_COUNT
    requires CountHeld(s.newb, id, |s.newb|) == s.info[id].refCount
    ensures MadeSpec(s, MakeTried(s, id, origin, rnd, base), id, moved)
  {
    if |s.tried[TriedBucket(s.cfg, s.key, s.info[id])]| < TRIED_BUCKET_SIZE {
      var i, k := MakeTriedRoomShape(s, id, origin, rnd, base);
      moved := {};
    } else {
      var i, ev, e, k, v, pos, dest := MakeTriedEvictShape(s, id, origin, rnd, base);
      moved := {ev};
      assert v[pos := id][pos] == id;
    }
  }

  lemma GoodFromMade(s: State, t: State, r: State, svc: Service, time: int, moved: set<nat>)
    requires Find(s, svc.ip) && s.info[s.addr[svc.ip]].p.svc == svc && !s.info[s.addr[svc.ip]].inTried
    requires |s.tried| == TRIED_BUCKET_COUNT
    requires var id := s.addr[svc.ip];
             t == s.(info := s.info[id := GoodInfo(s.info[id], time)]) && MadeSpec(t, r, id, moved)
    ensures GoodSpec(s, r, svc, time, moved)
  {
  }

  lemma GoodWhenTried(s: State, t: State, svc: Service, time: int)
    requires Find(s, svc.ip) && s.info[s.addr[svc.ip]].p.svc == svc && s.info[s.addr[svc.ip]].inTried
    requires TriedOk(s.cfg, s.key, s.info, s.tried)
    requires var id := s.addr[svc.ip]; t == s.(info := s.info[id := GoodInfo(s.info[id], time)])
    ensures GoodSpec(s, t, svc, time, {})
  {
  }

  lemma PromotionOutcome(s: State, id: nat, rnd: Draws) returns (moved: set<nat>)
    requires Inv(s) && id in s.info && !s.info[id].inTried
    ensures Follows(s, id)
    ensures var b := FindBucket(s.newb, id, Draw(rnd, 0, |s.newb|), 0);
            b >= 0 && MadeSpec(s, MakeTried(s, id, b, rnd, 1), id, moved)
  {
    Followed(s, id);
    NewIsHeld(s, id, Draw(rnd, 0, |s.newb|));
    moved := MakeTriedOutcome(s, id, FindBucket(s.newb, id, Draw(rnd, 0, |s.newb|), 0), rnd, 1);
  }

  lemma GoodOutcome(s: State, svc: Service, time: int, rnd: Draws) returns (moved: set<nat>)
    requires Inv(s)
    ensures Ready(s) && GoodSpec(s, Good(s, svc, time, rnd), svc, time, moved)
  {
    InvIsReady(s);
    moved := {};
    if Find(s, svc.ip) && s.info[s.addr[svc.ip]].p.svc == svc {
      var id := s.addr[svc.ip];
      var t := s.(info := s.info[id := GoodInfo(s.info[id], time)]);
      TouchKeeps(s, id, GoodInfo(s.info[id], time), {});
      if s.info[id].inTried {
        GoodUnfolds(s, svc, time, rnd, id, t);
        GoodWhenTried(s, t, svc, time);
      } else {
        moved := PromotionOutcome(t, id, rnd);
        GoodUnfolds(s, svc, time, rnd, id, t);
        GoodFromMade(s, t, Good(s, svc, time, rnd), svc, time, moved);
      }
    }
  }

  // --- every operation -----------------------------------------------------------

  lemma StepKeeps(s: State, op: Op)
    requires Inv(s)
    ensures Ready(s) && Inv(Step(s, op))
  {
    InvIsReady(s);
    match op
    case OpAdd(a, source, penalty, now, rnd) => AddKeeps(s, a, source, penalty, now, rnd);
    case OpGood(svc, time, rnd) => GoodKeeps(s, svc, time, rnd);
    case OpAttempt(svc, time) => AttemptKeeps(s, svc, time);
    case OpConnected(svc, time) => ConnectedKeeps(s, svc, time);
    case OpGetAddr(rnd) => GetAddrKeeps(s, rnd);
  }

  lemma AttemptKeeps(s: State, svc: Service, time: int)
    requires Inv(s)
    ensures Inv(Attempt(s, svc, time))
  {
    if Find(s, svc.ip) && s.info[s.addr[svc.ip]].p.svc == svc {
      var id := s.addr[svc.ip];
      TouchKeeps(s, id, AttemptInfo(s.info[id], time), {});
    }
  }

  lemma ConnectedKeeps(s: State, svc: Service, time: int)
    requires Inv(s)
    ensures Inv(Connected(s, svc, time))
  {
    if Find(s, svc.ip) {
      var id := s.addr[svc.ip];
      var i := s.info[id];
      TouchKeeps(s, id, i.(p := i.p.(time := ToU32(time))), {});
    }
  }

  /** The states a sequence of operations goes through, the last one first. */
  ghost predicate Reaches(s: State, ops: seq<Op>, t: State)
    decreases |ops|
  {
    if ops == [] then t == s
    else Ready(s) && Reaches(Step(s, ops[0]), ops[1..], t)
  }

  /** No operation ever deletes an entry of the tried table, or changes whose
      entry it is. */
  lemma TriedSurvives(s: State, op: Op, id: nat)
    requires Inv(s) && id in s.info && s.info[id].inTried
    ensures Ready(s)
    ensures id in Step(s, op).info && Step(s, op).info[id].p.svc == s.info[id].p.svc
  {
    InvIsReady(s);
    match op
    case OpAdd(a, source, penalty, now, rnd) =>
      var lost := AddOutcome(s, a, source, penalty, now, rnd);
      AddSurvives(s, Add(s, a, source, penalty, now, rnd).s, Add(s, a, source, penalty, now, rnd).isNew, a, lost, id);
    case OpGood(svc, time, rnd) =>
      var moved := GoodOutcome(s, svc, time, rnd);
      GoodSurvives(s, Good(s, svc, time, rnd), svc, time, moved, id);
    case OpAttempt(svc, time) =>
    case OpConnected(svc, time) =>
    case OpGetAddr(rnd) => GetAddrMoves(s, 0, GetAddrCount(|s.random|), [], rnd);
  }

  lemma AddSurvives(s: State, t: State, isNew: bool, a: Address, lost: set<nat>, id: nat)
    requires AddSpec(s, t, isNew, a, lost) && id in s.info && s.info[id].inTried
    ensures id in t.info && t.info[id].p.svc == s.info[id].p.svc
  {
  }

  lemma GoodSurvives(s: State, t: State, svc: Service, time: int, moved: set<nat>, id: nat)
    requires GoodSpec(s, t, svc, time, moved) && id in s.info
    ensures id in t.info && t.info[id].p.svc == s.info[id].p.svc
  {
  }

  /** Whether an operation stamps an entry with a time that Check_ accepts. */
  predicate StampsOk(s: State, op: Op) {
    match op
    case OpGood(svc, time, _) => Find(s, svc.ip) && s.info[s.addr[svc.ip]].p.svc == svc ==> time > 0
    case OpAttempt(svc, time) => Find(s, svc.ip) && s.info[s.addr[svc.ip]].p.svc == svc ==> time >= 0
    case _ => true
  }

  /** Time stamps stay acceptable exactly when the operation's own is. */
  lemma StepTimes(s: State, op: Op)
    requires Inv(s) && TimesOk(s)
    ensures Ready(s) && (TimesOk(Step(s, op)) <==> StampsOk(s, op))
  {
    InvIsReady(s);
    match op
    case OpAdd(a, source, penalty, now, rnd) => AddTimes(s, a, source, penalty, now, rnd);
    case OpGood(svc, time, rnd) =>
      var moved := GoodOutcome(s, svc, time, rnd);
      GoodTimes(s, Good(s, svc, time, rnd), svc, time, moved);
    case OpAttempt(svc, time) => AttemptTimes(s, svc, time);
    case OpConnected(svc, time) => ConnectedTimes(s, svc, time);
    case OpGetAddr(rnd) => GetAddrMoves(s, 0, GetAddrCount(|s.random|), [], rnd);
  }

  lemma AttemptTimes(s: State, svc: Service, time: int)
    requires TimesOk(s)
    ensures TimesOk(Attempt(s, svc, time)) <==> (Find(s, svc.ip) && s.info[s.addr[svc.ip]].p.svc == svc ==> time >= 0)
  {
    if Find(s, svc.ip) {
      assert s.addr[svc.ip] in Attempt(s, svc, time).info;
    }
  }

  lemma ConnectedTimes(s: State, svc: Service, time: int)
    requires TimesOk(s)
    ensures TimesOk(Connected(s, svc, time))
  {
  }

  lemma GoodTimes(s: State, t: State, svc: Service, time: int, moved: set<nat>)
    requires TimesOk(s) && GoodSpec(s, t, svc, time, moved)
    ensures TimesOk(t) <==> (Find(s, svc.ip) && s.info[s.addr[svc.ip]].p.svc == svc ==> time > 0)
  {
    if Find(s, svc.ip) && s.info[s.addr[svc.ip]].p.svc == svc {
      var id := s.addr[svc.ip];
      assert id in t.info && t.info[id].inTried && t.info[id].p.lastSuccess == time;
    }
  }

  lemma AddTimes(s: State, a: Address, source: NetAddr, penalty: int, now: int, rnd: Draws)
    requires Ready(s) && TimesOk(s)
    ensures TimesOk(Add(s, a, source, penalty, now, rnd).s)
  {
    if s.cfg.routable(a.svc.ip) {
      if Find(s, a.svc.ip) {
        var id := s.addr[a.svc.ip];
        var i := Refresh(s.info[id], a, penalty, now);
        if WantsRef(i, a, rnd) {
          ReferTimes(s.(info := s.info[id := i]), id, source, now, rnd);
        }
      } else {
        FreshReady(s, a, source, penalty);
        ReferTimes(Fresh(s, a, source, penalty), s.idCount, source, now, rnd);
      }
    }
  }

  lemma ReferTimes(s: State, id: nat, source: NetAddr, now: int, rnd: Draws)
    requires Ready(s) && TimesOk(s) && id in s.info
    ensures TimesOk(Refer(s, id, source, now, rnd))
  {
    var lost := ReferLoses(s, id, source, now, rnd);
  }

  // --- bounds ----------------------------------------------------------------------

  lemma TriedBound(s: State)
    requires Inv(s)
    ensures |TriedIds(s.info)| <= TRIED_BUCKET_COUNT * TRIED_BUCKET_SIZE
  {
    var bs := seq(|s.tried|, k requires 0 <= k < |s.tried| => Elements(s.tried[k]));
    forall k | 0 <= k < |bs| ensures |bs[k]| <= TRIED_BUCKET_SIZE {
      ElementsSize(s.tried[k]);
    }
    UnionBound(bs, TRIED_BUCKET_SIZE);
    forall id | id in TriedIds(s.info) ensures id in Union(bs) {
      InUnion(bs, TriedBucket(s.cfg, s.key, s.info[id]), id);
    }
    SubsetSmaller(TriedIds(s.info), Union(bs));
  }

  lemma NewBound(s: State)
    requires Inv(s)
    ensures |NewIds(s.info)| <= NEW_BUCKET_COUNT * NEW_BUCKET_SIZE
  {
    UnionBound(s.newb, NEW_BUCKET_SIZE);
    forall id | id in NewIds(s.info) ensures id in Union(s.newb) {
      assert Holders(s.newb, id) != {};
      var b :| b in Holders(s.newb, id);
      InUnion(s.newb, b, id);
    }
    SubsetSmaller(NewIds(s.info), Union(s.newb));
  }

  /** A consistent manager holds at most 256 * 64 + 64 * 64 addresses. */
  lemma SizeIsBounded(s: State)
    requires Inv(s)
    ensures |s.info| == s.nNew + s.nTried <= NEW_BUCKET_COUNT * NEW_BUCKET_SIZE + TRIED_BUCKET_COUNT * TRIED_BUCKET_SIZE
  {
    TriedBound(s);
    NewBound(s);
    assert s.info.Keys == NewIds(s.info) + TriedIds(s.info);
    assert NewIds(s.info) !! TriedIds(s.info);
  }

  predicate PositiveTimes(op: Op) {
    match op
    case OpGood(_, time, _) => time > 0
    case OpAttempt(_, time) => time >= 0
    case _ => true
  }

  ghost predicate Sound(s: State, timed: bool) {
    Inv(s) && (timed ==> TimesOk(s))
  }

  lemma StepSound(s: State, op: Op, timed: bool)
    requires Sound(s, timed) && (timed ==> PositiveTimes(op))
    ensures Ready(s) && Sound(Step(s, op), timed)
  {
    StepKeeps(s, op);
    if timed {
      StepTimes(s, op);
    }
  }

  lemma {:induction false} RunSound(s: State, ops: seq<Op>, timed: bool) returns (t: State)
    requires Sound(s, timed) && (timed ==> forall op :: op in ops ==> PositiveTimes(op))
    ensures Reaches(s, ops, t) && Sound(t, timed)
    decreases |ops|
  {
    if ops == [] {
      t := s;
    } else {
      StepSound(s, ops[0], timed);
      t := RunSound(Step(s, ops[0]), ops[1..], timed);
    }
  }

  /** Every run from the empty manager, whatever the random choices, can be
      executed to its end (`Ready` before every step: no assert fails), ends in
      consistent tables of bounded size, and, when every operation is stamped
      with a positive time, with acceptable time stamps. */
  lemma EveryRunIsSafe(cfg: Config, key: Key, ops: seq<Op>) returns (t: State)
    ensures Reaches(Empty(cfg, key), ops, t) && Inv(t)
    ensures (forall op :: op in ops ==> PositiveTimes(op)) ==> TimesOk(t)
    ensures |t.info| <= NEW_BUCKET_COUNT * NEW_BUCKET_SIZE + TRIED_BUCKET_COUNT * TRIED_BUCKET_SIZE
  {
    EmptyIsConsistent(cfg, key);
    t := RunSound(Empty(cfg, key), ops, forall op :: op in ops ==> PositiveTimes(op));
    SizeIsBounded(t);
  }
}
