/** The announcements of mixing sessions: the "dsq" messages, the list they go into and
    the count that keeps a few masternodes from dominating it. */
module DarksendQueue {
  import opened Common
  import opened DarksendModel

  datatype Announcement = Announcement(vin: TxIn, denom: int, time: int, ready: bool)

  /** `last` is nLastDsq of every masternode in the list, `who` the masternodes whose
      announcements have been accepted since the count stood at `base`. */
  datatype State = State(count: int, last: map<OutPoint, int>, queue: seq<Announcement>, base: int, who: seq<OutPoint>)

  predicate Expired(a: Announcement, now: int) { now - a.time > QUEUE_TIMEOUT }

  predicate Listed(queue: seq<Announcement>, a: Announcement) {
    exists i :: 0 <= i < |queue| && SameIn(queue[i].vin, a.vin)
  }

  /** A "dsq" message is accepted; `eligible` is the number of masternodes above the
      protocol version. */
  predicate Accepts(s: State, a: Announcement, signed: bool, eligible: nat, now: int) {
    && a.vin.prevout in s.last && signed && !Expired(a, now) && !a.ready && !Listed(s.queue, a)
    && !(s.last[a.vin.prevout] != 0 && s.last[a.vin.prevout] + eligible / 5 > s.count)
  }

  function OnQueue(s: State, a: Announcement, signed: bool, eligible: nat, now: int): State {
    if !Accepts(s, a, signed, eligible, now) then s
    else
      s.(count := s.count + 1, last := s.last[a.vin.prevout := s.count + 1], queue := s.queue + [a],
         who := s.who + [a.vin.prevout])
  }

  /** An announcement that is not ready joins the list, and is counted for its masternode,
      exactly if the masternode is known and the signature good, it is at most 30 seconds old,
      none with its input is listed, and the masternode announced nothing yet or a fifth of
      the eligible ones since. */
  lemma AcceptedExactly(s: State, a: Announcement, signed: bool, eligible: nat, now: int)
    ensures var t, n := OnQueue(s, a, signed, eligible, now), a.vin.prevout;
            if && n in s.last && signed && now - a.time <= 30 && !a.ready
               && (forall i :: 0 <= i < |s.queue| ==> !SameIn(s.queue[i].vin, a.vin))
               && (s.last[n] == 0 || s.last[n] + eligible / 5 <= s.count)
            then t.queue == s.queue + [a] && t.count == s.count + 1 && t.last == s.last[n := s.count + 1] && t.who == s.who + [n]
            else t == s
  {
  }

  /** The timer drops exactly the announcements that are more than 30 seconds old. */
  lemma {:induction false} DropsOld(queue: seq<Announcement>, now: int, a: Announcement)
    ensures a in Kept(queue, now) <==> a in queue && now - a.time <= 30
  {
    if queue != [] {
      DropsOld(queue[..|queue| - 1], now, a);
    }
  }

  function Kept(queue: seq<Announcement>, now: int): seq<Announcement> {
    if queue == [] then []
    else
      var a := queue[|queue| - 1];
      Kept(queue[..|queue| - 1], now) + if Expired(a, now) then [] else [a]
  }

  /** CheckTimeout, the part about the list. */
  function DropExpired(s: State, now: int): State {
    s.(queue := Kept(s.queue, now))
  }

  lemma KeptNext(all: seq<Announcement>, n: nat, now: int)
    requires n < |all|
    ensures Kept(all[..n + 1], now) == Kept(all[..n], now) + if Expired(all[n], now) then [] else [all[n]]
    ensures all[n..][1..] == all[n + 1..]
  {
    assert all[..n + 1][..n] == all[..n];
  }

  // --- the invariant ----------------------------------------------------------------

  ghost predicate Different(queue: seq<Announcement>) {
    forall i, j :: 0 <= i < j < |queue| ==> !SameIn(queue[i].vin, queue[j].vin)
  }

  /** Accepted announcements of one masternode are more than `gap` apart. */
  ghost predicate Spread(who: seq<OutPoint>, gap: nat) {
    forall i, j :: 0 <= i < j < |who| && who[i] == who[j] ==> j - i > gap
  }

  ghost predicate Numbered(s: State) {
    && s.base >= 0 && s.count == s.base + |s.who|
    && (forall n :: n in s.last ==> s.last[n] <= s.count)
    && (forall i :: 0 <= i < |s.who| ==> s.who[i] in s.last && s.last[s.who[i]] >= s.base + i + 1)
  }

  ghost predicate Inv(s: State, eligible: nat) {
    Numbered(s) && Spread(s.who, eligible / 5) && Different(s.queue)
  }

  lemma QueueKeeps(s: State, a: Announcement, signed: bool, eligible: nat, now: int)
    requires Inv(s, eligible)
    ensures Inv(OnQueue(s, a, signed, eligible, now), eligible)
  {
    if Accepts(s, a, signed, eligible, now) {
      var t := OnQueue(s, a, signed, eligible, now);
      var n := |s.who|;
      forall i, j | 0 <= i < j < |t.who| && t.who[i] == t.who[j] ensures j - i > eligible / 5 {
        if j == n {
          assert s.last[s.who[i]] >= s.base + i + 1;
        }
      }
      forall i, j | 0 <= i < j < |t.queue| ensures !SameIn(t.queue[i].vin, t.queue[j].vin) {
        if j == |s.queue| {
          assert t.queue[i] == s.queue[i];
        }
      }
    }
  }

  lemma {:induction false} KeptFrom(queue: seq<Announcement>, now: int)
    requires Different(queue)
    ensures Different(Kept(queue, now)) && forall a :: a in Kept(queue, now) <==> a in queue && !Expired(a, now)
  {
    if queue != [] {
      var before := queue[..|queue| - 1];
      KeptFrom(before, now);
      var k, a := Kept(before, now), queue[|queue| - 1];
      forall i | 0 <= i < |k| ensures !SameIn(k[i].vin, a.vin) {
        assert k[i] in k;
        var j :| 0 <= j < |before| && before[j] == k[i];
      }
    }
  }

  // --- runs -----------------------------------------------------------------------------

  datatype Op = OpQueue(a: Announcement, signed: bool) | OpDrop

  datatype Timed = Timed(op: Op, now: int)

  function Step(s: State, op: Timed, eligible: nat): State {
    match op.op
    case OpQueue(a, signed) => OnQueue(s, a, signed, eligible, op.now)
    case OpDrop => DropExpired(s, op.now)
  }

  function Run(s: State, ops: seq<Timed>, eligible: nat): State {
    if ops == [] then s else Step(Run(s, ops[..|ops| - 1], eligible), ops[|ops| - 1], eligible)
  }

  lemma {:induction false} RunKeeps(s: State, ops: seq<Timed>, eligible: nat)
    requires Inv(s, eligible)
    ensures Inv(Run(s, ops, eligible), eligible) && s.who <= Run(s, ops, eligible).who
  {
    if ops != [] {
      var t := Run(s, ops[..|ops| - 1], eligible);
      RunKeeps(s, ops[..|ops| - 1], eligible);
      match ops[|ops| - 1].op
      case OpQueue(a, signed) => QueueKeeps(t, a, signed, eligible, ops[|ops| - 1].now);
      case OpDrop => KeptFrom(t.queue, ops[|ops| - 1].now);
    }
  }

  /** From any counts, with a fixed number of eligible masternodes: of any fifth of that
      number plus one consecutive accepted announcements no two come from the same
      masternode, and the list never holds two with the same input. */
  lemma FairAndDistinct(count: nat, last: map<OutPoint, int>, ops: seq<Timed>, eligible: nat, from: nat)
    requires forall n :: n in last ==> last[n] <= count
    ensures var s := Run(State(count, last, [], count, []), ops, eligible);
            && Different(s.queue)
            && (from + eligible / 5 < |s.who| ==>
                  forall i, j :: from <= i < j <= from + eligible / 5 ==> s.who[i] != s.who[j])
  {
    RunKeeps(State(count, last, [], count, []), ops, eligible);
  }

  // --- the list object --------------------------------------------------------------------

  class QueueList {
    var nDsqCount: int
    var nLastDsq: map<OutPoint, int>
    var vecDarksendQueue: seq<Announcement>
    ghost var base: int
    ghost var who: seq<OutPoint>

    ghost function View(): State
      reads this
    {
      State(nDsqCount, nLastDsq, vecDarksendQueue, base, who)
    }

    constructor (count: nat, last: map<OutPoint, int>)
      ensures View() == State(count, last, [], count, [])
    {
      nDsqCount, nLastDsq, vecDarksendQueue, base, who := count, last, [], count, [];
    }

    /** The "dsq" message of a session that is not ready yet. */
    method Process(a: Announcement, signed: bool, eligible: nat, now: int)
      modifies this
      ensures View() == OnQueue(old(View()), a, signed, eligible, now)
    {
      if a.vin.prevout !in nLastDsq || !signed || Expired(a, now) || a.ready {
        return;
      }
      var i := 0;
      while i < |vecDarksendQueue|
        invariant i <= |vecDarksendQueue|
        invariant forall k :: 0 <= k < i ==> !SameIn(vecDarksendQueue[k].vin, a.vin)
      {
        if SameIn(vecDarksendQueue[i].vin, a.vin) {
          return;
        }
        i := i + 1;
      }
      var last := nLastDsq[a.vin.prevout];
      if last != 0 && last + eligible / 5 > nDsqCount {
        return;
      }
      nDsqCount := nDsqCount + 1;
      nLastDsq := nLastDsq[a.vin.prevout := nDsqCount];
      vecDarksendQueue := vecDarksendQueue + [a];
      who := who + [a.vin.prevout];
    }

    /** The loop of CheckTimeout that erases expired announcements. */
    method Drop(now: int)
      modifies this`vecDarksendQueue
      ensures View() == DropExpired(old(View()), now)
    {
      ghost var all: seq<Announcement>, done: nat := vecDarksendQueue, 0;
      ghost var kept: seq<Announcement>, rest: seq<Announcement> := [], vecDarksendQueue;
      var i := 0;
      while i < |vecDarksendQueue|
        invariant done <= |all| && rest == all[done..] && kept == Kept(all[..done], now)
        invariant vecDarksendQueue == kept + rest && i == |kept|
        decreases |rest|
      {
        EraseAt(kept, rest);
        KeptNext(all, done, now);
        done := done + 1;
        if Expired(vecDarksendQueue[i], now) {
          vecDarksendQueue := vecDarksendQueue[..i] + vecDarksendQueue[i + 1..];
          rest := rest[1..];
        } else {
          kept, rest := kept + [vecDarksendQueue[i]], rest[1..];
          i := i + 1;
        }
      }
      assert all[..done] == all && rest == [];
    }
  }
}
