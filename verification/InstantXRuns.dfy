/** What every run of requests, votes and clean-ups keeps, and what it guarantees. */
module InstantXRuns {
  import opened Common
  import opened InstantXModel

  // --- the invariant ----------------------------------------------------------------

  /** The oracles once found the vote to come from a top masternode and well signed. */
  ghost predicate Backed(v: Vote, log: set<Cast>) {
    exists c :: c in log && c.vote == v && Acceptable(c.rank, c.signed)
  }

  ghost predicate HeldOk(v: Vote, h: Hash, seen: set<Hash>, log: set<Cast>) {
    v.txHash == h && VoteHash(v) in seen && Backed(v, log)
  }

  ghost predicate LockOk(k: Lock, h: Hash, seen: set<Hash>, log: set<Cast>) {
    k.txHash == h && forall i :: 0 <= i < |k.votes| ==> HeldOk(k.votes[i], h, seen, log)
  }

  ghost predicate LocksOk(locks: map<Hash, Lock>, seen: set<Hash>, log: set<Cast>) {
    forall h :: h in locks ==> LockOk(locks[h], h, seen, log)
  }

  /** No two votes held in any locks have the same hash. */
  ghost predicate Distinct(locks: map<Hash, Lock>) {
    forall g, h, i, j :: (g in locks && h in locks && 0 <= i < |locks[g].votes| && 0 <= j < |locks[h].votes|
                          && VoteHash(locks[g].votes[i]) == VoteHash(locks[h].votes[j])) ==> g == h && i == j
  }

  /** A request is stored under its own hash, or is the empty one that looking up a
      rejected transaction leaves behind. */
  ghost predicate ReqOk(req: map<Hash, Tx>, rejected: map<Hash, Tx>) {
    && (forall h :: h in req && h !in rejected ==> req[h].hash == h)
    && (forall h :: h in req && h in rejected ==> req[h] == EmptyTx())
    && (forall h :: h in rejected ==> rejected[h].hash == h)
  }

  /** Only a processed request gives a lock a height. */
  ghost predicate HeightsOk(locks: map<Hash, Lock>, known: set<Hash>) {
    forall h :: h in locks && locks[h].height != 0 ==> h in known
  }

  ghost predicate Inv(s: State) {
    match s
    case State(req, rejected, votes, locks, inputs, unknown, log) =>
      && LocksOk(locks, votes.Keys, log)
      && Distinct(locks)
      && ReqOk(req, rejected)
      && HeightsOk(locks, req.Keys + rejected.Keys)
      && (forall h :: h in votes ==> VoteHash(votes[h]) == h)
  }

  // --- changes to the locks -----------------------------------------------------------

  /** The same locks holding the same votes. */
  ghost predicate SameVotes(a: map<Hash, Lock>, b: map<Hash, Lock>) {
    a.Keys == b.Keys && forall h :: h in a ==> a[h].txHash == b[h].txHash && a[h].votes == b[h].votes
  }

  lemma SameVotesKeep(a: map<Hash, Lock>, b: map<Hash, Lock>, seen: set<Hash>, log: set<Cast>)
    requires SameVotes(a, b) && LocksOk(a, seen, log) && Distinct(a)
    ensures LocksOk(b, seen, log) && Distinct(b)
  {
    forall h | h in b ensures LockOk(b[h], h, seen, log) {
      assert LockOk(a[h], h, seen, log);
    }
  }

  lemma NewLockKeeps(a: map<Hash, Lock>, h: Hash, k: Lock, seen: set<Hash>, log: set<Cast>)
    requires h !in a && k.txHash == h && k.votes == []
    requires LocksOk(a, seen, log) && Distinct(a)
    ensures LocksOk(a[h := k], seen, log) && Distinct(a[h := k])
  {
    var b := a[h := k];
    forall g | g in b ensures LockOk(b[g], g, seen, log) {
      if g != h {
        assert LockOk(a[g], g, seen, log);
      }
    }
  }

  lemma MoreSeen(a: map<Hash, Lock>, seen: set<Hash>, log: set<Cast>, seen2: set<Hash>, log2: set<Cast>)
    requires LocksOk(a, seen, log) && seen <= seen2 && log <= log2
    ensures LocksOk(a, seen2, log2)
  {
    forall h | h in a ensures LockOk(a[h], h, seen2, log2) {
      assert LockOk(a[h], h, seen, log);
      forall i | 0 <= i < |a[h].votes| ensures HeldOk(a[h].votes[i], h, seen2, log2) {
        assert HeldOk(a[h].votes[i], h, seen, log);
      }
    }
  }

  /** A vote whose hash has not been seen joins a lock. */
  lemma VoteKeeps(a: map<Hash, Lock>, h: Hash, v: Vote, seen: set<Hash>, log: set<Cast>, seen2: set<Hash>)
    requires h in a && LocksOk(a, seen, log) && Distinct(a)
    requires VoteHash(v) !in seen && seen2 == seen + {VoteHash(v)} && v.txHash == h && Backed(v, log)
    ensures var b := a[h := a[h].(votes := a[h].votes + [v])]; LocksOk(b, seen2, log) && Distinct(b)
  {
    var b := a[h := a[h].(votes := a[h].votes + [v])];
    MoreSeen(a, seen, log, seen2, log);
    forall g | g in b ensures LockOk(b[g], g, seen2, log) {
      assert LockOk(a[g], g, seen2, log);
    }
    var n := |a[h].votes|;
    forall g, i | g in a && 0 <= i < |a[g].votes| ensures VoteHash(a[g].votes[i]) != VoteHash(v) {
      assert LockOk(a[g], g, seen, log);
      assert HeldOk(a[g].votes[i], g, seen, log);
    }
    forall g, i | g in b && 0 <= i < |b[g].votes| && !(g == h && i == n)
      ensures g in a && i < |a[g].votes| && b[g].votes[i] == a[g].votes[i]
    {
    }
  }

  /** Removing locks, and the hashes of votes in some of them. */
  lemma RemovalKeeps(a: map<Hash, Lock>, b: map<Hash, Lock>, seen: set<Hash>, seen2: set<Hash>, log: set<Cast>)
    requires LocksOk(a, seen, log) && Distinct(a)
    requires forall h :: h in b ==> h in a && b[h] == a[h]
    requires forall h, i :: h in b && 0 <= i < |b[h].votes| && VoteHash(b[h].votes[i]) in seen ==> VoteHash(b[h].votes[i]) in seen2
    ensures LocksOk(b, seen2, log) && Distinct(b)
  {
    forall h | h in b ensures LockOk(b[h], h, seen2, log) {
      assert LockOk(a[h], h, seen, log);
      forall i | 0 <= i < |b[h].votes| ensures HeldOk(b[h].votes[i], h, seen2, log) {
        assert HeldOk(a[h].votes[i], h, seen, log);
      }
    }
  }

  // --- the steps keep the invariant -----------------------------------------------------

  lemma StartOk()
    ensures Inv(Start())
  {
  }

  lemma ExpireSame(locks: map<Hash, Lock>, h: Hash, now: int)
    ensures SameVotes(locks, Expire(locks, h, now))
    ensures forall g :: g in locks ==> Expire(locks, h, now)[g].height == locks[g].height
  {
  }

  lemma ReportKeeps(s: State, tx: Tx, now: int)
    requires Inv(s)
    ensures Inv(CheckForConflictingLocks(s, tx, now))
  {
    FirstClashIs(s.inputs, tx.vin, tx.hash);
    var i := FirstClash(s.inputs, tx.vin, tx.hash);
    if i < |tx.vin| {
      var one := Expire(s.locks, tx.hash, now);
      ExpireSame(s.locks, tx.hash, now);
      SameVotesKeep(s.locks, one, s.votes.Keys, s.log);
      var two := Expire(one, s.inputs[tx.vin[i]], now);
      ExpireSame(one, s.inputs[tx.vin[i]], now);
      SameVotesKeep(one, two, s.votes.Keys, s.log);
    }
  }

  /** All but the heights, which only a processed request may set. */
  ghost predicate AlmostInv(s: State, h: Hash) {
    match s
    case State(req, rejected, votes, locks, inputs, unknown, log) =>
      && LocksOk(locks, votes.Keys, log)
      && Distinct(locks)
      && ReqOk(req, rejected)
      && HeightsOk(locks, req.Keys + rejected.Keys + {h})
      && (forall h :: h in votes ==> VoteHash(votes[h]) == h)
  }

  lemma CreateKeeps(s: State, tx: Tx, ages: seq<int>, best: int, now: int)
    requires Inv(s)
    ensures AlmostInv(CreateNewLock(s, tx, ages, best, now), tx.hash)
  {
    if !TooNew(ages) {
      var height := LockHeight(ages, best);
      if tx.hash in s.locks {
        var locks := s.locks[tx.hash := s.locks[tx.hash].(height := height)];
        SameVotesKeep(s.locks, locks, s.votes.Keys, s.log);
      } else {
        NewLockKeeps(s.locks, tx.hash, Lock(height, tx.hash, [], now + 20 * 60, now + 5 * 60), s.votes.Keys, s.log);
      }
    }
  }

  lemma OwnVoteKeeps(s: State, tx: Tx, height: int, own: Own)
    requires AlmostInv(s, tx.hash)
    ensures AlmostInv(DoConsensusVote(s, tx, height, own), tx.hash)
  {
    var t := DoConsensusVote(s, tx, height, own);
    MoreSeen(s.locks, s.votes.Keys, s.log, t.votes.Keys, s.log);
  }

  lemma RequestKeeps(s: State, m: Request, now: int)
    requires Inv(s)
    ensures Inv(TxLockRequest(s, m, now))
  {
    var h := m.tx.hash;
    if h !in s.req && h !in s.rejected && m.valid {
      var s1 := CreateNewLock(s, m.tx, m.ages, m.best, now);
      CreateKeeps(s, m.tx, m.ages, m.best, now);
      if m.accepted {
        OwnVoteKeeps(s1, m.tx, CreatedHeight(m.ages, m.best), m.own);
      } else {
        var s2 := s1.(rejected := s1.rejected[h := m.tx], inputs := LockInputs(s1.inputs, m.tx.vin, h));
        assert Inv(s2);
        ReportKeeps(s2, m.tx, now);
      }
    }
  }

  lemma AddKeeps(s: State, v: Vote, rank: int, signed: bool, now: int)
    requires Inv(s) && VoteHash(v) !in s.votes && Acceptable(rank, signed)
    ensures Inv(AddSignature(s.(votes := s.votes[VoteHash(v) := v], log := s.log + {Cast(v, rank, signed)}), v, now))
  {
    var h := v.txHash;
    var k := OpenLock(s, h, now);
    var log := s.log + {Cast(v, rank, signed)};
    var seen := s.votes.Keys + {VoteHash(v)};
    var locks := s.locks[h := k];
    if h in s.locks {
      assert locks == s.locks;
    } else {
      NewLockKeeps(s.locks, h, k, s.votes.Keys, s.log);
    }
    MoreSeen(locks, s.votes.Keys, s.log, s.votes.Keys, log);
    assert Cast(v, rank, signed) in log;
    VoteKeeps(locks, h, v, s.votes.Keys, log, seen);
    assert s.votes[VoteHash(v) := v].Keys == seen;
    assert locks[h := locks[h].(votes := locks[h].votes + [v])] == s.locks[h := k.(votes := k.votes + [v])];
  }

  lemma CompleteKeeps(s: State, h: Hash, now: int)
    requires Inv(s) && h in s.locks && s.locks[h].height != 0
    ensures Inv(Complete(s, h, now))
  {
    var s1 := if h in s.req then s else s.(req := s.req[h := EmptyTx()]);
    assert Inv(s1);
    ReportKeeps(s1, s1.req[h], now);
  }

  lemma VoteStepKeeps(s: State, v: Vote, rank: int, signed: bool, now: int)
    requires Inv(s)
    ensures Inv(TxLockVote(s, v, rank, signed, now))
  {
    if VoteHash(v) !in s.votes {
      var s0 := s.(votes := s.votes[VoteHash(v) := v], log := s.log + {Cast(v, rank, signed)});
      if Acceptable(rank, signed) {
        AddKeeps(s, v, rank, signed, now);
        var s1 := AddSignature(s0, v, now);
        if CountSignatures(s1.locks[v.txHash]) >= SIGNATURES_REQUIRED {
          CompleteKeeps(s1, v.txHash, now);
        }
      } else {
        MoreSeen(s.locks, s.votes.Keys, s.log, s0.votes.Keys, s0.log);
      }
    }
  }

  lemma CleanUpKeeps(s: State, now: int)
    requires Inv(s)
    ensures Inv(CleanUp(s, now))
  {
    var t := CleanUp(s, now);
    forall h, i | h in t.locks && 0 <= i < |t.locks[h].votes| && VoteHash(t.locks[h].votes[i]) in s.votes
      ensures VoteHash(t.locks[h].votes[i]) in t.votes
    {
    }
    RemovalKeeps(s.locks, t.locks, s.votes.Keys, t.votes.Keys, s.log);
    forall h | h in t.locks && t.locks[h].height != 0 ensures h in t.req.Keys + t.rejected.Keys {
      assert h !in Dropped(s, now);
    }
  }

  lemma StepKeeps(s: State, op: Op, now: int)
    requires Inv(s)
    ensures Inv(Step(s, op, now))
  {
    match op
    case OpRequest(m) => RequestKeeps(s, m, now);
    case OpVote(v, rank, signed) => VoteStepKeeps(s, v, rank, signed, now);
    case OpCleanUp => CleanUpKeeps(s, now);
  }

  // --- runs -------------------------------------------------------------------------

  datatype Timed = Timed(op: Op, now: int)

  function Run(s: State, ops: seq<Timed>): State {
    if ops == [] then s else Step(Run(s, ops[..|ops| - 1]), ops[|ops| - 1].op, ops[|ops| - 1].now)
  }

  lemma {:induction false} RunKeeps(s: State, ops: seq<Timed>)
    requires Inv(s)
    ensures Inv(Run(s, ops))
  {
    if ops != [] {
      RunKeeps(s, ops[..|ops| - 1]);
      StepKeeps(Run(s, ops[..|ops| - 1]), ops[|ops| - 1].op, ops[|ops| - 1].now);
    }
  }

  /** The votes held after any run have pairwise different hashes, all of them seen. */
  lemma EveryRunIsSafe(ops: seq<Timed>)
    ensures var s := Run(Start(), ops);
            Inv(s) && Distinct(s.locks) && LocksOk(s.locks, s.votes.Keys, s.log) && ReqOk(s.req, s.rejected)
  {
    StartOk();
    RunKeeps(Start(), ops);
  }

  // --- a complete lock has a quorum ---------------------------------------------------

  /** The masternodes behind the votes that count. */
  function Voters(votes: seq<Vote>, height: int): set<OutPoint> {
    set i | 0 <= i < |votes| && votes[i].height == height :: votes[i].voter
  }

  lemma VotersNext(votes: seq<Vote>, height: int)
    requires votes != []
    ensures var n := |votes| - 1;
            Voters(votes, height) == Voters(votes[..n], height) + if votes[n].height == height then {votes[n].voter} else {}
  {
    var n := |votes| - 1;
    var all, before := Voters(votes, height), Voters(votes[..n], height);
    forall o | o in all ensures o in before || (votes[n].height == height && o == votes[n].voter) {
      var i :| 0 <= i < |votes| && votes[i].height == height && votes[i].voter == o;
      if i < n {
        assert votes[..n][i] == votes[i];
      }
    }
    forall o | o in before ensures o in all {
      var i :| 0 <= i < n && votes[..n][i].height == height && votes[..n][i].voter == o;
      assert votes[..n][i] == votes[i];
    }
  }

  lemma {:induction false} VotersCount(votes: seq<Vote>, height: int)
    requires forall i, j :: 0 <= i < j < |votes| ==> votes[i].voter != votes[j].voter
    ensures |Voters(votes, height)| == AtHeight(votes, height)
  {
    if votes == [] {
      assert Voters(votes, height) == {};
    } else {
      var n := |votes| - 1;
      VotersCount(votes[..n], height);
      VotersNext(votes, height);
      assert votes[n].voter !in Voters(votes[..n], height);
    }
  }

  /** The vote that a voter has in the log of answers. */
  ghost predicate Vouched(o: OutPoint, h: Hash, height: int, log: set<Cast>) {
    exists c :: c in log && c.vote.voter == o && c.vote.txHash == h && c.vote.height == height && Acceptable(c.rank, c.signed)
  }

  /** The count of a lock is the number of different masternodes that voted at its height,
      each found in the top ranks at that height and well signed when it voted. */
  lemma CountIsQuorum(s: State, h: Hash)
    requires Inv(s) && h in s.locks && s.locks[h].height != 0
    ensures var k := s.locks[h];
            && CountSignatures(k) == |Voters(k.votes, k.height)|
            && (forall o :: o in Voters(k.votes, k.height) ==> Vouched(o, h, k.height, s.log))
  {
    var k := s.locks[h];
    assert LockOk(k, h, s.votes.Keys, s.log);
    forall i, j | 0 <= i < j < |k.votes| ensures k.votes[i].voter != k.votes[j].voter {
      assert HeldOk(k.votes[i], h, s.votes.Keys, s.log) && HeldOk(k.votes[j], h, s.votes.Keys, s.log);
      assert VoteHash(k.votes[i]) != VoteHash(k.votes[j]);
    }
    VotersCount(k.votes, k.height);
    forall o | o in Voters(k.votes, k.height) ensures Vouched(o, h, k.height, s.log) {
      var i :| 0 <= i < |k.votes| && k.votes[i].height == k.height && k.votes[i].voter == o;
      assert HeldOk(k.votes[i], h, s.votes.Keys, s.log);
      var c :| c in s.log && c.vote == k.votes[i] && Acceptable(c.rank, c.signed);
    }
  }

  /** After any run a lock counted complete has ten different top masternodes behind it. */
  lemma CompleteLockHasQuorum(ops: seq<Timed>, h: Hash)
    ensures var s := Run(Start(), ops);
            h in s.locks && CountSignatures(s.locks[h]) >= SIGNATURES_REQUIRED ==>
              var k := s.locks[h];
              |Voters(k.votes, k.height)| >= 10 && forall o :: o in Voters(k.votes, k.height) ==> Vouched(o, h, k.height, s.log)
  {
    var s := Run(Start(), ops);
    EveryRunIsSafe(ops);
    if h in s.locks && CountSignatures(s.locks[h]) >= SIGNATURES_REQUIRED {
      CountIsQuorum(s, h);
    }
  }

  // --- locked inputs are written once ---------------------------------------------------

  lemma {:induction false} LockInputsIs(inputs: map<OutPoint, Hash>, vin: seq<OutPoint>, h: Hash)
    ensures var m := LockInputs(inputs, vin, h);
            && m.Keys == inputs.Keys + (set i | 0 <= i < |vin| :: vin[i])
            && (forall o :: o in m ==> m[o] == if o in inputs then inputs[o] else h)
  {
    if vin != [] {
      var n := |vin| - 1;
      LockInputsIs(inputs, vin[..n], h);
      assert (set i | 0 <= i < |vin| :: vin[i]) == (set i | 0 <= i < n :: vin[..n][i]) + {vin[n]};
    }
  }

  /** Requests, accepted or rejected, and locked inputs stay as they are; locks stay. */
  ghost predicate Grows(a: State, b: State) {
    && (forall h :: h in a.req ==> h in b.req && b.req[h] == a.req[h])
    && (forall h :: h in a.rejected ==> h in b.rejected && b.rejected[h] == a.rejected[h])
    && (forall h :: h in a.req && h in b.rejected ==> h in a.rejected)
    && (forall o :: o in a.inputs ==> o in b.inputs && b.inputs[o] == a.inputs[o])
    && a.locks.Keys <= b.locks.Keys
  }

  /** Looking up a request that is not there makes an empty one. */
  function Looked(s: State, h: Hash): State {
    if h in s.req then s else s.(req := s.req[h := EmptyTx()])
  }

  lemma ReportGrows(s: State, tx: Tx, now: int)
    ensures Grows(s, CheckForConflictingLocks(s, tx, now))
  {
  }

  lemma GrowsOn(a: State, b: State, c: State)
    requires Grows(a, b) && Grows(b, c)
    ensures Grows(a, c)
  {
  }

  lemma RejectionGrows(s: State, tx: Tx)
    requires tx.hash !in s.req && tx.hash !in s.rejected
    ensures Grows(s, s.(rejected := s.rejected[tx.hash := tx], inputs := LockInputs(s.inputs, tx.vin, tx.hash)))
  {
    LockInputsIs(s.inputs, tx.vin, tx.hash);
  }

  lemma RequestGrows(s: State, m: Request, now: int)
    ensures Grows(s, TxLockRequest(s, m, now))
  {
    var h := m.tx.hash;
    if h !in s.req && h !in s.rejected && m.valid {
      var s1 := CreateNewLock(s, m.tx, m.ages, m.best, now);
      CreateLeaves(s, m.tx, m.ages, m.best, now);
      if !m.accepted {
        RejectionGrows(s1, m.tx);
        var s2 := s1.(rejected := s1.rejected[h := m.tx], inputs := LockInputs(s1.inputs, m.tx.vin, h));
        GrowsOn(s, s1, s2);
        ReportGrows(s2, m.tx, now);
        GrowsOn(s, s2, CheckForConflictingLocks(s2, m.tx, now));
      }
    }
  }

  lemma CompleteGrows(s: State, h: Hash, now: int)
    ensures Grows(s, Complete(s, h, now))
  {
    var s1 := Looked(s, h);
    LockInputsIs(s1.inputs, s1.req[h].vin, h);
    ReportGrows(s1, s1.req[h], now);
    GrowsOn(s, s1, CheckForConflictingLocks(s1, s1.req[h], now));
  }

  lemma VoteGrows(s: State, v: Vote, rank: int, signed: bool, now: int)
    ensures Grows(s, TxLockVote(s, v, rank, signed, now))
  {
    if VoteHash(v) !in s.votes && Acceptable(rank, signed) {
      var s0 := s.(votes := s.votes[VoteHash(v) := v], log := s.log + {Cast(v, rank, signed)});
      var s1 := AddSignature(s0, v, now);
      assert Grows(s, s1);
      CompleteGrows(s1, v.txHash, now);
      GrowsOn(s, s1, Complete(s1, v.txHash, now));
    }
  }

  lemma StepGrows(s: State, op: Op, now: int)
    requires !op.OpCleanUp?
    ensures Grows(s, Step(s, op, now))
  {
    match op
    case OpRequest(m) => RequestGrows(s, m, now);
    case OpVote(v, rank, signed) => VoteGrows(s, v, rank, signed, now);
  }

  ghost predicate NoCleanUp(ops: seq<Timed>) {
    forall i :: 0 <= i < |ops| ==> !ops[i].op.OpCleanUp?
  }

  /** Without a clean-up an outpoint's entry never changes once set. */
  lemma {:induction false} InputsWrittenOnce(s: State, ops: seq<Timed>, i: nat)
    requires NoCleanUp(ops) && i <= |ops|
    ensures Grows(Run(s, ops[..i]), Run(s, ops))
    decreases |ops|
  {
    if i == |ops| {
      assert ops[..i] == ops;
    } else {
      var n := |ops| - 1;
      InputsWrittenOnce(s, ops[..n], i);
      assert ops[..n][..i] == ops[..i];
      StepGrows(Run(s, ops[..n]), ops[n].op, ops[n].now);
    }
  }

  /** An accepted request is remembered, but locks none of its inputs yet. */
  lemma AcceptedRequest(s: State, m: Request, now: int)
    requires m.tx.hash !in s.req && m.tx.hash !in s.rejected && m.valid && m.accepted
    ensures var t, h := TxLockRequest(s, m, now), m.tx.hash;
            && t.req == s.req[h := m.tx] && t.rejected == s.rejected && t.inputs == s.inputs
            && (!TooNew(m.ages) ==> h in t.locks && t.locks[h].height == LockHeight(m.ages, m.best))
  {
    CreateLeaves(s, m.tx, m.ages, m.best, now);
  }

  /** A request the mempool turned down is kept apart, yet claims every free input. */
  lemma RejectedRequest(s: State, m: Request, now: int)
    requires m.tx.hash !in s.req && m.tx.hash !in s.rejected && m.valid && !m.accepted
    ensures var t, h := TxLockRequest(s, m, now), m.tx.hash;
            && t.req == s.req && t.rejected == s.rejected[h := m.tx]
            && (forall o :: o in m.tx.vin ==> o in t.inputs && (o !in s.inputs ==> t.inputs[o] == h))
            && (!TooNew(m.ages) ==> h in t.locks && t.locks[h].height == LockHeight(m.ages, m.best))
  {
    var h := m.tx.hash;
    CreateLeaves(s, m.tx, m.ages, m.best, now);
    var s1 := CreateNewLock(s, m.tx, m.ages, m.best, now);
    var s2 := s1.(rejected := s1.rejected[h := m.tx], inputs := LockInputs(s1.inputs, m.tx.vin, h));
    ReportLeaves(s2, m.tx, now);
    LockInputsIs(s1.inputs, m.tx.vin, h);
    forall o | o in m.tx.vin ensures o in s2.inputs && (o !in s.inputs ==> s2.inputs[o] == h) {
      var i :| 0 <= i < |m.tx.vin| && m.tx.vin[i] == o;
    }
  }

  /** A new lock changes the locks alone, and is at the height of the first input's age. */
  lemma CreateLeaves(s: State, tx: Tx, ages: seq<int>, best: int, now: int)
    ensures var t := CreateNewLock(s, tx, ages, best, now);
            && t == s.(locks := t.locks) && s.locks.Keys <= t.locks.Keys
            && (!TooNew(ages) ==> tx.hash in t.locks && t.locks[tx.hash].height == LockHeight(ages, best))
  {
  }

  /** A report changes nothing but expirations. */
  lemma ReportLeaves(s: State, tx: Tx, now: int)
    ensures var t := CheckForConflictingLocks(s, tx, now);
            && t == s.(locks := t.locks) && t.locks.Keys == s.locks.Keys
            && forall g :: g in s.locks ==> t.locks[g] == s.locks[g].(expiration := t.locks[g].expiration)
  {
  }

  // --- votes that count -------------------------------------------------------------------

  /** The state once the vote of `op` has been added to its lock. */
  function Counted(s: State, op: Op, now: int): State
    requires op.OpVote?
  {
    AddSignature(s.(votes := s.votes[VoteHash(op.v) := op.v], log := s.log + {Cast(op.v, op.rank, op.signed)}), op.v, now)
  }

  /** The vote finds or makes its lock complete. */
  predicate Fills(s: State, op: Op, now: int) {
    op.OpVote? && VoteHash(op.v) !in s.votes && Acceptable(op.rank, op.signed)
    && CountSignatures(Counted(s, op, now).locks[op.v.txHash]) >= SIGNATURES_REQUIRED
  }

  // --- conflicting locks go --------------------------------------------------------------

  /** The two hashes a check reports, none if it finds no conflict. */
  function Pair(s: State, tx: Tx): set<Hash> {
    var i := FirstClash(s.inputs, tx.vin, tx.hash);
    if i == |tx.vin| then {}
    else
      FirstClashIs(s.inputs, tx.vin, tx.hash);
      {tx.hash, s.inputs[tx.vin[i]]}
  }

  /** The hashes of the conflict the step reports. */
  function Reported(s: State, op: Op, now: int): set<Hash> {
    match op
    case OpRequest(m) =>
      var h := m.tx.hash;
      if h in s.req || h in s.rejected || !m.valid || m.accepted then {}
      else
        var s1 := CreateNewLock(s, m.tx, m.ages, m.best, now);
        var s2 := s1.(rejected := s1.rejected[h := m.tx], inputs := LockInputs(s1.inputs, m.tx.vin, h));
        if h in s2.locks && CountSignatures(s2.locks[h]) >= SIGNATURES_REQUIRED then Pair(s2, m.tx) else {}
    case OpVote(v, _, _) =>
      if Fills(s, op, now) then var s1 := Looked(Counted(s, op, now), v.txHash); Pair(s1, s1.req[v.txHash]) else {}
    case OpCleanUp => {}
  }

  /** A lock that any clean-up at time `t` removes. */
  predicate Doomed(s: State, h: Hash, t: int) {
    h in s.locks && s.locks[h].expiration < t
  }

  lemma PairDoomed(s: State, tx: Tx, now: int, h: Hash, t: int)
    requires Pair(s, tx) != {} ==> now < t
    ensures Doomed(s, h, t) ==> Doomed(CheckForConflictingLocks(s, tx, now), h, t)
    ensures h in Pair(s, tx) && h in s.locks ==> Doomed(CheckForConflictingLocks(s, tx, now), h, t)
  {
    FirstClashIs(s.inputs, tx.vin, tx.hash);
  }

  lemma RequestDooms(s: State, m: Request, now: int, h: Hash, t: int)
    requires Reported(s, OpRequest(m), now) != {} ==> now < t
    ensures Doomed(s, h, t) ==> Doomed(TxLockRequest(s, m, now), h, t)
    ensures h in Reported(s, OpRequest(m), now) && h in TxLockRequest(s, m, now).locks ==> Doomed(TxLockRequest(s, m, now), h, t)
  {
    var g := m.tx.hash;
    if g !in s.req && g !in s.rejected && m.valid {
      var s1 := CreateNewLock(s, m.tx, m.ages, m.best, now);
      assert Doomed(s, h, t) ==> Doomed(s1, h, t);
      if !m.accepted {
        var s2 := s1.(rejected := s1.rejected[g := m.tx], inputs := LockInputs(s1.inputs, m.tx.vin, g));
        if g in s2.locks && CountSignatures(s2.locks[g]) >= SIGNATURES_REQUIRED {
          PairDoomed(s2, m.tx, now, h, t);
        }
      }
    }
  }

  lemma CompleteDooms(s: State, g: Hash, now: int, h: Hash, t: int)
    ensures var s1 := Looked(s, g); var r := Pair(s1, s1.req[g]);
            (r != {} ==> now < t) ==>
              && (Doomed(s, h, t) ==> Doomed(Complete(s, g, now), h, t))
              && (h in r && h in Complete(s, g, now).locks ==> Doomed(Complete(s, g, now), h, t))
  {
    var s1 := Looked(s, g);
    if Pair(s1, s1.req[g]) != {} ==> now < t {
      PairDoomed(s1, s1.req[g], now, h, t);
    }
  }

  lemma VoteDooms(s: State, op: Op, now: int, h: Hash, t: int)
    requires op.OpVote? && (Reported(s, op, now) != {} ==> now < t)
    ensures Doomed(s, h, t) ==> Doomed(Step(s, op, now), h, t)
    ensures h in Reported(s, op, now) && h in Step(s, op, now).locks ==> Doomed(Step(s, op, now), h, t)
  {
    if VoteHash(op.v) !in s.votes && Acceptable(op.rank, op.signed) {
      var s1 := Counted(s, op, now);
      assert Doomed(s, h, t) ==> Doomed(s1, h, t);
      CompleteDooms(s1, op.v.txHash, now, h, t);
    }
  }

  lemma StepDooms(s: State, op: Op, now: int, h: Hash, t: int)
    requires !op.OpCleanUp? && (Reported(s, op, now) != {} ==> now < t)
    ensures Doomed(s, h, t) ==> Doomed(Step(s, op, now), h, t)
    ensures h in Reported(s, op, now) && h in Step(s, op, now).locks ==> Doomed(Step(s, op, now), h, t)
  {
    if op.OpRequest? {
      RequestDooms(s, op.m, now, h, t);
    } else {
      VoteDooms(s, op, now, h, t);
    }
  }

  /** Every report of the run comes before time `t`. */
  ghost predicate ReportsBefore(s: State, ops: seq<Timed>, t: int) {
    ops == [] ||
    (var n := |ops| - 1;
     ReportsBefore(s, ops[..n], t) && (Reported(Run(s, ops[..n]), ops[n].op, ops[n].now) != {} ==> ops[n].now < t))
  }

  /** The lock is there after every step of the run. */
  ghost predicate Stays(s: State, ops: seq<Timed>, h: Hash) {
    forall n :: 0 <= n <= |ops| ==> h in Run(s, ops[..n]).locks
  }

  lemma {:induction false} StaysDoomed(s: State, ops: seq<Timed>, h: Hash, t: int)
    requires Stays(s, ops, h) && Doomed(s, h, t) && ReportsBefore(s, ops, t)
    ensures Doomed(Run(s, ops), h, t)
  {
    if ops != [] {
      var n := |ops| - 1;
      forall k | 0 <= k <= n ensures h in Run(s, ops[..n][..k]).locks {
        assert ops[..n][..k] == ops[..k];
      }
      StaysDoomed(s, ops[..n], h, t);
      assert ops[..|ops|] == ops;
      if !ops[n].op.OpCleanUp? {
        StepDooms(Run(s, ops[..n]), ops[n].op, ops[n].now, h, t);
      }
    }
  }

  /** After a reported conflict, a clean-up later than every report so far removes both
      locks, if none before it did. */
  lemma ConflictRemovesBoth(s: State, first: Timed, ops: seq<Timed>, h: Hash, t: int)
    requires !first.op.OpCleanUp? && first.now < t && h in Reported(s, first.op, first.now)
    requires Stays(Step(s, first.op, first.now), ops, h)
    requires ReportsBefore(Step(s, first.op, first.now), ops, t)
    ensures h !in CleanUp(Run(Step(s, first.op, first.now), ops), t).locks
  {
    assert ops[..0] == [];
    StepDooms(s, first.op, first.now, h, t);
    StaysDoomed(Step(s, first.op, first.now), ops, h, t);
  }

  /** A clean-up unlocks an input exactly if an expired lock whose request was accepted
      spends it: inputs locked for a rejected transaction stay locked. */
  lemma CleanUpFrees(s: State, now: int, o: OutPoint)
    requires Inv(s) && o in s.inputs
    ensures o !in CleanUp(s, now).inputs <==>
            exists h :: h in s.req && h !in s.rejected && h in s.locks && now > s.locks[h].expiration && o in s.req[h].vin
  {
    assert o !in CleanUp(s, now).inputs <==> o in DroppedInputs(s, now);
  }
}
