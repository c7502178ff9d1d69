/** What each message and clean-up of InstantX does, in terms of its fields and of the maps
    before and after. */
module InstantXOutcomes {
  import opened Common
  import opened SortedSets
  import opened InstantXModel
  import opened InstantXRuns
  import opened InstantXConflicts

  // --- clean-up -----------------------------------------------------------------------------

  /** The lock is past its expiration and goes, and its stored request with it. */
  predicate Goes(s: State, h: Hash, now: int) {
    h in s.locks && now > s.locks[h].expiration && h in s.req
  }

  ghost predicate SpentByGone(s: State, o: OutPoint, now: int) {
    exists h :: Goes(s, h, now) && o in s.req[h].vin
  }

  ghost predicate HeldByGone(s: State, x: Hash, now: int) {
    exists h, i :: Goes(s, h, now) && 0 <= i < |s.locks[h].votes| && VoteHash(s.locks[h].votes[i]) == x
  }

  /** Exactly the locks that are not past their expiration stay, as they are. */
  lemma LiveLocksStay(s: State, now: int)
    ensures var t := CleanUp(s, now);
            && (forall h :: h in t.locks <==> h in s.locks && now <= s.locks[h].expiration)
            && (forall h :: h in t.locks ==> t.locks[h] == s.locks[h])
  {
  }

  /** A request and a rejection go exactly with an expired lock whose request is stored. */
  lemma RequestsStay(s: State, now: int)
    ensures var t := CleanUp(s, now);
            && (forall h :: h in t.req <==> h in s.req && !Goes(s, h, now))
            && (forall h :: h in t.req ==> t.req[h] == s.req[h])
            && (forall h :: h in t.rejected <==> h in s.rejected && !Goes(s, h, now))
            && (forall h :: h in t.rejected ==> t.rejected[h] == s.rejected[h])
            && t.unknown == s.unknown && t.log == s.log
  {
  }

  /** An input is unlocked exactly if such a lock's request spends it. */
  lemma InputsStay(s: State, now: int)
    ensures var t := CleanUp(s, now);
            && (forall o :: o in t.inputs <==> o in s.inputs && !SpentByGone(s, o, now))
            && (forall o :: o in t.inputs ==> t.inputs[o] == s.inputs[o])
  {
    forall o ensures o in DroppedInputs(s, now) <==> SpentByGone(s, o, now) {
      if SpentByGone(s, o, now) {
        var h :| Goes(s, h, now) && o in s.req[h].vin;
        assert h in Dropped(s, now);
      }
    }
  }

  /** A vote is forgotten exactly if such a lock holds one with its hash. */
  lemma VotesStay(s: State, now: int)
    ensures var t := CleanUp(s, now);
            && (forall x :: x in t.votes <==> x in s.votes && !HeldByGone(s, x, now))
            && (forall x :: x in t.votes ==> t.votes[x] == s.votes[x])
  {
    forall x ensures x in DroppedVotes(s, now) <==> HeldByGone(s, x, now) {
      if HeldByGone(s, x, now) {
        var h, i :| Goes(s, h, now) && 0 <= i < |s.locks[h].votes| && VoteHash(s.locks[h].votes[i]) == x;
        assert h in Dropped(s, now) && x in VoteHashes(s.locks[h].votes);
      }
      if x in DroppedVotes(s, now) {
        var h :| h in Dropped(s, now) && x in VoteHashes(s.locks[h].votes);
        var i :| 0 <= i < |s.locks[h].votes| && VoteHash(s.locks[h].votes[i]) == x;
        assert Goes(s, h, now);
      }
    }
  }

  /** The votes of a lock that stays are remembered. */
  lemma LiveVotesStay(s: State, now: int, h: Hash, i: nat)
    requires Inv(s) && h in CleanUp(s, now).locks && i < |s.locks[h].votes|
    ensures VoteHash(s.locks[h].votes[i]) in s.votes && VoteHash(s.locks[h].votes[i]) in CleanUp(s, now).votes
  {
    var x := VoteHash(s.locks[h].votes[i]);
    assert LockOk(s.locks[h], h, s.votes.Keys, s.log);
    assert HeldOk(s.locks[h].votes[i], h, s.votes.Keys, s.log);
    VotesStay(s, now);
  }

  // --- how long a lock lives -------------------------------------------------------------------

  /** A step changes the expiration of a lock only by reporting it. */
  lemma ExpirationStays(s: State, op: Op, now: int, h: Hash)
    requires h in s.locks && h in Step(s, op, now).locks && h !in Reported(s, op, now)
    ensures Step(s, op, now).locks[h].expiration == s.locks[h].expiration
  {
    match op
    case OpRequest(m) => RequestExpiration(s, m, now, h);
    case OpVote(v, _, _) => VoteExpiration(s, op, now, h);
    case OpCleanUp =>
  }

  lemma PairExpires(s: State, tx: Tx, now: int, h: Hash)
    ensures var t := CheckForConflictingLocks(s, tx, now);
            h in s.locks ==> h in t.locks && t.locks[h].expiration == if h in Pair(s, tx) then now else s.locks[h].expiration
  {
    FirstClashIs(s.inputs, tx.vin, tx.hash);
  }

  lemma CompleteExpires(s: State, g: Hash, now: int, h: Hash)
    ensures var t, r := Complete(s, g, now), Looked(s, g);
            && t.locks.Keys == s.locks.Keys
            && (h in s.locks ==> t.locks[h].expiration == if h in Pair(r, r.req[g]) then now else s.locks[h].expiration)
  {
    CompleteLeaves(s, g, now);
    PairExpires(Looked(s, g), Looked(s, g).req[g], now, h);
  }

  lemma RequestExpiration(s: State, m: Request, now: int, h: Hash)
    requires h in s.locks && h !in Reported(s, OpRequest(m), now)
    ensures h in TxLockRequest(s, m, now).locks && TxLockRequest(s, m, now).locks[h].expiration == s.locks[h].expiration
  {
    var g := m.tx.hash;
    if g !in s.req && g !in s.rejected && m.valid {
      var s1 := CreateNewLock(s, m.tx, m.ages, m.best, now);
      assert h in s1.locks && s1.locks[h].expiration == s.locks[h].expiration;
      if !m.accepted {
        PairExpires(s1.(rejected := s1.rejected[g := m.tx], inputs := LockInputs(s1.inputs, m.tx.vin, g)), m.tx, now, h);
      }
    }
  }

  lemma VoteExpiration(s: State, op: Op, now: int, h: Hash)
    requires op.OpVote? && h in s.locks && h !in Reported(s, op, now)
    ensures h in Step(s, op, now).locks && Step(s, op, now).locks[h].expiration == s.locks[h].expiration
  {
    if VoteHash(op.v) !in s.votes && Acceptable(op.rank, op.signed) {
      var s1 := Counted(s, op, now);
      assert h in s1.locks && s1.locks[h].expiration == s.locks[h].expiration;
      CompleteExpires(s1, op.v.txHash, now, h);
    }
  }

  /** A step that makes a lock gives it 20 minutes, or none if it reports it at once. */
  lemma NewLockExpires(s: State, op: Op, now: int, h: Hash)
    requires h !in s.locks && h in Step(s, op, now).locks
    ensures Step(s, op, now).locks[h].expiration == if h in Reported(s, op, now) then now else now + 1200
  {
    match op
    case OpRequest(m) => RequestMakes(s, m, now, h);
    case OpVote(v, _, _) => VoteMakes(s, op, now, h);
    case OpCleanUp =>
  }

  lemma RequestMakes(s: State, m: Request, now: int, h: Hash)
    requires h !in s.locks && h in TxLockRequest(s, m, now).locks
    ensures TxLockRequest(s, m, now).locks[h].expiration == if h in Reported(s, OpRequest(m), now) then now else now + 1200
  {
    var g := m.tx.hash;
    if g !in s.req && g !in s.rejected && m.valid {
      var s1 := CreateNewLock(s, m.tx, m.ages, m.best, now);
      assert h in s1.locks ==> s1.locks[h].expiration == now + 1200;
      if !m.accepted {
        var s2 := s1.(rejected := s1.rejected[g := m.tx], inputs := LockInputs(s1.inputs, m.tx.vin, g));
        ReportLeaves(s2, m.tx, now);
        PairExpires(s2, m.tx, now, h);
      }
    }
  }

  lemma VoteMakes(s: State, op: Op, now: int, h: Hash)
    requires op.OpVote? && h !in s.locks && h in Step(s, op, now).locks
    ensures Step(s, op, now).locks[h].expiration == if h in Reported(s, op, now) then now else now + 1200
  {
    if VoteHash(op.v) !in s.votes && Acceptable(op.rank, op.signed) {
      var s1 := Counted(s, op, now);
      CompleteExpires(s1, op.v.txHash, now, h);
      CountedMakes(s, op, now, h);
    }
  }

  lemma CountedMakes(s: State, op: Op, now: int, h: Hash)
    requires op.OpVote? && h !in s.locks && h in Counted(s, op, now).locks
    ensures Counted(s, op, now).locks[h].expiration == now + 1200
  {
  }

  /** No step of the run reports the lock, and no clean-up comes after time t. */
  ghost predicate LeftAlone(s: State, ops: seq<Timed>, h: Hash, t: int) {
    ops == [] ||
    (var n := |ops| - 1;
     && LeftAlone(s, ops[..n], h, t)
     && h !in Reported(Run(s, ops[..n]), ops[n].op, ops[n].now)
     && (ops[n].op.OpCleanUp? ==> ops[n].now <= t))
  }

  lemma {:induction false} LockStays(s: State, ops: seq<Timed>, h: Hash)
    requires h in s.locks && LeftAlone(s, ops, h, s.locks[h].expiration)
    ensures h in Run(s, ops).locks && Run(s, ops).locks[h].expiration == s.locks[h].expiration
  {
    if ops != [] {
      var n := |ops| - 1;
      LockStays(s, ops[..n], h);
      var r := Run(s, ops[..n]);
      if ops[n].op.OpCleanUp? {
        LiveLocksStay(r, ops[n].now);
      } else {
        StepGrows(r, ops[n].op, ops[n].now);
      }
      ExpirationStays(r, ops[n].op, ops[n].now, h);
    }
  }

  /** A lock made at time t and not reported lives through every clean-up up to t + 1200. */
  lemma LockLivesTwentyMinutes(s: State, first: Timed, ops: seq<Timed>, h: Hash)
    requires h !in s.locks && h in Step(s, first.op, first.now).locks && h !in Reported(s, first.op, first.now)
    requires LeftAlone(Step(s, first.op, first.now), ops, h, first.now + 1200)
    ensures h in Run(Step(s, first.op, first.now), ops).locks
  {
    NewLockExpires(s, first.op, first.now, h);
    LockStays(Step(s, first.op, first.now), ops, h);
  }

  // --- requests ------------------------------------------------------------------------------

  /** An input has fewer than nine confirmations. */
  predicate Young(ages: seq<int>) { exists i :: 0 <= i < |ages| && ages[i] < 9 }

  /** The height at which the lock of a request is voted. */
  function RequestHeight(ages: seq<int>, best: int): int {
    if Young(ages) then 0 else best - (if ages == [] then 0 else ages[0]) + 4
  }

  /** The lock of a transaction, or a new one without height. */
  function LockFor(s: State, h: Hash, now: int): Lock {
    if h in s.locks then s.locks[h] else Lock(0, h, [], now + 1200, now + 300)
  }

  /** A request that was seen before, or is not valid, changes nothing. */
  lemma SeenRequestIgnored(s: State, m: Request, now: int)
    requires m.tx.hash in s.req || m.tx.hash in s.rejected || !m.valid
    ensures TxLockRequest(s, m, now) == s
  {
  }

  /** An accepted request gives its lock the height, unless an input is too young; a lock made
      for it expires after 20 minutes and has a time-out of five. */
  lemma RequestLocks(s: State, m: Request, now: int)
    requires m.tx.hash !in s.req && m.tx.hash !in s.rejected && m.valid && m.accepted
    ensures var t, h := TxLockRequest(s, m, now), m.tx.hash;
            && (forall g :: g != h ==> (g in t.locks <==> g in s.locks) && (g in s.locks ==> t.locks[g] == s.locks[g]))
            && (Young(m.ages) ==> t.locks == s.locks)
            && (!Young(m.ages) ==>
                  h in t.locks && t.locks[h] == LockFor(s, h, now).(height := RequestHeight(m.ages, m.best)))
  {
  }

  /** The node's own vote on an accepted request is stored exactly if it is a masternode of
      rank at most 15 whose signature verifies. */
  lemma OwnVoteStored(s: State, m: Request, now: int)
    requires m.tx.hash !in s.req && m.tx.hash !in s.rejected && m.valid && m.accepted
    ensures var t, h := TxLockRequest(s, m, now), m.tx.hash;
            if m.own.Own? && m.own.rank != -1 && m.own.rank <= 15 && m.own.signed then
              t.votes == s.votes[(m.own.vin.hash + m.own.vin.n + h) % TWO_256 := Vote(m.own.vin, h, RequestHeight(m.ages, m.best), m.own.sig)]
            else t.votes == s.votes
  {
  }

  // --- votes -----------------------------------------------------------------------------------

  /** A vote whose hash was seen changes nothing. */
  lemma SeenVoteIgnored(s: State, v: Vote, rank: int, signed: bool, now: int)
    requires VoteHash(v) in s.votes
    ensures TxLockVote(s, v, rank, signed, now) == s
  {
  }

  /** Another is remembered, and joins the votes of its lock exactly if the masternode has a
      rank of at most 15 and the signature verifies. */
  lemma VoteJoins(s: State, v: Vote, rank: int, signed: bool, now: int)
    requires VoteHash(v) !in s.votes
    ensures var t, h := TxLockVote(s, v, rank, signed, now), v.txHash;
            && t.votes == s.votes[VoteHash(v) := v] && t.rejected == s.rejected
            && (forall g :: g in t.locks <==> g in s.locks || (g == h && rank != -1 && rank <= 15 && signed))
            && (forall g :: g in s.locks && g != h ==> t.locks[g].votes == s.locks[g].votes && t.locks[g].height == s.locks[g].height)
            && (h in t.locks ==>
                  && t.locks[h].height == LockFor(s, h, now).height
                  && t.locks[h].votes == LockFor(s, h, now).votes + if rank != -1 && rank <= 15 && signed then [v] else [])
  {
    var op := OpVote(v, rank, signed);
    if Acceptable(rank, signed) {
      CompleteLeaves(Counted(s, op, now), v.txHash, now);
      CompleteVotes(Counted(s, op, now), v.txHash, now);
    } else {
      assert LockFor(s, v.txHash, now).votes + [] == LockFor(s, v.txHash, now).votes;
    }
  }

  lemma CompleteVotes(s: State, h: Hash, now: int)
    ensures Complete(s, h, now).votes == s.votes
  {
    ReportLeaves(Looked(s, h), Looked(s, h).req[h], now);
  }

  // --- votes on transactions nobody requested ----------------------------------------------------

  /** The average lies between the smallest and the largest of the stored times, whatever
      their sign, and is the one time if there is only one. */
  lemma AverageBetween(m: map<Hash, int>, lo: int, hi: int)
    requires m.Keys != {} && forall k :: k in m ==> lo <= m[k] <= hi
    ensures lo <= AverageVoteTime(m) <= hi
  {
    var q := Ascending(m.Keys);
    AscendingEnumerates(m.Keys);
    SumBetween(m, q, lo, hi);
    assert |m| == |m.Keys| == |q|;
    QuotientBetween(SumOf(m, q), |q|, lo, hi);
  }

  lemma {:induction false} SumBetween(m: map<Hash, int>, q: seq<Hash>, lo: int, hi: int)
    requires forall k :: k in q ==> k in m && lo <= m[k] <= hi
    ensures |q| * lo <= SumOf(m, q) <= |q| * hi
  {
    if q != [] {
      var n := |q| - 1;
      assert q[n] in q;
      SumBetween(m, q[..n], lo, hi);
      assert |q| * lo == n * lo + lo && |q| * hi == n * hi + hi;
    }
  }

  lemma QuotientBetween(a: int, n: nat, lo: int, hi: int)
    requires n > 0 && n * lo <= a <= n * hi
    ensures lo <= Quotient(a, n) <= hi
  {
    if a >= 0 {
      Between(a, n, a / n, lo, hi);
    } else {
      Between(-a, n, (-a) / n, -hi, -lo);
    }
  }

  lemma Between(a: int, n: nat, q: int, lo: int, hi: int)
    requires n > 0 && a >= 0 && q == a / n && n * lo <= a <= n * hi
    ensures lo <= q <= hi
  {
    assert n * q <= a < n * (q + 1);
    if q < lo {
      Monotone(n, q + 1, lo);
    }
    if hi < q {
      Monotone(n, hi + 1, q);
    }
  }

  lemma Monotone(n: nat, a: int, b: int)
    requires a <= b
    ensures n * a <= n * b
  {
  }

  /** A time still ahead, and more than ten minutes above the average, stays; any other becomes
      ten minutes from now. */
  ghost predicate Noted(m: map<Hash, int>, t: map<Hash, int>, who: Hash, now: int) {
    var first := if who in m then m else m[who := now + 600];
    && t.Keys == m.Keys + {who} && first.Keys != {} && who in first && who in t
    && (forall k :: k in m && k != who ==> k in t && t[k] == m[k])
    && t[who] == if first[who] > now && first[who] > AverageVoteTime(first) + 600 then first[who] else now + 600
  }

  lemma NoteIs(m: map<Hash, int>, who: Hash, now: int)
    ensures Noted(m, NoteUnknown(m, who, now), who, now)
  {
    var first := if who in m then m else m[who := now + 600];
    assert who in first;
  }

  lemma CompleteUnknown(s: State, h: Hash, now: int)
    ensures Complete(s, h, now).unknown == s.unknown
  {
    ReportLeaves(Looked(s, h), Looked(s, h).req[h], now);
  }

  /** The sender of a vote is noted exactly if the vote counts and its transaction is not
      known. */
  lemma SenderNoted(s: State, v: Vote, rank: int, signed: bool, now: int)
    requires VoteHash(v) !in s.votes
    ensures var t := TxLockVote(s, v, rank, signed, now);
            if rank != -1 && rank <= 15 && signed && v.txHash !in t.req && v.txHash !in t.rejected
            then Noted(s.unknown, t.unknown, v.voter.hash, now) else t.unknown == s.unknown
  {
    NoteIs(s.unknown, v.voter.hash, now);
    if Acceptable(rank, signed) {
      CompleteUnknown(Counted(s, OpVote(v, rank, signed), now), v.txHash, now);
    }
  }
}
