/** When a transaction lock that counts as complete stands for locked inputs, and runs in
    which it does not. */
module InstantXConflicts {
  import opened Common
  import opened SortedSets
  import opened InstantXModel
  import opened InstantXRuns

  /** The lock has the votes it needs. */
  predicate IsComplete(s: State, h: Hash) {
    h in s.locks && CountSignatures(s.locks[h]) >= SIGNATURES_REQUIRED
  }

  /** The step makes the lock on `h` complete. */
  predicate Completes(s: State, op: Op, now: int, h: Hash) {
    !IsComplete(s, h) && IsComplete(Step(s, op, now), h)
  }

  /** What the transaction requested under `h` spends, whether or not it was accepted. */
  function Spent(s: State, h: Hash): seq<OutPoint> {
    if h in s.rejected then s.rejected[h].vin else if h in s.req then s.req[h].vin else []
  }

  /** All of `vin` is locked by `h`. */
  predicate Owned(inputs: map<OutPoint, Hash>, vin: seq<OutPoint>, h: Hash) {
    forall i :: 0 <= i < |vin| ==> vin[i] in inputs && inputs[vin[i]] == h
  }

  predicate Secured(s: State, h: Hash) { Owned(s.inputs, Spent(s, h), h) }

  /** The lock is on a transaction that was accepted before the step, or is rejected by it;
      or else everything the transaction spends is its own already. */
  predicate Guarded(s: State, op: Op, h: Hash) {
    match op
    case OpRequest(m) => !m.accepted || Owned(s.inputs, m.tx.vin, h)
    case OpVote(_, _, _) => h !in s.rejected || Owned(s.inputs, s.rejected[h].vin, h)
    case OpCleanUp => true
  }

  // --- which steps complete a lock ----------------------------------------------------------

  lemma SameCounts(a: map<Hash, Lock>, b: map<Hash, Lock>, h: Hash)
    requires h in b ==> h in a && a[h].height == b[h].height && a[h].votes == b[h].votes
    ensures h in b && CountSignatures(b[h]) >= SIGNATURES_REQUIRED ==> h in a && CountSignatures(a[h]) >= SIGNATURES_REQUIRED
  {
  }

  /** Only a vote on `h`, or the request of `h` seen for the first time, can. */
  lemma CompletesHow(s: State, op: Op, now: int, h: Hash)
    requires Completes(s, op, now, h)
    ensures match op
      case OpRequest(m) => m.tx.hash == h && h !in s.req && h !in s.rejected && m.valid
      case OpVote(v, _, _) => v.txHash == h && Fills(s, op, now)
      case OpCleanUp => false
  {
    match op
    case OpRequest(m) => RequestElsewhere(s, m, now, h);
    case OpVote(v, _, _) => VoteElsewhere(s, op, now, h);
    case OpCleanUp => SameCounts(s.locks, CleanUp(s, now).locks, h);
  }

  lemma CreateElsewhere(s: State, tx: Tx, ages: seq<int>, best: int, now: int, h: Hash)
    requires h != tx.hash
    ensures var t := CreateNewLock(s, tx, ages, best, now); h in t.locks ==> h in s.locks && t.locks[h] == s.locks[h]
  {
  }

  lemma RequestElsewhere(s: State, m: Request, now: int, h: Hash)
    requires !IsComplete(s, h) && IsComplete(TxLockRequest(s, m, now), h)
    ensures m.tx.hash == h && h !in s.req && h !in s.rejected && m.valid
  {
    var g := m.tx.hash;
    if g !in s.req && g !in s.rejected && m.valid && g != h {
      var s1 := CreateNewLock(s, m.tx, m.ages, m.best, now);
      CreateElsewhere(s, m.tx, m.ages, m.best, now, h);
      SameCounts(s.locks, s1.locks, h);
      var s2 := s1.(rejected := s1.rejected[g := m.tx], inputs := LockInputs(s1.inputs, m.tx.vin, g));
      ReportLeaves(s2, m.tx, now);
      SameCounts(s1.locks, TxLockRequest(s, m, now).locks, h);
    }
  }

  lemma VoteElsewhere(s: State, op: Op, now: int, h: Hash)
    requires op.OpVote? && !IsComplete(s, h) && IsComplete(Step(s, op, now), h)
    ensures op.v.txHash == h && Fills(s, op, now)
  {
    var t := Step(s, op, now);
    var s1 := Counted(s, op, now);
    if VoteHash(op.v) in s.votes || !Acceptable(op.rank, op.signed) {
      SameCounts(s.locks, t.locks, h);
    } else {
      CompleteLeaves(s1, op.v.txHash, now);
      SameCounts(s1.locks, t.locks, h);
      if op.v.txHash != h {
        SameCounts(s.locks, s1.locks, h);
      }
    }
  }

  /** Completing a lock leaves heights and votes as they are. */
  lemma CompleteLeaves(s: State, g: Hash, now: int)
    ensures var t := Complete(s, g, now);
            && t.locks.Keys == s.locks.Keys && t.rejected == s.rejected
            && forall h :: h in s.locks ==> t.locks[h].height == s.locks[h].height && t.locks[h].votes == s.locks[h].votes
  {
    var s1 := Looked(s, g);
    ReportLeaves(s1, s1.req[g], now);
  }

  // --- what it then stands for ----------------------------------------------------------------

  lemma OwnedOrClash(inputs: map<OutPoint, Hash>, vin: seq<OutPoint>, h: Hash)
    ensures FirstClash(inputs, vin, h) == |vin| ==> Owned(LockInputs(inputs, vin, h), vin, h)
  {
    FirstClashIs(inputs, vin, h);
    LockInputsIs(inputs, vin, h);
    if FirstClash(inputs, vin, h) == |vin| {
      forall i | 0 <= i < |vin| ensures vin[i] in LockInputs(inputs, vin, h) && LockInputs(inputs, vin, h)[vin[i]] == h {
        assert !Clashes(inputs, vin[i], h);
      }
    }
  }

  /** Inputs that were claimed without a clash are owned. */
  lemma ClaimedOrClash(inputs: map<OutPoint, Hash>, vin: seq<OutPoint>, h: Hash)
    requires forall i :: 0 <= i < |vin| ==> vin[i] in inputs
    ensures FirstClash(inputs, vin, h) == |vin| ==> Owned(inputs, vin, h)
  {
    FirstClashIs(inputs, vin, h);
    if FirstClash(inputs, vin, h) == |vin| {
      forall i | 0 <= i < |vin| ensures inputs[vin[i]] == h {
        assert !Clashes(inputs, vin[i], h);
      }
    }
  }

  lemma RequestSecures(s: State, m: Request, now: int)
    requires m.tx.hash !in s.req && m.tx.hash !in s.rejected && m.valid && IsComplete(TxLockRequest(s, m, now), m.tx.hash)
    ensures var h := m.tx.hash;
            (Secured(TxLockRequest(s, m, now), h) || Reported(s, OpRequest(m), now) != {}) <==> Guarded(s, OpRequest(m), h)
  {
    var h := m.tx.hash;
    var t := TxLockRequest(s, m, now);
    if m.accepted {
      AcceptedRequest(s, m, now);
    } else {
      CreateLeaves(s, m.tx, m.ages, m.best, now);
      var s1 := CreateNewLock(s, m.tx, m.ages, m.best, now);
      var s2 := s1.(rejected := s1.rejected[h := m.tx], inputs := LockInputs(s1.inputs, m.tx.vin, h));
      ReportLeaves(s2, m.tx, now);
      LockInputsIs(s1.inputs, m.tx.vin, h);
      ClaimedOrClash(s2.inputs, m.tx.vin, h);
      SameCounts(s2.locks, t.locks, h);
    }
  }

  lemma VoteSecures(s: State, op: Op, now: int)
    requires Inv(s) && op.OpVote? && Fills(s, op, now) && Completes(s, op, now, op.v.txHash)
    ensures var h := op.v.txHash;
            (Secured(Step(s, op, now), h) || Reported(s, op, now) != {}) <==> Guarded(s, op, h)
  {
    var h := op.v.txHash;
    var s1 := Counted(s, op, now);
    CompleteLeaves(s1, h, now);
    var s2 := Looked(s1, h);
    var tx := s2.req[h];
    ReportLeaves(s2, tx, now);
    LockInputsIs(s2.inputs, tx.vin, h);
    if h !in s.rejected {
      KnownByHeight(s, op, now);
      OwnedOrClash(s2.inputs, tx.vin, h);
    } else {
      assert tx == EmptyTx();
      assert Step(s, op, now).inputs == s.inputs;
    }
  }

  /** Without a request there is no height, hence no complete lock. */
  lemma KnownByHeight(s: State, op: Op, now: int)
    requires Inv(s) && op.OpVote? && Fills(s, op, now) && op.v.txHash !in s.rejected
    ensures op.v.txHash in s.req && s.req[op.v.txHash].hash == op.v.txHash
  {
    assert Counted(s, op, now).locks[op.v.txHash].height == OpenLock(s, op.v.txHash, now).height;
  }

  /** A step that completes a lock locks all inputs of its transaction for it, or reports a
      conflict, if and only if the lock is guarded. */
  lemma CompleteIsSecured(s: State, op: Op, now: int, h: Hash)
    requires Inv(s) && Completes(s, op, now, h)
    ensures (Secured(Step(s, op, now), h) || Reported(s, op, now) != {}) <==> Guarded(s, op, h)
    ensures h in Step(s, op, now).req || h in Step(s, op, now).rejected
  {
    CompletesHow(s, op, now, h);
    StepKeeps(s, op, now);
    if op.OpRequest? {
      RequestSecures(s, op.m, now);
    } else {
      VoteSecures(s, op, now);
    }
  }

  // --- over a run ----------------------------------------------------------------------------

  /** Step `i` of the run completes the lock on `h`, guarded and without a report. */
  ghost predicate CompletesAt(s: State, ops: seq<Timed>, i: nat, h: Hash)
    requires i < |ops|
  {
    var t := Run(s, ops[..i]);
    Completes(t, ops[i].op, ops[i].now, h) && Guarded(t, ops[i].op, h) && Reported(t, ops[i].op, ops[i].now) == {}
  }

  lemma SecuredStays(a: State, b: State, h: Hash)
    requires Grows(a, b) && Secured(a, h) && (h in a.req || h in a.rejected)
    ensures Secured(b, h) && Spent(b, h) == Spent(a, h)
  {
  }

  lemma SecuredAtEnd(s: State, ops: seq<Timed>, i: nat, h: Hash)
    requires Inv(s) && NoCleanUp(ops) && i < |ops| && CompletesAt(s, ops, i, h)
    ensures Secured(Run(s, ops), h)
  {
    RunKeeps(s, ops[..i]);
    var t := Run(s, ops[..i]);
    CompleteIsSecured(t, ops[i].op, ops[i].now, h);
    assert ops[..i + 1][..i] == ops[..i];
    InputsWrittenOnce(s, ops, i + 1);
    SecuredStays(Run(s, ops[..i + 1]), Run(s, ops), h);
  }

  /** Two different transactions whose locks complete guarded and without a report, with no
      clean-up in between, spend different outputs. */
  lemma CompletedLocksDisjoint(before: seq<Timed>, ops: seq<Timed>, i: nat, j: nat, g: Hash, h: Hash, o: OutPoint)
    requires NoCleanUp(ops) && i < |ops| && j < |ops| && g != h
    requires CompletesAt(Run(Start(), before), ops, i, g) && CompletesAt(Run(Start(), before), ops, j, h)
    ensures var t := Run(Run(Start(), before), ops); !(o in Spent(t, g) && o in Spent(t, h))
  {
    var s := Run(Start(), before);
    EveryRunIsSafe(before);
    SecuredAtEnd(s, ops, i, g);
    SecuredAtEnd(s, ops, j, h);
  }
}
