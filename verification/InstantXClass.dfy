/** The message handlers of InstantX as they change the global maps. */
module InstantXClass {
  import opened Common
  import opened SortedSets
  import opened InstantXModel
  import opened InstantXRuns

  /** The clean-up once the locks in `done` have been visited. */
  function CleanOf(s: State, now: int, done: set<Hash>): State {
    var gone := set h | h in done && Expired(s, h, now);
    var dropped := gone * s.req.Keys;
    s.(locks := s.locks - gone,
       req := s.req - dropped,
       rejected := s.rejected - dropped,
       inputs := s.inputs - (set h, o | h in dropped && o in s.req[h].vin :: o),
       votes := s.votes - (set h, k | h in dropped && k in VoteHashes(s.locks[h].votes) :: k))
  }

  lemma CleanOfAll(s: State, now: int)
    ensures CleanOf(s, now, s.locks.Keys) == CleanUp(s, now)
  {
    var a, b := CleanOf(s, now, s.locks.Keys), CleanUp(s, now);
    var gone := set h | h in s.locks.Keys && Expired(s, h, now);
    assert gone * s.req.Keys == Dropped(s, now);
    assert a.locks == b.locks;
    assert (set h, o | h in gone * s.req.Keys && o in s.req[h].vin :: o) == DroppedInputs(s, now);
    assert (set h, k | h in gone * s.req.Keys && k in VoteHashes(s.locks[h].votes) :: k) == DroppedVotes(s, now);
  }

  /** One visit. */
  function CleanOne(t: State, h: Hash, k: Lock): State {
    if h in t.req then
      t.(locks := t.locks - {h}, req := t.req - {h}, rejected := t.rejected - {h},
         inputs := t.inputs - (set o | o in t.req[h].vin), votes := t.votes - VoteHashes(k.votes))
    else t.(locks := t.locks - {h})
  }

  lemma CleanNext(s: State, now: int, done: set<Hash>, h: Hash)
    requires h in s.locks && h !in done
    ensures var t := CleanOf(s, now, done);
            && h in t.locks && t.locks[h] == s.locks[h]
            && CleanOf(s, now, done + {h}) == if Expired(s, h, now) then CleanOne(t, h, s.locks[h]) else t
  {
    var gone := set g | g in done && Expired(s, g, now);
    var gone2 := set g | g in done + {h} && Expired(s, g, now);
    if Expired(s, h, now) {
      assert gone2 == gone + {h};
      var t, u := CleanOf(s, now, done), CleanOf(s, now, done + {h});
      var d, d2 := gone * s.req.Keys, gone2 * s.req.Keys;
      assert u.locks == t.locks - {h};
      if h in s.req {
        assert d2 == d + {h};
        assert u.req == t.req - {h} && u.rejected == t.rejected - {h};
        assert t.req[h] == s.req[h];
        DropNext(s, d, h);
        assert u.inputs == t.inputs - (set o | o in t.req[h].vin);
        assert u.votes == t.votes - VoteHashes(s.locks[h].votes);
      } else {
        assert d2 == d;
      }
    } else {
      assert gone2 == gone;
    }
  }

  lemma DropNext(s: State, d: set<Hash>, h: Hash)
    requires h in s.req && h in s.locks && d <= s.req.Keys && d <= s.locks.Keys
    ensures (set g, o | g in d + {h} && o in s.req[g].vin :: o) == (set g, o | g in d && o in s.req[g].vin :: o) + (set o | o in s.req[h].vin)
    ensures (set g, k | g in d + {h} && k in VoteHashes(s.locks[g].votes) :: k)
         == (set g, k | g in d && k in VoteHashes(s.locks[g].votes) :: k) + VoteHashes(s.locks[h].votes)
  {
  }

  function Done(keys: seq<Hash>, n: nat): set<Hash>
    requires n <= |keys|
  {
    set i | 0 <= i < n :: keys[i]
  }

  lemma DoneAll(all: set<Hash>)
    ensures var keys := Ascending(all); Done(keys, 0) == {} && Done(keys, |keys|) == all
  {
    AscendingEnumerates(all);
    var keys := Ascending(all);
    forall h | h in all ensures h in Done(keys, |keys|) {
      assert h in keys;
    }
    forall h | h in Done(keys, |keys|) ensures h in all {
      assert h in keys;
    }
  }

  lemma CleanOfNone(s: State, now: int)
    ensures CleanOf(s, now, {}) == s
  {
    var t := CleanOf(s, now, {});
    assert t.locks == s.locks && t.req == s.req && t.rejected == s.rejected;
    assert t.inputs == s.inputs && t.votes == s.votes;
  }

  lemma VisitsAll(s: State, now: int, keys: seq<Hash>)
    requires keys == Ascending(s.locks.Keys)
    ensures CleanOf(s, now, Done(keys, 0)) == s
    ensures CleanOf(s, now, Done(keys, |keys|)) == CleanUp(s, now)
  {
    DoneAll(s.locks.Keys);
    CleanOfAll(s, now);
    CleanOfNone(s, now);
  }

  lemma VisitNext(s: State, now: int, keys: seq<Hash>, n: nat)
    requires Inv(s) && keys == Ascending(s.locks.Keys) && n < |keys|
    ensures var t, h := CleanOf(s, now, Done(keys, n)), keys[n];
            && h in t.locks && t.locks[h].txHash == h
            && CleanOf(s, now, Done(keys, n + 1)) == if Expired(t, h, now) then CleanOne(t, h, t.locks[h]) else t
  {
    AscendingEnumerates(s.locks.Keys);
    assert keys[n] in keys && keys[n] !in Done(keys, n);
    assert Done(keys, n + 1) == Done(keys, n) + {keys[n]};
    CleanNext(s, now, Done(keys, n), keys[n]);
    assert LockOk(s.locks[keys[n]], keys[n], s.votes.Keys, s.log);
  }

  class InstantX {
    var mapTxLockReq: map<Hash, Tx>
    var mapTxLockReqRejected: map<Hash, Tx>
    var mapTxLockVote: map<Hash, Vote>
    var mapTxLocks: map<Hash, Lock>
    var mapLockedInputs: map<OutPoint, Hash>
    var mapUnknownVotes: map<Hash, int>
    ghost var log: set<Cast>

    ghost function View(): State
      reads this
    {
      State(mapTxLockReq, mapTxLockReqRejected, mapTxLockVote, mapTxLocks, mapLockedInputs, mapUnknownVotes, log)
    }

    constructor ()
      ensures View() == Start()
    {
      mapTxLockReq, mapTxLockReqRejected, mapTxLockVote, mapTxLocks := map[], map[], map[], map[];
      mapLockedInputs, mapUnknownVotes, log := map[], map[], {};
    }

    static method Count(k: Lock) returns (n: int)
      ensures n == CountSignatures(k)
    {
      if k.height == 0 {
        return -1;
      }
      n := 0;
      var i := 0;
      while i < |k.votes|
        invariant i <= |k.votes|
        invariant n == AtHeight(k.votes[..i], k.height)
      {
        assert k.votes[..i + 1][..i] == k.votes[..i];
        if k.votes[i].height == k.height {
          n := n + 1;
        }
        i := i + 1;
      }
      assert k.votes[..i] == k.votes;
    }

    /** The loops that lock the inputs of a transaction. */
    method LockAll(vin: seq<OutPoint>, h: Hash)
      modifies this`mapLockedInputs
      ensures mapLockedInputs == LockInputs(old(mapLockedInputs), vin, h)
    {
      var i := 0;
      while i < |vin|
        invariant i <= |vin|
        invariant mapLockedInputs == LockInputs(old(mapLockedInputs), vin[..i], h)
      {
        assert vin[..i + 1][..i] == vin[..i];
        if vin[i] !in mapLockedInputs {
          mapLockedInputs := mapLockedInputs[vin[i] := h];
        }
        i := i + 1;
      }
      assert vin[..i] == vin;
    }

    method CheckForConflicts(tx: Tx, now: int) returns (found: bool)
      modifies this`mapTxLocks
      ensures View() == CheckForConflictingLocks(old(View()), tx, now)
      ensures found == InConflict(old(View()), tx)
    {
      var i := FindClash(tx);
      if i == |tx.vin| {
        return false;
      }
      FirstClashIs(mapLockedInputs, tx.vin, tx.hash);
      if tx.hash in mapTxLocks {
        mapTxLocks := mapTxLocks[tx.hash := mapTxLocks[tx.hash].(expiration := now)];
      }
      var other := mapLockedInputs[tx.vin[i]];
      if other in mapTxLocks {
        mapTxLocks := mapTxLocks[other := mapTxLocks[other].(expiration := now)];
      }
      return true;
    }

    method FindClash(tx: Tx) returns (i: nat)
      ensures i == FirstClash(mapLockedInputs, tx.vin, tx.hash)
    {
      i := 0;
      while i < |tx.vin|
        invariant i <= |tx.vin|
        invariant FirstClash(mapLockedInputs, tx.vin, tx.hash) == i + FirstClash(mapLockedInputs, tx.vin[i..], tx.hash)
      {
        if tx.vin[i] in mapLockedInputs {
          if mapLockedInputs[tx.vin[i]] != tx.hash {
            return;
          }
        }
        i := i + 1;
      }
    }

    /** The loop over the ages of the inputs, from the last to the first. */
    static method Age(ages: seq<int>) returns (tooNew: bool, age: int)
      ensures tooNew == TooNew(ages)
      ensures !tooNew ==> age == if ages == [] then 0 else ages[0]
    {
      age := 0;
      var i := |ages|;
      while i > 0
        invariant 0 <= i <= |ages|
        invariant forall j :: i <= j < |ages| ==> ages[j] >= 9
        invariant age == if i == |ages| then 0 else ages[i]
      {
        i := i - 1;
        age := ages[i];
        if age < 9 {
          return true, age;
        }
      }
      tooNew := false;
    }

    method NewLock(tx: Tx, ages: seq<int>, best: int, now: int) returns (height: int)
      modifies this`mapTxLocks
      ensures View() == CreateNewLock(old(View()), tx, ages, best, now)
      ensures height == CreatedHeight(ages, best)
    {
      var tooNew, age := Age(ages);
      if tooNew {
        return 0;
      }
      height := best - age + 4;
      if tx.hash !in mapTxLocks {
        mapTxLocks := mapTxLocks[tx.hash := Lock(height, tx.hash, [], now + 20 * 60, now + 5 * 60)];
      } else {
        mapTxLocks := mapTxLocks[tx.hash := mapTxLocks[tx.hash].(height := height)];
      }
    }

    method OwnVote(tx: Tx, height: int, own: Own)
      modifies this`mapTxLockVote
      ensures View() == DoConsensusVote(old(View()), tx, height, own)
    {
      if own.NoMasternode? {
        return;
      }
      if own.rank == -1 || own.rank > SIGNATURES_TOTAL {
        return;
      }
      var v := Vote(own.vin, tx.hash, height, own.sig);
      if !own.signed {
        return;
      }
      mapTxLockVote := mapTxLockVote[VoteHash(v) := v];
    }

    method OnRequest(m: Request, now: int)
      modifies this
      ensures View() == TxLockRequest(old(View()), m, now)
    {
      var h := m.tx.hash;
      if h in mapTxLockReq || h in mapTxLockReqRejected || !m.valid {
        return;
      }
      var height := NewLock(m.tx, m.ages, m.best, now);
      if m.accepted {
        OwnVote(m.tx, height, m.own);
        mapTxLockReq := mapTxLockReq[h := m.tx];
      } else {
        mapTxLockReqRejected := mapTxLockReqRejected[h := m.tx];
        LockAll(m.tx.vin, h);
        if h in mapTxLocks {
          var n := Count(mapTxLocks[h]);
          if n >= SIGNATURES_REQUIRED {
            var found := CheckForConflicts(m.tx, now);
          }
        }
      }
    }

    /** A complete lock. */
    method OnComplete(h: Hash, now: int)
      modifies this
      ensures View() == Complete(old(View()), h, now)
    {
      if h !in mapTxLockReq {
        mapTxLockReq := mapTxLockReq[h := EmptyTx()];
      }
      var tx := mapTxLockReq[h];
      var found := CheckForConflicts(tx, now);
      if !found {
        LockAll(tx.vin, h);
      }
    }

    method ProcessVote(v: Vote, rank: int, signed: bool, now: int) returns (ok: bool)
      modifies this
      ensures View() == ProcessConsensusVote(old(View()), v, rank, signed, now)
      ensures ok == Acceptable(rank, signed)
    {
      log := log + {Cast(v, rank, signed)};
      if rank == -1 {
        return false;
      }
      if rank > SIGNATURES_TOTAL {
        return false;
      }
      if !signed {
        return false;
      }
      var h := v.txHash;
      if h !in mapTxLocks {
        mapTxLocks := mapTxLocks[h := Lock(0, h, [], now + 20 * 60, now + 5 * 60)];
      }
      mapTxLocks := mapTxLocks[h := mapTxLocks[h].(votes := mapTxLocks[h].votes + [v])];
      assert View() == AddSignature(old(View()).(log := log), v, now);
      var n := Count(mapTxLocks[h]);
      if n >= SIGNATURES_REQUIRED {
        OnComplete(h, now);
      }
      return true;
    }

    /** GetAverageVoteTime: called only when a vote time is stored, so that it never
        divides by zero. */
    method AverageTime() returns (t: int)
      requires mapUnknownVotes.Keys != {}
      ensures t == AverageVoteTime(mapUnknownVotes)
    {
      AscendingEnumerates(mapUnknownVotes.Keys);
      var keys: seq<Hash> := Ascending(mapUnknownVotes.Keys);
      var total, count := 0, 0;
      while count < |keys|
        invariant count <= |keys|
        invariant total == SumOf(mapUnknownVotes, keys[..count])
      {
        assert keys[count] in keys;
        assert keys[..count + 1][..count] == keys[..count];
        total := total + mapUnknownVotes[keys[count]];
        count := count + 1;
      }
      assert keys[..count] == keys;
      t := Quotient(total, count);
    }

    method NoteSender(who: Hash, now: int)
      modifies this`mapUnknownVotes
      ensures mapUnknownVotes == NoteUnknown(old(mapUnknownVotes), who, now)
    {
      if who !in mapUnknownVotes {
        mapUnknownVotes := mapUnknownVotes[who := now + 600];
      }
      if mapUnknownVotes[who] > now {
        var t := AverageTime();
        if mapUnknownVotes[who] - t > 600 {
          return;
        }
      }
      mapUnknownVotes := mapUnknownVotes[who := now + 600];
    }

    method OnVote(v: Vote, rank: int, signed: bool, now: int)
      modifies this
      ensures View() == TxLockVote(old(View()), v, rank, signed, now)
    {
      if VoteHash(v) in mapTxLockVote {
        return;
      }
      mapTxLockVote := mapTxLockVote[VoteHash(v) := v];
      var ok := ProcessVote(v, rank, signed, now);
      if ok && v.txHash !in mapTxLockReq && v.txHash !in mapTxLockReqRejected {
        NoteSender(v.voter.hash, now);
      }
    }

    /** CleanTransactionLocksList. */
    method CleanLocks(synced: bool, now: int)
      requires Inv(View())
      modifies this
      ensures View() == if synced then CleanUp(old(View()), now) else old(View())
    {
      if !synced {
        return;
      }
      ghost var s: State := View();
      var keys: seq<Hash> := Ascending(mapTxLocks.Keys);
      var n: nat := 0;
      VisitsAll(s, now, keys);
      while n < |keys|
        invariant n <= |keys| && View() == CleanOf(s, now, Done(keys, n))
      {
        VisitNext(s, now, keys, n);
        Visit(keys[n], now);
        n := n + 1;
      }
    }

    /** Any one message, or a clean-up once the chain is synchronised. */
    method Receive(op: Op, now: int)
      requires Inv(View())
      modifies this
      ensures View() == Step(old(View()), op, now) && Inv(View())
    {
      StepKeeps(View(), op, now);
      match op
      case OpRequest(m) => OnRequest(m, now);
      case OpVote(v, rank, signed) => OnVote(v, rank, signed, now);
      case OpCleanUp => CleanLocks(true, now);
    }

    method Visit(h: Hash, now: int)
      requires h in mapTxLocks && mapTxLocks[h].txHash == h
      modifies this
      ensures View() == if Expired(old(View()), h, now) then CleanOne(old(View()), h, old(mapTxLocks[h])) else old(View())
    {
      var k := mapTxLocks[h];
      if now > k.expiration {
        if k.txHash in mapTxLockReq {
          var tx := mapTxLockReq[k.txHash];
          UnlockAll(tx.vin);
          mapTxLockReq := mapTxLockReq - {k.txHash};
          mapTxLockReqRejected := mapTxLockReqRejected - {k.txHash};
          Forget(k.votes);
        }
        mapTxLocks := mapTxLocks - {h};
      }
    }

    method UnlockAll(vin: seq<OutPoint>)
      modifies this`mapLockedInputs
      ensures mapLockedInputs == old(mapLockedInputs) - (set o | o in vin)
    {
      var i := 0;
      while i < |vin|
        invariant i <= |vin|
        invariant mapLockedInputs == old(mapLockedInputs) - (set o | o in vin[..i])
      {
        assert vin[..i + 1] == vin[..i] + [vin[i]];
        mapLockedInputs := mapLockedInputs - {vin[i]};
        i := i + 1;
      }
      assert vin[..i] == vin;
    }

    method Forget(votes: seq<Vote>)
      modifies this`mapTxLockVote
      ensures mapTxLockVote == old(mapTxLockVote) - VoteHashes(votes)
    {
      var i := 0;
      while i < |votes|
        invariant i <= |votes|
        invariant mapTxLockVote == old(mapTxLockVote) - VoteHashes(votes[..i])
      {
        ForgetNext(votes, i);
        mapTxLockVote := mapTxLockVote - {VoteHash(votes[i])};
        i := i + 1;
      }
      assert votes[..i] == votes;
    }
  }

  lemma ForgetNext(votes: seq<Vote>, i: nat)
    requires i < |votes|
    ensures VoteHashes(votes[..i + 1]) == VoteHashes(votes[..i]) + {VoteHash(votes[i])}
  {
    var a, b := votes[..i + 1], votes[..i];
    forall k | k in VoteHashes(a) ensures k in VoteHashes(b) + {VoteHash(votes[i])} {
      var j :| 0 <= j < |a| && VoteHash(a[j]) == k;
      if j < i {
        assert b[j] == a[j];
      }
    }
    forall k | k in VoteHashes(b) + {VoteHash(votes[i])} ensures k in VoteHashes(a) {
      if k == VoteHash(votes[i]) {
        assert a[i] == votes[i];
      } else {
        var j :| 0 <= j < |b| && VoteHash(b[j]) == k;
        assert a[j] == b[j];
      }
    }
  }
}
