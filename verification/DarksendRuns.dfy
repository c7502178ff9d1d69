/** What every run of the pool on a masternode keeps. */
module DarksendRuns {
  import opened Common
  import opened DarksendModel

  // --- denominations ---------------------------------------------------------------

  function Values(vout: seq<TxOut>): set<int> {
    set i | 0 <= i < |vout| :: vout[i].value
  }

  lemma UsedIsValue(vout: seq<TxOut>, c: nat)
    requires c < |DENOMINATIONS|
    ensures Used(vout, c) <==> DENOMINATIONS[c] in Values(vout)
  {
    if DENOMINATIONS[c] in Values(vout) {
      var i :| 0 <= i < |vout| && vout[i].value == DENOMINATIONS[c];
    }
  }

  /** The mask is not 0 exactly for outputs that are all denominations, at least one. */
  lemma DenominationsNonZero(vout: seq<TxOut>)
    ensures Denominations(vout) != 0 <==> vout != [] && forall i :: 0 <= i < |vout| ==> IsDenomination(vout[i].value)
  {
    if vout != [] && forall i :: 0 <= i < |vout| ==> IsDenomination(vout[i].value) {
      assert IsDenomination(vout[0].value);
      var c :| 0 <= c < |DENOMINATIONS| && DENOMINATIONS[c] == vout[0].value;
      assert Used(vout, c);
    }
  }

  /** Lists of denominations have the same mask exactly if they use the same ones. */
  lemma SameMaskSameValues(a: seq<TxOut>, b: seq<TxOut>)
    requires Denominations(a) != 0 && Denominations(b) != 0
    ensures Denominations(a) == Denominations(b) <==> Values(a) == Values(b)
  {
    DenominationsNonZero(a);
    DenominationsNonZero(b);
    forall c | 0 <= c < |DENOMINATIONS| ensures (Used(a, c) <==> DENOMINATIONS[c] in Values(a)) && (Used(b, c) <==> DENOMINATIONS[c] in Values(b)) {
      UsedIsValue(a, c);
      UsedIsValue(b, c);
    }
    if Denominations(a) == Denominations(b) {
      forall v | v in Values(a) ensures v in Values(b) {
        ValueFound(a, v);
      }
      forall v | v in Values(b) ensures v in Values(a) {
        ValueFound(b, v);
      }
    }
  }

  lemma ValueFound(a: seq<TxOut>, v: int)
    requires Denominations(a) != 0 && v in Values(a)
    ensures exists c :: 0 <= c < |DENOMINATIONS| && DENOMINATIONS[c] == v
  {
    var i :| 0 <= i < |a| && a[i].value == v;
    DenominationsNonZero(a);
  }

  // --- shuffles -----------------------------------------------------------------------

  lemma SwapPermutes<T>(s: seq<T>, i: nat, j: nat)
    requires i < |s| && j < |s|
    ensures multiset(Swapped(s, i, j)) == multiset(s)
  {
  }

  lemma {:induction false} ShufflePermutes<T>(s: seq<T>, picks: seq<nat>, n: nat)
    requires n <= |s|
    ensures multiset(Shuffled(s, picks, n)) == multiset(s)
  {
    if n > 1 {
      ShufflePermutes(s, picks, n - 1);
      SwapPermutes(Shuffled(s, picks, n - 1), n - 1, Pick(picks, n - 1));
    }
  }

  function Keys(ins: seq<TxIn>): (r: seq<Key>)
    ensures |r| == |ins|
  {
    seq(|ins|, i requires 0 <= i < |ins| => KeyOf(ins[i]))
  }

  lemma {:induction false} KeysShuffle(s: seq<TxIn>, picks: seq<nat>, n: nat)
    requires n <= |s|
    ensures Keys(Shuffled(s, picks, n)) == Shuffled(Keys(s), picks, n)
  {
    if n > 1 {
      KeysShuffle(s, picks, n - 1);
    }
  }

  // --- the invariant ----------------------------------------------------------------

  ghost predicate OneMask(entries: seq<Entry>) {
    forall i, j :: 0 <= i < |entries| && 0 <= j < |entries| ==>
      Denominations(entries[i].vout) != 0 && Denominations(entries[i].vout) == Denominations(entries[j].vout)
  }

  /** The final transaction merges the entries: their outputs in some order, and their
      inputs, but for the signatures, in some order. */
  ghost predicate Merges(p: Pool) {
    && multiset(p.finalOuts) == multiset(MergedOuts(p.entries))
    && multiset(Keys(p.finalIns)) == multiset(Keys(MergedIns(p.entries)))
  }

  ghost predicate Counts(p: Pool) {
    && |p.entries| <= POOL_MAX
    && 0 <= p.users <= POOL_MAX && p.users <= |p.collaterals|
    && (p.users == 0 ==> p.entries == [] && p.collaterals == [])
  }

  ghost predicate Stage(p: Pool) {
    match p.status
    case Idle => p.users == 0
    case Queue => p.users > 0
    case Accepting => true
    case Signing => |p.entries| == POOL_MAX && Merges(p)
    case Transmission => |p.entries| == POOL_MAX && Merges(p) && SignaturesComplete(p.entries)
    case _ => false
  }

  ghost predicate Inv(p: Pool) {
    match p
    case Pool(_, entries, _, _, _, _, _, _, _) => Counts(p) && OneMask(entries) && Stage(p)
  }

  lemma StartOk(t: Clock, p: Pool)
    ensures Inv(SetNull(p, t))
  {
  }

  lemma JoinKeeps(p: Pool, m: Accept, t: Clock)
    requires Inv(p)
    ensures Inv(JoinSession(p, m, t).0)
  {
  }

  /** Who joins asks for the denomination of the session, pays one collateral and takes one
      place; who does not changes nothing. */
  lemma JoinOutcome(p: Pool, m: Accept, t: Clock)
    requires Inv(p)
    ensures var (q, joined) := JoinSession(p, m, t);
            && (joined ==> q.denom == m.denom != 0 && q.users == p.users + 1
                           && q.collaterals == p.collaterals + [m.collateral] && q.entries == p.entries
                           && (q.status == Queue || q.status == Accepting)
                           && (p.users > 0 ==> q.denom == p.denom && q.sessionID == p.sessionID && q.status == p.status))
            && (!joined ==> q == p)
  {
  }

  lemma AddEntryKeeps(p: Pool, m: Submit, t: Clock)
    requires Inv(p) && p.users >= POOL_MAX && IsCompatibleWithEntries(p.entries, m.vout)
    ensures Inv(AddEntry(p, m, t).0)
    ensures AddEntry(p, m, t).1 ==> p.status == Queue || p.status == Accepting
  {
  }

  // --- signatures ---------------------------------------------------------------------

  lemma {:induction false} FirstInIs(sev: seq<DsIn>, k: Key)
    ensures var i := FirstIn(sev, k);
            (i < |sev| ==> KeyOf(sev[i].txin) == k) && forall j :: 0 <= j < i ==> KeyOf(sev[j].txin) != k
  {
    if sev != [] && KeyOf(sev[0].txin) != k {
      FirstInIs(sev[1..], k);
      var i := FirstIn(sev, k);
      forall j | 0 <= j < i ensures KeyOf(sev[j].txin) != k {
        if j > 0 {
          assert sev[j] == sev[1..][j - 1];
        }
      }
    }
  }

  lemma {:induction false} FirstEntryIs(entries: seq<Entry>, a: TxIn)
    ensures var i := FirstEntry(entries, a);
            (i < |entries| ==> CanSign(entries[i], a)) && forall j :: 0 <= j < i ==> !CanSign(entries[j], a)
  {
    if entries != [] && !CanSign(entries[0], a) {
      FirstEntryIs(entries[1..], a);
      var i := FirstEntry(entries, a);
      forall j | 0 <= j < i ensures !CanSign(entries[j], a) {
        if j > 0 {
          assert entries[j] == entries[1..][j - 1];
        }
      }
    }
  }

  /** Entries that differ only in scripts and in more inputs marked signed. */
  ghost predicate SameEntry(a: Entry, b: Entry) {
    && a.vout == b.vout && |a.sev| == |b.sev|
    && (forall j :: 0 <= j < |a.sev| ==> KeyOf(a.sev[j].txin) == KeyOf(b.sev[j].txin) && (a.sev[j].hasSig ==> b.sev[j].hasSig))
  }

  ghost predicate SameEntries(a: seq<Entry>, b: seq<Entry>) {
    |a| == |b| && forall i :: 0 <= i < |a| ==> SameEntry(a[i], b[i])
  }

  lemma {:induction false} MergedSame(a: seq<Entry>, b: seq<Entry>)
    requires SameEntries(a, b)
    ensures Keys(MergedIns(a)) == Keys(MergedIns(b)) && MergedOuts(a) == MergedOuts(b)
  {
    if a != [] {
      var n := |a| - 1;
      MergedSame(a[..n], b[..n]);
      assert SameEntry(a[n], b[n]);
      assert Keys(InsOf(a[n])) == Keys(InsOf(b[n]));
      assert Keys(MergedIns(a)) == Keys(MergedIns(a[..n])) + Keys(InsOf(a[n]));
      assert Keys(MergedIns(b)) == Keys(MergedIns(b[..n])) + Keys(InsOf(b[n]));
    }
  }

  lemma AddSigSame(e: Entry, a: TxIn)
    ensures SameEntry(e, AddSig(e, a))
  {
    FirstInIs(e.sev, KeyOf(a));
  }

  /** What signatures change: scripts, and marks on inputs. */
  ghost predicate SignedMore(p: Pool, q: Pool) {
    && SameEntries(p.entries, q.entries)
    && Keys(p.finalIns) == Keys(q.finalIns) && p.finalOuts == q.finalOuts
    && p.status == q.status && p.users == q.users && p.collaterals == q.collaterals && p.changed == q.changed
  }

  lemma AddScriptSigSigns(p: Pool, a: TxIn, verifies: bool)
    ensures SignedMore(p, AddScriptSig(p, a, verifies).0)
  {
    var i := FirstEntry(p.entries, a);
    if i < |p.entries| {
      AddSigSame(p.entries[i], a);
    }
    assert Keys(SignFinal(p.finalIns, a)) == Keys(p.finalIns);
  }

  lemma SignedMoreOn(p: Pool, q: Pool, r: Pool)
    requires SignedMore(p, q) && SignedMore(q, r)
    ensures SignedMore(p, r)
  {
    forall i | 0 <= i < |p.entries| ensures SameEntry(p.entries[i], r.entries[i]) {
      assert SameEntry(p.entries[i], q.entries[i]) && SameEntry(q.entries[i], r.entries[i]);
    }
  }

  lemma {:induction false} AddSigsSigns(p: Pool, sigs: seq<Sig>)
    ensures SignedMore(p, AddSigs(p, sigs).0)
  {
    if sigs != [] {
      var n := |sigs| - 1;
      AddSigsSigns(p, sigs[..n]);
      var q := AddSigs(p, sigs[..n]).0;
      AddScriptSigSigns(q, sigs[n].txin, sigs[n].verifies);
      SignedMoreOn(p, q, AddSigs(p, sigs).0);
    }
  }

  lemma SignedMoreKeeps(p: Pool, q: Pool)
    requires Inv(p) && SignedMore(p, q)
    ensures Inv(q)
  {
    MergedSame(p.entries, q.entries);
    forall i | 0 <= i < |p.entries| ensures p.entries[i].vout == q.entries[i].vout {
      assert SameEntry(p.entries[i], q.entries[i]);
    }
    if p.status == Transmission {
      forall i, j | 0 <= i < |q.entries| && 0 <= j < |q.entries[i].sev| ensures q.entries[i].sev[j].hasSig {
        assert SameEntry(p.entries[i], q.entries[i]);
      }
    }
  }

  // --- the final transaction ------------------------------------------------------------

  lemma FinalizeMerges(p: Pool, o: Outcome)
    ensures Merges(FinalizeTransaction(p, o))
  {
    var ins, outs := MergedIns(p.entries), MergedOuts(p.entries);
    ShufflePermutes(outs, o.outs, |outs|);
    KeysShuffle(ins, o.ins, |ins|);
    ShufflePermutes(Keys(ins), o.ins, |ins|);
  }

  lemma FinalizeKeeps(p: Pool, o: Outcome, t: Clock)
    requires Inv(p) && p.status == Accepting && |p.entries| >= POOL_MAX
    ensures Inv(FinalizeTransaction(UpdateState(UpdateState(p, Finalize, t), Signing, t), o))
  {
    FinalizeMerges(UpdateState(UpdateState(p, Finalize, t), Signing, t), o);
  }

  lemma CompleteKeeps(p: Pool, t: Clock)
    requires Inv(p) && p.status == Signing && SignaturesComplete(p.entries)
    ensures Inv(UpdateState(p, Transmission, t))
  {
  }

  lemma AdvanceKeeps(p: Pool, o: Outcome, t: Clock)
    requires Inv(p)
    ensures Inv(Advance(p, o, t))
  {
    var p2 := p;
    if p.status == Accepting && |p.entries| >= POOL_MAX {
      FinalizeKeeps(p, o, t);
      p2 := FinalizeTransaction(UpdateState(UpdateState(p, Finalize, t), Signing, t), o);
    }
    if p2.status == Signing && SignaturesComplete(p2.entries) {
      CompleteKeeps(p2, t);
    }
  }

  lemma CheckKeeps(p: Pool, o: Outcome, t: Clock)
    requires Inv(p)
    ensures Inv(Check(p, o, t))
  {
    AdvanceKeeps(p, o, t);
  }

  /** Whenever the final transaction is handed over, it merges a full pool and every input
      of every entry is marked signed. */
  lemma HandedOverIsComplete(p: Pool, o: Outcome, t: Clock)
    requires Inv(p) && HandsOver(p, o, t)
    ensures var q := Advance(p, o, t);
            |q.entries| == POOL_MAX && Merges(q) && SignaturesComplete(q.entries) && OneMask(q.entries)
  {
    AdvanceKeeps(p, o, t);
  }

  // --- timers ------------------------------------------------------------------------------

  lemma {:induction false} UnexpiredFrom(entries: seq<Entry>, t: Clock)
    ensures |Unexpired(entries, t)| <= |entries|
    ensures forall e :: e in Unexpired(entries, t) <==> e in entries && !EntryExpired(e, t)
  {
    if entries != [] {
      UnexpiredFrom(entries[..|entries| - 1], t);
    }
  }

  lemma ExpireKeeps(p: Pool, t: Clock)
    requires Inv(p) && (p.status == Accepting || p.status == Queue)
    ensures Inv(ExpireEntries(p, t))
  {
    UnexpiredFrom(p.entries, t);
    var rest := Unexpired(p.entries, t);
    forall i | 0 <= i < |rest| ensures rest[i] in p.entries {
      assert rest[i] in rest;
    }
  }

  lemma TimeoutKeeps(p: Pool, t: Clock)
    requires Inv(p)
    ensures Inv(CheckTimeout(p, t))
  {
    if p.status == Accepting || p.status == Queue {
      ExpireKeeps(p, t);
    }
  }

  // --- runs --------------------------------------------------------------------------------

  lemma StepKeeps(p: Pool, op: Op, t: Clock)
    requires Inv(p)
    ensures Inv(Step(p, op, t))
  {
    match op
    case OpAccept(a) => JoinKeeps(p, a, t);
    case OpSubmit(m, o) =>
      if p.users >= POOL_MAX && IsCompatibleWithEntries(p.entries, m.vout) {
        AddEntryKeeps(p, m, t);
        CheckKeeps(AddEntry(p, m, t).0, o, t);
      }
    case OpSign(sigs, o) =>
      AddSigsSigns(p, sigs);
      SignedMoreKeeps(p, AddSigs(p, sigs).0);
      CheckKeeps(AddSigs(p, sigs).0, o, t);
    case OpTimeout => TimeoutKeeps(p, t);
    case OpQueue =>
  }

  datatype Timed = Timed(op: Op, t: Clock)

  function Run(p: Pool, ops: seq<Timed>): Pool {
    if ops == [] then p else Step(Run(p, ops[..|ops| - 1]), ops[|ops| - 1].op, ops[|ops| - 1].t)
  }

  lemma {:induction false} RunKeeps(p: Pool, ops: seq<Timed>)
    requires Inv(p)
    ensures Inv(Run(p, ops))
  {
    if ops != [] {
      RunKeeps(p, ops[..|ops| - 1]);
      StepKeeps(Run(p, ops[..|ops| - 1]), ops[|ops| - 1].op, ops[|ops| - 1].t);
    }
  }

  /** In every reachable state of the pool. */
  lemma EveryRunIsSafe(p0: Pool, t0: Clock, ops: seq<Timed>)
    ensures var p := Run(SetNull(p0, t0), ops);
            && |p.entries| <= POOL_MAX && 0 <= p.users <= POOL_MAX && p.users <= |p.collaterals|
            && OneMask(p.entries)
            && (p.status == Signing || p.status == Transmission ==> |p.entries| == POOL_MAX && Merges(p))
            && (p.status == Transmission ==> SignaturesComplete(p.entries))
            && p.status != Error && p.status != Success && p.status != Finalize
  {
    StartOk(t0, p0);
    RunKeeps(SetNull(p0, t0), ops);
  }

  // --- where the pool departs from its intent ---------------------------------------------

  /** SignatureValid compares inputs with their scripts.  An input that holds the script
      already ends AddScriptSig before, so the script check never decides anything. */
  lemma ScriptCheckIdle(p: Pool, a: TxIn)
    ensures AddScriptSig(p, a, true) == AddScriptSig(p, a, false)
  {
    if Holds(p.entries, a) {
      var i, j :| 0 <= i < |p.entries| && 0 <= j < |p.entries[i].sev| && SameIn(p.entries[i].sev[j].txin, a);
      assert p.entries[i].sev[j].txin.scriptSig == a.scriptSig;
    }
  }

  /** The "dsi" message is taken into the pool. */
  predicate Taken(p: Pool, m: Submit, t: Clock) {
    p.users >= POOL_MAX && IsCompatibleWithEntries(p.entries, m.vout) && m.txOk && AddEntry(p, m, t).1
  }

  predicate AllMatch(p: Pool) {
    forall i :: 0 <= i < |p.entries| ==> Denominations(p.entries[i].vout) == p.denom
  }

  /** An entry is compared with the other entries, not with the session: the pool agrees
      with the denomination of its session exactly if the new entry does. */
  lemma MatchesSession(p: Pool, m: Submit, t: Clock)
    requires Taken(p, m, t)
    ensures AllMatch(AddEntry(p, m, t).0) <==> Denominations(m.vout) == p.denom
  {
    var q := AddEntry(p, m, t).0;
    assert q.entries[|p.entries|] == NewEntry(m, t);
  }

  /** A reachable pool whose session asks for denomination mask 1 and that takes an entry
      with mask 8. */
  lemma MismatchHappens(t: Clock)
    ensures var v := TxOut(COIN + 1000, "");
            var m := Submit([TxIn(OutPoint(5, 0), "", 0, "")], COIN + 1000, 7, [v], true, true);
            var a := OpAccept(Accept(1, 7, true, false, true, 42));
            var p := Run(SetNull(Pool(Idle, [], [], [], 0, 0, 0, [], 0), t), [Timed(a, t), Timed(a, t), Timed(a, t)]);
            p.denom == 1 && Taken(p, m, t) && !AllMatch(AddEntry(p, m, t).0)
  {
    var v := TxOut(COIN + 1000, "");
    var m := Submit([TxIn(OutPoint(5, 0), "", 0, "")], COIN + 1000, 7, [v], true, true);
    assert IsDenomination(v.value) by {
      assert DENOMINATIONS[3] == v.value;
    }
    assert Used([v], 3) by {
      assert [v][0].value == DENOMINATIONS[3];
    }
    assert Denominations([v]) == 8;
    var a := OpAccept(Accept(1, 7, true, false, true, 42));
    var p0 := SetNull(Pool(Idle, [], [], [], 0, 0, 0, [], 0), t);
    var ops := [Timed(a, t), Timed(a, t), Timed(a, t)];
    assert ops[..2][..1] == [Timed(a, t)] && ops[..1][..0] == [];
    assert Run(p0, ops[..1]) == Step(p0, a, t) && Run(p0, ops[..2]) == Step(Step(p0, a, t), a, t);
    var p := Run(p0, ops);
    assert p.users == 3 && p.entries == [] && p.denom == 1;
    MatchesSession(p, m, t);
  }

  /** Full and not yet finalised. */
  predicate Waits(p: Pool) {
    (p.status == Queue || p.status == Accepting) && |p.entries| == POOL_MAX
  }

  /** The entry that fills the pool starts the final transaction, unless the session is
      still in the queue stage: then the full pool goes on waiting. */
  lemma FilledPoolWaits(p: Pool, m: Submit, o: Outcome, t: Clock)
    requires Inv(p) && Taken(p, m, t) && |p.entries| == POOL_MAX - 1
    ensures Waits(OnSubmit(p, m, o, t)) <==> p.status == Queue
  {
    AddEntryKeeps(p, m, t);
  }

  /** A waiting pool waits through every message but a signature that is taken. */
  lemma WaitingGoesOn(p: Pool, op: Op, t: Clock)
    requires Inv(p) && Waits(p) && !op.OpTimeout?
    requires op.OpSign? ==> !AddSigs(p, op.sigs).1
    ensures Waits(Step(p, op, t))
  {
    if op.OpSign? {
      AddSigsSigns(p, op.sigs);
    }
  }

  /** 30 seconds in a stage, 15 while signing, or only entries older than 30 seconds. */
  predicate Stale(p: Pool, t: Clock) {
    || t.ms - p.changed >= 30000
    || (p.status == Signing && t.ms - p.changed >= 15000)
    || ((p.status == Accepting || p.status == Queue) && p.entries != []
        && forall e :: e in p.entries ==> t.sec - e.addedTime > 30)
  }

  /** The timer ends a session exactly if its stage has lasted too long or all its entries
      are too old. */
  lemma TimeoutEndsStale(p: Pool, t: Clock)
    requires Inv(p) && p.users > 0
    ensures CheckTimeout(p, t).users == 0 <==> Stale(p, t)
    ensures Stale(p, t) ==> CheckTimeout(p, t) == SetNull(p, t)
  {
    UnexpiredFrom(p.entries, t);
    var rest := Unexpired(p.entries, t);
    if rest != [] {
      assert rest[0] in rest;
    }
  }
}
