/** What each message and timer call of the mixing pool does, in terms of its fields and of
    the pool before and after. */
module DarksendOutcomes {
  import opened Common
  import opened DarksendModel
  import opened DarksendRuns
  import opened DarksendSpends

  /** The denominations are 1000, 100, 10, 1 and a tenth of a coin, each with a thousandth of
      a percent on top. */
  lemma DenominationsAre(v: int)
    ensures IsDenomination(v) <==> v in {100001000000, 10000100000, 1000010000, 100001000, 10000100}
  {
    assert DENOMINATIONS[0] == 100001000000 && DENOMINATIONS[1] == 10000100000 && DENOMINATIONS[2] == 1000010000;
    assert DENOMINATIONS[3] == 100001000 && DENOMINATIONS[4] == 10000100;
  }

  // --- joining ------------------------------------------------------------------------------

  /** A user may join: an empty session takes any denomination; one that is being filled takes
      its own, up to three users. */
  predicate MayJoin(p: Pool, m: Accept) {
    && m.denom != 0 && m.valid
    && (p.users == 0 || ((p.status == Accepting || p.status == Queue) && p.users < 3 && m.denom == p.denom))
  }

  /** A "dsa" message lets a user join exactly if this masternode is listed, has not just
      announced a session when it is to open one, and the user may join. */
  lemma AcceptsExactly(p: Pool, m: Accept, t: Clock)
    requires Inv(p)
    ensures var q := OnAccept(p, m, t);
            if m.listed && !(p.users == 0 && m.recent) && MayJoin(p, m) then
              && q.users == p.users + 1 && q.collaterals == p.collaterals + [m.collateral] && q.denom == m.denom
              && q.entries == p.entries && q.finalIns == p.finalIns && q.finalOuts == p.finalOuts && q.changed == t.ms
              && (if p.users == 0 then q.status == Queue && q.sessionID == m.id else q.status == p.status && q.sessionID == p.sessionID)
            else q == p
  {
  }

  // --- entries --------------------------------------------------------------------------------

  /** The message gets as far as the checks of the entry. */
  ghost predicate Considered(p: Pool, m: Submit) {
    && p.users >= 3 && Denominations(m.vout) != 0 && m.txOk
    && forall i :: 0 <= i < |p.entries| ==> Denominations(p.entries[i].vout) == Denominations(m.vout)
  }

  /** No input of an entry is one of those offered. */
  ghost predicate NoneHeld(entries: seq<Entry>, vin: seq<TxIn>) {
    forall i, j, k :: Place(entries, i, j) && 0 <= k < |vin| ==>
      var a, b := entries[i].sev[j].txin, vin[k];
      !(a.prevout == b.prevout && a.scriptSig == b.scriptSig && a.seqNo == b.seqNo)
  }

  ghost predicate NoneNull(vin: seq<TxIn>) {
    forall k :: 0 <= k < |vin| ==> !(vin[k].prevout.hash == 0 && vin[k].prevout.n == 0xFFFF_FFFF)
  }

  /** The entry passes its checks. */
  ghost predicate Passes(p: Pool, m: Submit) {
    m.valid && |p.entries| < 3 && (m.vin != [] ==> m.amount >= 0) && NoneNull(m.vin) && NoneHeld(p.entries, m.vin)
  }

  lemma HeldIs(entries: seq<Entry>, vin: seq<TxIn>)
    ensures NoneHeld(entries, vin) <==> !AlreadyHave(entries, vin)
  {
    if AlreadyHave(entries, vin) {
      var k :| 0 <= k < |vin| && Holds(entries, vin[k]);
      var i, j :| 0 <= i < |entries| && 0 <= j < |entries[i].sev| && SameIn(entries[i].sev[j].txin, vin[k]);
      assert Place(entries, i, j);
    } else {
      forall i, j, k | Place(entries, i, j) && 0 <= k < |vin| ensures !SameIn(entries[i].sev[j].txin, vin[k]) {
        assert !Holds(entries, vin[k]);
      }
    }
  }

  lemma BadIs(m: Submit)
    ensures BadInput(m) <==> !NoneNull(m.vin) || (m.vin != [] && m.amount < 0)
  {
    if m.vin != [] && m.amount < 0 {
      assert IsNull(m.vin[0].prevout) || m.amount < 0;
    }
    if !NoneNull(m.vin) {
      var k :| 0 <= k < |m.vin| && m.vin[k].prevout.hash == 0 && m.vin[k].prevout.n == 0xFFFF_FFFF;
      assert IsNull(m.vin[k].prevout);
    }
  }

  lemma PassesIs(p: Pool, m: Submit)
    ensures Passes(p, m) <==> !(BadInput(m) || !m.valid || |p.entries| >= POOL_MAX || AlreadyHave(p.entries, m.vin))
  {
    HeldIs(p.entries, m.vin);
    BadIs(m);
  }

  /** The entry of a message: its inputs unsigned, and the time. */
  ghost predicate EntryFrom(e: Entry, m: Submit, t: Clock) {
    && |e.sev| == |m.vin| && (forall k :: 0 <= k < |m.vin| ==> e.sev[k] == DsIn(m.vin[k], false))
    && e.vout == m.vout && e.amount == m.amount && e.collateral == m.collateral && e.addedTime == t.sec
  }

  /** A "dsi" message that does not get to the checks changes nothing; one refused by them
      costs the session one user. */
  lemma RefusedExactly(p: Pool, m: Submit, o: Outcome, t: Clock)
    ensures !Considered(p, m) ==> OnSubmit(p, m, o, t) == p
    ensures Considered(p, m) && !Passes(p, m) ==> OnSubmit(p, m, o, t) == p.(users := p.users - 1)
  {
    PassesIs(p, m);
  }

  /** One that passes them joins, and the pool is checked: with inputs to sign, the entry
      stays, and starts the final transaction if it fills an accepting pool. */
  lemma TakenExactly(p: Pool, m: Submit, o: Outcome, t: Clock) returns (e: Entry)
    requires Inv(p) && Considered(p, m) && Passes(p, m)
    ensures EntryFrom(e, m, t) && OnSubmit(p, m, o, t) == Check(p.(entries := p.entries + [e]), o, t)
    ensures m.vin != [] ==> var q := OnSubmit(p, m, o, t);
              && q.entries == p.entries + [e] && q.users == p.users && q.collaterals == p.collaterals && q.denom == p.denom
              && q.status == if p.status == Accepting && |p.entries| == 2 then Signing else p.status
  {
    PassesIs(p, m);
    e := NewEntry(m, t);
    var r := p.(entries := p.entries + [e]);
    AddEntryKeeps(p, m, t);
    if m.vin != [] {
      assert r.entries[|p.entries|] == e && !e.sev[0].hasSig;
      assert !SignaturesComplete(r.entries);
    }
  }

  // --- the final transaction -------------------------------------------------------------------

  /** Check does nothing unless an accepting pool is full or a signing one is all signed. */
  lemma NothingToCheck(p: Pool, o: Outcome, t: Clock)
    requires Inv(p)
    requires !(p.status == Accepting && |p.entries| == 3)
    requires !(p.status == Signing && forall i, j :: Place(p.entries, i, j) ==> p.entries[i].sev[j].hasSig)
    ensures Check(p, o, t) == p
  {
    if SignaturesComplete(p.entries) {
      forall i, j | Place(p.entries, i, j) ensures p.entries[i].sev[j].hasSig {
      }
    }
  }

  /** A pool that is all signed, and full or signing, hands the transaction over: accepted and
      announced it starts afresh, accepted only it stays, and turned down it takes entries
      again with nothing left. */
  lemma AllSignedHandsOver(p: Pool, o: Outcome, t: Clock)
    requires Inv(p) && ((p.status == Accepting && |p.entries| == 3) || p.status == Signing)
    requires forall i, j :: Place(p.entries, i, j) ==> p.entries[i].sev[j].hasSig
    ensures var q := Check(p, o, t);
            if !o.accepted then q == Pool(Accepting, [], [], [], 0, 0, 0, [], t.ms)
            else if o.signed then q == Pool(Idle, [], [], [], 0, 0, 0, [], t.ms)
            else q.status == Transmission && q.entries == p.entries && q.users == p.users && q.collaterals == p.collaterals
  {
    forall i, j | 0 <= i < |p.entries| && 0 <= j < |p.entries[i].sev| ensures p.entries[i].sev[j].hasSig {
      assert Place(p.entries, i, j);
    }
  }

  /** A full pool with an input to sign makes the final transaction and signs. */
  lemma FullSigns(p: Pool, o: Outcome, t: Clock, i: int, j: int)
    requires Inv(p) && p.status == Accepting && |p.entries| == 3 && Place(p.entries, i, j) && !p.entries[i].sev[j].hasSig
    ensures var q := Check(p, o, t);
            && q.status == Signing && q.changed == t.ms && q.entries == p.entries && q.users == p.users
            && Merges(q) && Carried(q)
  {
    assert !SignaturesComplete(p.entries);
    var s := UpdateState(UpdateState(p, Finalize, t), Signing, t);
    FinalizeMerges(s, o);
    FinalizeCarries(s, o);
  }

  // --- signatures -----------------------------------------------------------------------------

  /** Entry i takes the signature: its first input with the key is not signed yet. */
  ghost predicate Takes(entries: seq<Entry>, a: TxIn, i: int, j: int) {
    && Place(entries, i, j) && KeyOf(entries[i].sev[j].txin) == KeyOf(a) && !entries[i].sev[j].hasSig
    && forall x :: 0 <= x < j ==> KeyOf(entries[i].sev[x].txin) != KeyOf(a)
  }

  /** The input with the script and the public key of `a`. */
  function Scripted(b: TxIn, a: TxIn): TxIn { TxIn(b.prevout, a.scriptSig, b.seqNo, a.prevPubKey) }

  lemma TakesIs(entries: seq<Entry>, a: TxIn, i: nat)
    requires i < |entries|
    ensures CanSign(entries[i], a) <==> exists j :: Takes(entries, a, i, j)
  {
    var f := FirstIn(entries[i].sev, KeyOf(a));
    FirstInIs(entries[i].sev, KeyOf(a));
    if CanSign(entries[i], a) {
      assert Takes(entries, a, i, f);
    }
    if j :| Takes(entries, a, i, j) {
      FirstInStops(entries[i].sev, KeyOf(a), j);
    }
  }

  /** A signature with a script that no entry holds goes into every input of the final
      transaction with its key; it is taken exactly if some entry takes it, and then by the
      first, which marks the input signed. */
  lemma SignatureTaken(p: Pool, a: TxIn, verifies: bool) returns (i: nat, j: nat)
    requires forall x, y :: Place(p.entries, x, y) ==> p.entries[x].sev[y].txin.scriptSig != a.scriptSig
    ensures var (q, ok) := AddScriptSig(p, a, verifies);
            && |q.finalIns| == |p.finalIns|
            && (forall k :: 0 <= k < |p.finalIns| ==>
                  q.finalIns[k] == (if KeyOf(p.finalIns[k]) == KeyOf(a) then Scripted(p.finalIns[k], a) else p.finalIns[k]))
            && q == p.(finalIns := q.finalIns, entries := q.entries)
            && (ok <==> exists x, y :: Takes(p.entries, a, x, y))
            && (!ok ==> q.entries == p.entries)
            && (ok ==> Takes(p.entries, a, i, j) && (forall x, y :: 0 <= x < i ==> !Takes(p.entries, a, x, y))
                       && q.entries == p.entries[i := p.entries[i].(sev := p.entries[i].sev[j :=
                            DsIn(Scripted(p.entries[i].sev[j].txin, a), true)])])
  {
    forall x, y | 0 <= x < |p.entries| && 0 <= y < |p.entries[x].sev| ensures p.entries[x].sev[y].txin.scriptSig != a.scriptSig {
      assert Place(p.entries, x, y);
    }
    NoScript(p, a, verifies);
    i, j := FirstEntry(p.entries, a), 0;
    FirstEntryIs(p.entries, a);
    forall x | 0 <= x < |p.entries| ensures CanSign(p.entries[x], a) <==> exists y :: Takes(p.entries, a, x, y) {
      TakesIs(p.entries, a, x);
    }
    if i < |p.entries| {
      j := SignerHas(p.entries, a, i);
      FirstInIs(p.entries[i].sev, KeyOf(a));
      assert Takes(p.entries, a, i, j);
    }
  }

  /** A script that an entry holds already is refused. */
  lemma KnownScriptRefused(p: Pool, a: TxIn, verifies: bool, i: int, j: int)
    requires Place(p.entries, i, j) && p.entries[i].sev[j].txin.scriptSig == a.scriptSig
    ensures AddScriptSig(p, a, verifies) == (p, false)
  {
  }

  // --- timers ------------------------------------------------------------------------------------

  /** A session that goes on loses exactly the entries older than 30 seconds, and those only
      before the final transaction is made. */
  lemma TimerDropsOld(p: Pool, t: Clock, e: Entry)
    requires Inv(p) && !Stale(p, t)
    ensures var q := CheckTimeout(p, t);
            && q == p.(entries := q.entries)
            && (e in q.entries <==> e in p.entries && (p.status == Accepting || p.status == Queue ==> t.sec - e.addedTime <= 30))
  {
    UnexpiredFrom(p.entries, t);
    if p.entries != [] && (p.status == Accepting || p.status == Queue) {
      var x :| x in p.entries && t.sec - x.addedTime <= 30;
      assert x in Unexpired(p.entries, t);
    }
  }

  /** The queue of a session opens for entries exactly when it has three users. */
  lemma QueueOpens(p: Pool, t: Clock)
    ensures CheckForCompleteQueue(p, t) == if p.status == Queue && p.users == 3 then p.(status := Accepting, changed := t.ms) else p
  {
  }
}
