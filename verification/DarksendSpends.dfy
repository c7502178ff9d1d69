/** What the final transaction spends, and whose scripts it carries. */
module DarksendSpends {
  import opened Common
  import opened DarksendModel
  import opened DarksendRuns

  // --- each output spent once -----------------------------------------------------------------

  /** No two of the inputs spend the same output. */
  ghost predicate Apart(ks: seq<Key>) {
    forall i, j :: 0 <= i < j < |ks| ==> ks[i].prevout != ks[j].prevout
  }

  lemma {:induction false} ApartOnce(ks: seq<Key>, k: Key)
    requires Apart(ks)
    ensures multiset(ks)[k] <= 1
  {
    if ks != [] {
      var n := |ks| - 1;
      assert ks == ks[..n] + [ks[n]];
      ApartOnce(ks[..n], k);
      if k == ks[n] {
        assert k !in ks[..n];
      }
    }
  }

  lemma TwiceCounts(ks: seq<Key>, i: nat, j: nat)
    requires i < j < |ks| && ks[i] == ks[j]
    ensures multiset(ks)[ks[i]] >= 2
  {
    assert ks == ks[..j] + [ks[j]] + ks[j + 1..];
    assert ks[i] in ks[..j];
  }

  lemma ApartPermuted(a: seq<Key>, b: seq<Key>)
    requires Apart(a) && multiset(a) == multiset(b)
    ensures Apart(b)
  {
    forall i, j | 0 <= i < j < |b| ensures b[i].prevout != b[j].prevout {
      if b[i] == b[j] {
        TwiceCounts(b, i, j);
        ApartOnce(a, b[i]);
      } else {
        assert b[i] in multiset(a) && b[j] in multiset(a);
        var x :| 0 <= x < |a| && a[x] == b[i];
        var y :| 0 <= y < |a| && a[y] == b[j];
      }
    }
  }

  /** What the inputs of the entries spend. */
  function Spends(entries: seq<Entry>): seq<Key> { Keys(MergedIns(entries)) }

  /** A merge spends every output once if and only if the entries do. */
  lemma FinalSpendsOnce(p: Pool)
    requires Merges(p)
    ensures Apart(Keys(p.finalIns)) <==> Apart(Spends(p.entries))
  {
    if Apart(Keys(p.finalIns)) {
      ApartPermuted(Keys(p.finalIns), Spends(p.entries));
    }
    if Apart(Spends(p.entries)) {
      ApartPermuted(Spends(p.entries), Keys(p.finalIns));
    }
  }

  ghost predicate Away(a: seq<Key>, b: seq<Key>) {
    forall i, j :: 0 <= i < |a| && 0 <= j < |b| ==> a[i].prevout != b[j].prevout
  }

  lemma ApartAppend(a: seq<Key>, b: seq<Key>)
    ensures Apart(a + b) <==> Apart(a) && Apart(b) && Away(a, b)
  {
    if Apart(a + b) {
      assert forall i :: 0 <= i < |a| ==> (a + b)[i] == a[i];
      assert forall j :: 0 <= j < |b| ==> (a + b)[|a| + j] == b[j];
    }
  }

  /** The inputs offered spend outputs that are neither spent by the entries nor twice. */
  ghost predicate FreshSpends(entries: seq<Entry>, vin: seq<TxIn>) {
    Apart(Keys(vin)) && Away(Spends(entries), Keys(vin))
  }

  lemma NewSpends(p: Pool, m: Submit, t: Clock)
    requires AddEntry(p, m, t).1
    ensures Spends(AddEntry(p, m, t).0.entries) == Spends(p.entries) + Keys(m.vin)
  {
    var q := AddEntry(p, m, t).0;
    assert q.entries[..|p.entries|] == p.entries;
    assert InsOf(NewEntry(m, t)) == m.vin;
  }

  /** AddEntry compares scripts and sequence numbers as well: an accepted entry leaves every
      output spent once if and only if its spends are fresh. */
  lemma EntrySpendsOnce(p: Pool, m: Submit, t: Clock)
    requires AddEntry(p, m, t).1
    ensures Apart(Spends(AddEntry(p, m, t).0.entries)) <==> Apart(Spends(p.entries)) && FreshSpends(p.entries, m.vin)
  {
    NewSpends(p, m, t);
    ApartAppend(Spends(p.entries), Keys(m.vin));
  }

  // --- signatures and scripts --------------------------------------------------------------------

  /** Input j of entry i is there. */
  predicate Place(entries: seq<Entry>, i: int, j: int) {
    0 <= i < |entries| && 0 <= j < |entries[i].sev|
  }

  /** Every input of the final transaction is that of an entry, script included. */
  ghost predicate Carried(p: Pool) {
    forall k :: 0 <= k < |p.finalIns| ==> Has(p.entries, p.finalIns[k])
  }

  ghost predicate Has(entries: seq<Entry>, a: TxIn) {
    exists i, j :: Place(entries, i, j) && entries[i].sev[j].txin == a
  }

  /** Different inputs of entries differ in output or sequence number. */
  ghost predicate KeysApart(entries: seq<Entry>) {
    forall i, j, x, y :: Place(entries, i, j) && Place(entries, x, y) && KeyOf(entries[i].sev[j].txin) == KeyOf(entries[x].sev[y].txin) ==>
      i == x && j == y
  }

  lemma {:induction false} HasMerged(entries: seq<Entry>, a: TxIn)
    ensures a in MergedIns(entries) <==> Has(entries, a)
  {
    if entries != [] {
      var n := |entries| - 1;
      HasMerged(entries[..n], a);
      if a in InsOf(entries[n]) {
        var j :| 0 <= j < |entries[n].sev| && InsOf(entries[n])[j] == a;
        assert Place(entries, n, j) && entries[n].sev[j].txin == a;
      } else if a in MergedIns(entries[..n]) {
        var i, j :| Place(entries[..n], i, j) && entries[..n][i].sev[j].txin == a;
        assert Place(entries, i, j) && entries[i].sev[j].txin == a;
      }
      if i, j :| Place(entries, i, j) && entries[i].sev[j].txin == a {
        if i == n {
          assert InsOf(entries[n])[j] == a;
        } else {
          assert Place(entries[..n], i, j) && entries[..n][i].sev[j].txin == a;
        }
      }
    }
  }

  /** The key of an input of an entry is among those spent. */
  lemma PlaceSpends(entries: seq<Entry>, i: int, j: int)
    requires Place(entries, i, j)
    ensures KeyOf(entries[i].sev[j].txin) in Spends(entries)
  {
    var a := entries[i].sev[j].txin;
    HasMerged(entries, a);
    var k :| 0 <= k < |MergedIns(entries)| && MergedIns(entries)[k] == a;
    assert Spends(entries)[k] == KeyOf(a);
  }

  lemma {:induction false} ApartKeys(entries: seq<Entry>)
    requires Apart(Spends(entries))
    ensures KeysApart(entries)
  {
    if entries != [] {
      var n := |entries| - 1;
      var front, last := entries[..n], entries[n];
      assert Spends(entries) == Spends(front) + Keys(InsOf(last));
      ApartAppend(Spends(front), Keys(InsOf(last)));
      ApartKeys(front);
      forall i, j, x, y | Place(entries, i, j) && Place(entries, x, y) && KeyOf(entries[i].sev[j].txin) == KeyOf(entries[x].sev[y].txin)
        ensures i == x && j == y
      {
        KeysOfPlaces(entries, i, j, x, y);
      }
    }
  }

  lemma FrontDiffers(front: seq<Entry>, last: Entry, i: int, j: int, y: int)
    requires Away(Spends(front), Keys(InsOf(last))) && Place(front, i, j) && 0 <= y < |last.sev|
    ensures KeyOf(front[i].sev[j].txin) != KeyOf(last.sev[y].txin)
  {
    PlaceSpends(front, i, j);
    assert Keys(InsOf(last))[y] == KeyOf(last.sev[y].txin);
  }

  lemma KeysOfPlaces(entries: seq<Entry>, i: int, j: int, x: int, y: int)
    requires Place(entries, i, j) && Place(entries, x, y) && KeyOf(entries[i].sev[j].txin) == KeyOf(entries[x].sev[y].txin)
    requires var n := |entries| - 1; var ks := Keys(InsOf(entries[n]));
             KeysApart(entries[..n]) && Apart(ks) && Away(Spends(entries[..n]), ks)
    ensures i == x && j == y
  {
    var n := |entries| - 1;
    var front, ks := entries[..n], Keys(InsOf(entries[n]));
    if i < n && x < n {
      assert Place(front, i, j) && Place(front, x, y);
    } else if i < n {
      FrontDiffers(front, entries[n], i, j, y);
    } else if x < n {
      FrontDiffers(front, entries[n], x, y, j);
    } else {
      assert ks[j] == KeyOf(entries[i].sev[j].txin) && ks[y] == KeyOf(entries[x].sev[y].txin);
    }
  }

  /** The signature brings a new script for an input that is signed already. */
  ghost predicate Overwrites(p: Pool, a: TxIn) {
    && !ScriptKnown(p.entries, a.scriptSig)
    && exists i, j :: Place(p.entries, i, j) && p.entries[i].sev[j].hasSig && KeyOf(p.entries[i].sev[j].txin) == KeyOf(a)
  }

  /** The entry that can sign holds the key, unsigned. */
  lemma SignerHas(entries: seq<Entry>, a: TxIn, x: nat) returns (y: nat)
    requires x < |entries| && CanSign(entries[x], a)
    ensures Place(entries, x, y) && !entries[x].sev[y].hasSig && KeyOf(entries[x].sev[y].txin) == KeyOf(a)
    ensures y == FirstIn(entries[x].sev, KeyOf(a))
  {
    y := FirstIn(entries[x].sev, KeyOf(a));
    FirstInIs(entries[x].sev, KeyOf(a));
  }

  /** With the keys apart, the one place with the key decides who signs. */
  lemma SignerIs(entries: seq<Entry>, a: TxIn, i: nat, j: nat)
    requires KeysApart(entries) && Place(entries, i, j) && KeyOf(entries[i].sev[j].txin) == KeyOf(a)
    ensures FirstIn(entries[i].sev, KeyOf(a)) == j
    ensures FirstEntry(entries, a) == if entries[i].sev[j].hasSig then |entries| else i
  {
    FirstInIs(entries[i].sev, KeyOf(a));
    var f := FirstIn(entries[i].sev, KeyOf(a));
    FirstInStops(entries[i].sev, KeyOf(a), j);
    assert Place(entries, i, f);
    FirstEntryIs(entries, a);
    var x := FirstEntry(entries, a);
    if x < |entries| {
      var y := SignerHas(entries, a, x);
    }
    assert CanSign(entries[i], a) <==> !entries[i].sev[j].hasSig;
  }

  lemma {:induction false} FirstInStops(sev: seq<DsIn>, k: Key, j: nat)
    requires j < |sev| && KeyOf(sev[j].txin) == k
    ensures FirstIn(sev, k) <= j
  {
    if KeyOf(sev[0].txin) != k {
      FirstInStops(sev[1..], k, j - 1);
    }
  }

  lemma NobodySigns(entries: seq<Entry>, a: TxIn)
    requires forall i, j :: Place(entries, i, j) ==> KeyOf(entries[i].sev[j].txin) != KeyOf(a)
    ensures FirstEntry(entries, a) == |entries|
  {
    FirstEntryIs(entries, a);
    var x := FirstEntry(entries, a);
    if x < |entries| {
      var y := SignerHas(entries, a, x);
    }
  }

  /** A signature that an entry takes changes both alike. */
  lemma TakenIsCarried(p: Pool, a: TxIn, i: nat, j: nat)
    requires KeysApart(p.entries) && Carried(p)
    requires Place(p.entries, i, j) && KeyOf(p.entries[i].sev[j].txin) == KeyOf(a) && !p.entries[i].sev[j].hasSig
    ensures Carried(p.(finalIns := SignFinal(p.finalIns, a), entries := p.entries[i := AddSig(p.entries[i], a)]))
  {
    SignerIs(p.entries, a, i, j);
    var es := p.entries[i := AddSig(p.entries[i], a)];
    forall k | 0 <= k < |p.finalIns| ensures Has(es, SignFinal(p.finalIns, a)[k]) {
      var x, y :| Place(p.entries, x, y) && p.entries[x].sev[y].txin == p.finalIns[k];
      assert Place(es, x, y);
      if KeyOf(p.finalIns[k]) == KeyOf(a) {
        assert es[x].sev[y].txin == Resigned(p.finalIns[k], a);
      } else {
        assert es[x].sev[y] == p.entries[x].sev[y];
      }
    }
  }

  /** A refused signature for a signed input leaves a script that no entry holds. */
  lemma OverwrittenIsNot(p: Pool, a: TxIn)
    requires Merges(p) && Overwrites(p, a)
    ensures !Carried(p.(finalIns := SignFinal(p.finalIns, a)))
  {
    var i, j :| Place(p.entries, i, j) && p.entries[i].sev[j].hasSig && KeyOf(p.entries[i].sev[j].txin) == KeyOf(a);
    PlaceSpends(p.entries, i, j);
    assert KeyOf(a) in multiset(Spends(p.entries));
    assert KeyOf(a) in Keys(p.finalIns);
    var k :| 0 <= k < |p.finalIns| && Keys(p.finalIns)[k] == KeyOf(a);
    var ins := SignFinal(p.finalIns, a);
    assert ins[k].scriptSig == a.scriptSig;
  }

  /** A signature leaves the final transaction with the scripts of the entries if and only if
      it does not bring a new script for a signed input. */
  lemma SignatureKeepsScripts(p: Pool, a: TxIn, verifies: bool)
    requires Merges(p) && KeysApart(p.entries) && Carried(p)
    ensures Carried(AddScriptSig(p, a, verifies).0) <==> !Overwrites(p, a)
  {
    if ScriptKnown(p.entries, a.scriptSig) {
    } else if i, j :| Place(p.entries, i, j) && KeyOf(p.entries[i].sev[j].txin) == KeyOf(a) {
      NoScript(p, a, verifies);
      SignerIs(p.entries, a, i, j);
      if p.entries[i].sev[j].hasSig {
        OverwrittenIsNot(p, a);
      } else {
        TakenIsCarried(p, a, i, j);
      }
    } else {
      NoScript(p, a, verifies);
      NobodySigns(p.entries, a);
      assert SignFinal(p.finalIns, a) == p.finalIns;
    }
  }

  lemma NoScript(p: Pool, a: TxIn, verifies: bool)
    requires !ScriptKnown(p.entries, a.scriptSig)
    ensures SignatureValid(p.entries, a, verifies)
  {
  }

  // --- whole runs --------------------------------------------------------------------------------

  /** Every output is spent once, and a final transaction carries the scripts of the
      entries. */
  ghost predicate Sound(p: Pool) {
    Apart(Spends(p.entries)) && (p.status == Signing || p.status == Transmission ==> Carried(p))
  }

  ghost predicate Polite(p: Pool, sigs: seq<Sig>) {
    sigs == [] || (var n := |sigs| - 1; Polite(p, sigs[..n]) && !Overwrites(AddSigs(p, sigs[..n]).0, sigs[n].txin))
  }

  /** An entry taken brings fresh spends, and no signature comes late for a signed input. */
  ghost predicate Orderly(p: Pool, op: Op, t: Clock) {
    match op
    case OpSubmit(m, _) => Taken(p, m, t) ==> FreshSpends(p.entries, m.vin)
    case OpSign(sigs, _) => p.status == Signing || p.status == Transmission ==> Polite(p, sigs)
    case _ => true
  }

  lemma SameSpends(a: seq<Entry>, b: seq<Entry>)
    requires SameEntries(a, b)
    ensures Spends(a) == Spends(b)
  {
    MergedSame(a, b);
  }

  lemma {:induction false} PoliteCarried(p: Pool, sigs: seq<Sig>)
    requires Merges(p) && Apart(Spends(p.entries)) && Carried(p) && Polite(p, sigs)
    ensures Carried(AddSigs(p, sigs).0)
  {
    if sigs != [] {
      var n := |sigs| - 1;
      PoliteCarried(p, sigs[..n]);
      AddSigsSigns(p, sigs[..n]);
      var q := AddSigs(p, sigs[..n]).0;
      MergedSame(p.entries, q.entries);
      ApartKeys(q.entries);
      SignatureKeepsScripts(q, sigs[n].txin, sigs[n].verifies);
    }
  }

  lemma FinalizeCarries(p: Pool, o: Outcome)
    ensures Carried(FinalizeTransaction(p, o))
  {
    var ins := MergedIns(p.entries);
    var q := FinalizeTransaction(p, o);
    ShufflePermutes(ins, o.ins, |ins|);
    forall k | 0 <= k < |q.finalIns| ensures Has(q.entries, q.finalIns[k]) {
      assert q.finalIns[k] in multiset(ins);
      HasMerged(p.entries, q.finalIns[k]);
    }
  }

  lemma AdvanceSound(p: Pool, o: Outcome, t: Clock)
    requires Sound(p) && p.status != Finalize
    ensures Sound(Advance(p, o, t)) && Advance(p, o, t).entries == p.entries
  {
    FinalizeCarries(UpdateState(UpdateState(p, Finalize, t), Signing, t), o);
  }

  lemma CheckSound(p: Pool, o: Outcome, t: Clock)
    requires Sound(p) && p.status != Finalize
    ensures Sound(Check(p, o, t))
  {
    AdvanceSound(p, o, t);
  }

  /** The pool as Check finds it after the message. */
  function Checked(p: Pool, op: Op, t: Clock): Pool {
    match op
    case OpSubmit(m, _) => if Taken(p, m, t) then AddEntry(p, m, t).0 else p
    case OpSign(sigs, _) => AddSigs(p, sigs).0
    case _ => p
  }

  lemma CheckedSound(p: Pool, op: Op, t: Clock)
    requires Inv(p) && Sound(p) && Orderly(p, op, t)
    ensures Inv(Checked(p, op, t)) && Sound(Checked(p, op, t))
  {
    match op
    case OpSubmit(m, _) =>
      if Taken(p, m, t) {
        AddEntryKeeps(p, m, t);
        EntrySpendsOnce(p, m, t);
      }
    case OpSign(sigs, _) =>
      AddSigsSigns(p, sigs);
      SignedMoreKeeps(p, AddSigs(p, sigs).0);
      SameSpends(p.entries, AddSigs(p, sigs).0.entries);
      if p.status == Signing || p.status == Transmission {
        PoliteCarried(p, sigs);
      }
    case _ =>
  }

  ghost predicate Within(a: seq<Key>, b: seq<Key>) { forall i :: 0 <= i < |a| ==> a[i] in b }

  lemma AwayWithin(a: seq<Key>, b: seq<Key>, c: seq<Key>)
    requires Within(a, b) && Away(b, c)
    ensures Away(a, c)
  {
  }

  lemma WithinAppend(a: seq<Key>, b: seq<Key>, c: seq<Key>)
    requires Within(a, b)
    ensures Within(a, b + c) && Within(a + c, b + c)
  {
  }

  lemma {:induction false} UnexpiredSpends(entries: seq<Entry>, t: Clock)
    requires Apart(Spends(entries))
    ensures Apart(Spends(Unexpired(entries, t))) && Within(Spends(Unexpired(entries, t)), Spends(entries))
  {
    if entries != [] {
      var n := |entries| - 1;
      var front, last, rest := entries[..n], entries[n], Unexpired(entries[..n], t);
      var ks := Keys(InsOf(last));
      assert Spends(entries) == Spends(front) + ks;
      ApartAppend(Spends(front), ks);
      UnexpiredSpends(front, t);
      WithinAppend(Spends(rest), Spends(front), ks);
      assert Unexpired(entries, t) == if EntryExpired(last, t) then rest else rest + [last];
      if !EntryExpired(last, t) {
        assert (rest + [last])[..|rest|] == rest;
        assert Spends(rest + [last]) == Spends(rest) + ks;
        AwayWithin(Spends(rest), Spends(front), ks);
        ApartAppend(Spends(rest), ks);
      }
    }
  }

  lemma TimeoutSound(p: Pool, t: Clock)
    requires Sound(p) && p.status != Finalize
    ensures Sound(CheckTimeout(p, t))
  {
    UnexpiredSpends(p.entries, t);
  }

  lemma JoinSound(p: Pool, m: Accept, t: Clock)
    requires Inv(p) && Sound(p)
    ensures Sound(OnAccept(p, m, t))
  {
    JoinOutcome(p, m, t);
  }

  /** Orderly messages and timers keep the pool sound. */
  lemma StepSound(p: Pool, op: Op, t: Clock)
    requires Inv(p) && Sound(p) && Orderly(p, op, t)
    ensures Sound(Step(p, op, t))
  {
    match op
    case OpAccept(a) => JoinSound(p, a, t);
    case OpSubmit(m, o) => SubmitSound(p, m, o, t);
    case OpSign(sigs, o) => SignSound(p, sigs, o, t);
    case OpTimeout => TimeoutSound(p, t);
    case OpQueue =>
  }

  lemma SubmitSound(p: Pool, m: Submit, o: Outcome, t: Clock)
    requires Inv(p) && Sound(p) && Orderly(p, OpSubmit(m, o), t)
    ensures Sound(OnSubmit(p, m, o, t))
  {
    CheckedSound(p, OpSubmit(m, o), t);
    if Taken(p, m, t) {
      CheckSound(AddEntry(p, m, t).0, o, t);
    }
  }

  lemma SignSound(p: Pool, sigs: seq<Sig>, o: Outcome, t: Clock)
    requires Inv(p) && Sound(p) && Orderly(p, OpSign(sigs, o), t)
    ensures Sound(OnSign(p, sigs, o, t))
  {
    CheckedSound(p, OpSign(sigs, o), t);
    CheckSound(AddSigs(p, sigs).0, o, t);
  }

  ghost predicate OrderlyRun(p: Pool, ops: seq<Timed>) {
    ops == [] || (var n := |ops| - 1; OrderlyRun(p, ops[..n]) && Orderly(Run(p, ops[..n]), ops[n].op, ops[n].t))
  }

  lemma {:induction false} RunSound(p: Pool, ops: seq<Timed>)
    requires Inv(p) && Sound(p) && OrderlyRun(p, ops)
    ensures Sound(Run(p, ops))
  {
    if ops != [] {
      var n := |ops| - 1;
      RunSound(p, ops[..n]);
      RunKeeps(p, ops[..n]);
      StepSound(Run(p, ops[..n]), ops[n].op, ops[n].t);
    }
  }

  /** In an orderly run every transaction handed over spends each output once and consists of
      the inputs of the entries, each with the script its entry accepted. */
  lemma HandedOverIsSigned(p0: Pool, t0: Clock, ops: seq<Timed>, op: Op, o: Outcome, t: Clock)
    requires OrderlyRun(SetNull(p0, t0), ops)
    requires var p := Run(SetNull(p0, t0), ops); Orderly(p, op, t) && HandsOver(Checked(p, op, t), o, t)
    ensures var q := Advance(Checked(Run(SetNull(p0, t0), ops), op, t), o, t);
            && Apart(Keys(q.finalIns)) && SignaturesComplete(q.entries)
            && forall a :: a in q.finalIns <==> a in MergedIns(q.entries)
  {
    var p := Run(SetNull(p0, t0), ops);
    StartOk(t0, p0);
    RunKeeps(SetNull(p0, t0), ops);
    RunSound(SetNull(p0, t0), ops);
    CheckedSound(p, op, t);
    var c := Checked(p, op, t);
    AdvanceSound(c, o, t);
    AdvanceKeeps(c, o, t);
    var q := Advance(c, o, t);
    FinalSpendsOnce(q);
    forall a ensures a in q.finalIns <==> a in MergedIns(q.entries) {
      SameInputs(q, a);
    }
  }

  lemma SameInputs(q: Pool, a: TxIn)
    requires Merges(q) && Carried(q) && Apart(Spends(q.entries))
    ensures a in q.finalIns <==> a in MergedIns(q.entries)
  {
    HasMerged(q.entries, a);
    ApartKeys(q.entries);
    if i, j :| Place(q.entries, i, j) && q.entries[i].sev[j].txin == a {
      PlaceSpends(q.entries, i, j);
      assert KeyOf(a) in multiset(Spends(q.entries));
      assert KeyOf(a) in Keys(q.finalIns);
      var k :| 0 <= k < |q.finalIns| && Keys(q.finalIns)[k] == KeyOf(a);
      var x, y :| Place(q.entries, x, y) && q.entries[x].sev[y].txin == q.finalIns[k];
    }
  }
}
