/** Runs of the pool that end where it was not meant to. */
module DarksendExamples {
  import opened Common
  import opened DarksendModel
  import opened DarksendRuns
  import opened DarksendSpends

  lemma RunNext(p: Pool, ops: seq<Timed>, x: Timed)
    ensures Run(p, ops + [x]) == Step(Run(p, ops), x.op, x.t)
  {
    assert (ops + [x])[..|ops|] == ops;
  }

  function Fresh(t: Clock): Pool { Pool(Idle, [], [], [], 0, 0, 0, [], t.ms) }

  // --- three users --------------------------------------------------------------------------

  function Join(t: Clock): Timed { Timed(OpAccept(Accept(8, 7, true, false, true, 42)), t) }

  function ThreeJoin(t: Clock): seq<Timed> { ([] + [Join(t)]) + [Join(t)] + [Join(t)] }

  lemma Joined(t: Clock)
    ensures Run(Fresh(t), ThreeJoin(t)) == Pool(Queue, [], [], [], 3, 42, 8, [7, 7, 7], t.ms)
  {
    RunNext(Fresh(t), [], Join(t));
    RunNext(Fresh(t), [] + [Join(t)], Join(t));
    RunNext(Fresh(t), [] + [Join(t)] + [Join(t)], Join(t));
  }

  // --- entries ---------------------------------------------------------------------------------

  function Out(): TxOut { TxOut(COIN + 1000, "") }

  lemma OutDenominations()
    ensures Denominations([Out()]) == 8
  {
    assert IsDenomination(Out().value) by {
      assert DENOMINATIONS[3] == Out().value;
    }
    assert Used([Out()], 3) by {
      assert [Out()][0].value == DENOMINATIONS[3];
    }
  }

  function Offer(a: TxIn): Submit { Submit([a], COIN + 1000, 7, [Out()], true, true) }

  function Offered(a: TxIn, o: Outcome, t: Clock): Timed { Timed(OpSubmit(Offer(a), o), t) }

  function EntryOf(a: TxIn, t: Clock): Entry { Entry([DsIn(a, false)], [Out()], COIN + 1000, 7, t.sec) }

  /** An entry of the same kind that spends something else is taken. */
  lemma OfferTaken(p: Pool, a: TxIn, t: Clock)
    requires p.users == 3 && |p.entries| < 3 && !IsNull(a.prevout)
    requires forall i :: 0 <= i < |p.entries| ==>
               p.entries[i].vout == [Out()] && |p.entries[i].sev| == 1 && !SameIn(p.entries[i].sev[0].txin, a)
    ensures Taken(p, Offer(a), t)
    ensures AddEntry(p, Offer(a), t) == (p.(entries := p.entries + [EntryOf(a, t)]), true)
  {
    OutDenominations();
    assert NewEntry(Offer(a), t) == EntryOf(a, t);
    assert !Holds(p.entries, a);
    assert Offer(a).vin[0] == a;
  }

  /** After two more entries the pool holds two. */
  lemma TwoTaken(p: Pool, a: TxIn, b: TxIn, o: Outcome, t: Clock)
    requires p.users == 3 && p.entries == [] && (p.status == Queue || p.status == Accepting)
    requires !IsNull(a.prevout) && !IsNull(b.prevout) && !SameIn(a, b)
    ensures Step(Step(p, Offered(a, o, t).op, t), Offered(b, o, t).op, t) == p.(entries := [EntryOf(a, t), EntryOf(b, t)])
  {
    OfferTaken(p, a, t);
    var q := p.(entries := [EntryOf(a, t)]);
    assert Step(p, Offered(a, o, t).op, t) == q;
    OfferTaken(q, b, t);
  }

  // --- a full pool that waits -------------------------------------------------------------------

  function In(n: nat, seqNo: int): TxIn { TxIn(OutPoint(5, n), "", seqNo, "") }

  /** The third entry comes before the queue is seen to be complete. */
  lemma FullPoolWaits(o: Outcome, t: Clock)
    ensures Waits(Run(Fresh(t), ThreeJoin(t) + [Offered(In(0, 0), o, t)] + [Offered(In(1, 0), o, t)] + [Offered(In(2, 0), o, t)]))
  {
    Joined(t);
    var p := Run(Fresh(t), ThreeJoin(t));
    TwoTaken(p, In(0, 0), In(1, 0), o, t);
    RunNext(Fresh(t), ThreeJoin(t), Offered(In(0, 0), o, t));
    RunNext(Fresh(t), ThreeJoin(t) + [Offered(In(0, 0), o, t)], Offered(In(1, 0), o, t));
    RunNext(Fresh(t), ThreeJoin(t) + [Offered(In(0, 0), o, t)] + [Offered(In(1, 0), o, t)], Offered(In(2, 0), o, t));
    OfferTaken(p.(entries := [EntryOf(In(0, 0), t), EntryOf(In(1, 0), t)]), In(2, 0), t);
  }

  // --- a final transaction -----------------------------------------------------------------------

  /** Three users, a complete queue, and entries for three inputs. */
  function Filled(a: TxIn, b: TxIn, c: TxIn, o: Outcome, t: Clock): seq<Timed> {
    ThreeJoin(t) + [Timed(OpQueue, t)] + [Offered(a, o, t)] + [Offered(b, o, t)] + [Offered(c, o, t)]
  }

  lemma FilledSigns(a: TxIn, b: TxIn, c: TxIn, o: Outcome, t: Clock)
    requires !IsNull(a.prevout) && !IsNull(b.prevout) && !IsNull(c.prevout)
    requires !SameIn(a, b) && !SameIn(a, c) && !SameIn(b, c)
    ensures var p := Run(Fresh(t), Filled(a, b, c, o, t));
            && p.status == Signing && p.users == 3 && p.entries == [EntryOf(a, t), EntryOf(b, t), EntryOf(c, t)]
            && Merges(p) && Carried(p)
  {
    Joined(t);
    var one := ThreeJoin(t) + [Timed(OpQueue, t)];
    RunNext(Fresh(t), ThreeJoin(t), Timed(OpQueue, t));
    var p := Run(Fresh(t), one);
    assert p.status == Accepting && p.users == 3 && p.entries == [];
    TwoTaken(p, a, b, o, t);
    RunNext(Fresh(t), one, Offered(a, o, t));
    RunNext(Fresh(t), one + [Offered(a, o, t)], Offered(b, o, t));
    RunNext(Fresh(t), one + [Offered(a, o, t)] + [Offered(b, o, t)], Offered(c, o, t));
    var q := p.(entries := [EntryOf(a, t), EntryOf(b, t)]);
    OfferTaken(q, c, t);
    LastSigns(q, c, o, t);
  }

  lemma LastSigns(q: Pool, c: TxIn, o: Outcome, t: Clock)
    requires q.status == Accepting && |q.entries| == 2 && Taken(q, Offer(c), t)
    requires AddEntry(q, Offer(c), t) == (q.(entries := q.entries + [EntryOf(c, t)]), true)
    ensures var r := Step(q, Offered(c, o, t).op, t);
            && r.status == Signing && r.users == q.users && r.entries == q.entries + [EntryOf(c, t)]
            && Merges(r) && Carried(r)
  {
    var r := q.(entries := q.entries + [EntryOf(c, t)]);
    assert !r.entries[2].sev[0].hasSig;
    assert !SignaturesComplete(r.entries);
    var s := UpdateState(UpdateState(r, Finalize, t), Signing, t);
    FinalizeMerges(s, o);
    FinalizeCarries(s, o);
  }

  /** Two entries spend the same output with different sequence numbers, and so does the
      final transaction. */
  lemma OutputSpentTwice(o: Outcome, t: Clock)
    ensures var p := Run(Fresh(t), Filled(In(0, 0), In(0, 1), In(2, 0), o, t));
            p.status == Signing && Merges(p) && !Apart(Keys(p.finalIns))
  {
    var a, b, c := In(0, 0), In(0, 1), In(2, 0);
    FilledSigns(a, b, c, o, t);
    var p := Run(Fresh(t), Filled(a, b, c, o, t));
    ThreeMerged(a, b, c, t);
    assert Spends(p.entries)[0] == KeyOf(a) && Spends(p.entries)[1] == KeyOf(b);
    FinalSpendsOnce(p);
  }

  lemma ThreeMerged(a: TxIn, b: TxIn, c: TxIn, t: Clock)
    ensures MergedIns([EntryOf(a, t), EntryOf(b, t), EntryOf(c, t)]) == [a, b, c]
  {
    var es := [EntryOf(a, t), EntryOf(b, t), EntryOf(c, t)];
    assert es[..2] == [EntryOf(a, t), EntryOf(b, t)] && es[..2][..1] == [EntryOf(a, t)] && es[..1][..0] == [];
    assert MergedIns(es[..1]) == [a];
    assert MergedIns(es[..2]) == [a, b];
  }

  // --- a script overwritten --------------------------------------------------------------------

  function Signed(n: nat, script: Script): TxIn { TxIn(OutPoint(5, n), script, 0, "") }

  function Signing1(a: TxIn, o: Outcome, t: Clock): Timed { Timed(OpSign([Sig(a, true)], o), t) }

  /** A message of one signature. */
  lemma OneSignature(p: Pool, a: TxIn)
    ensures AddSigs(p, [Sig(a, true)]) == AddScriptSig(p, a, true)
  {
    assert [Sig(a, true)][..0] == [];
  }

  /** The first script for input 0 is taken, the second is refused, and the final transaction
      carries the second. */
  lemma ScriptOverwritten(o: Outcome, t: Clock)
    ensures var ops := Filled(In(0, 0), In(1, 0), In(2, 0), o, t) + [Signing1(Signed(0, "x"), o, t)];
            && Carried(Run(Fresh(t), ops))
            && !Carried(Run(Fresh(t), ops + [Signing1(Signed(0, "y"), o, t)]))
  {
    var a, b, c := In(0, 0), In(1, 0), In(2, 0);
    var filled := Filled(a, b, c, o, t);
    FilledSigns(a, b, c, o, t);
    var p := Run(Fresh(t), filled);
    var x, y := Signed(0, "x"), Signed(0, "y");
    RunNext(Fresh(t), filled, Signing1(x, o, t));
    FirstScript(p, a, b, c, x, o, t);
    var ops := filled + [Signing1(x, o, t)];
    RunNext(Fresh(t), ops, Signing1(y, o, t));
    SecondScript(Run(Fresh(t), ops), a, b, c, x, y, o, t);
  }

  /** Entries as they are when input `a` is signed with the script of `x`. */
  predicate OneSigned(entries: seq<Entry>, a: TxIn, b: TxIn, c: TxIn, x: TxIn, t: Clock) {
    entries == [EntryOf(a, t).(sev := [DsIn(Resigned(a, x), true)]), EntryOf(b, t), EntryOf(c, t)]
  }

  predicate ThreeKeys(a: TxIn, b: TxIn, c: TxIn) {
    KeyOf(a) != KeyOf(b) && KeyOf(a) != KeyOf(c) && KeyOf(b) != KeyOf(c)
  }

  lemma FirstScript(p: Pool, a: TxIn, b: TxIn, c: TxIn, x: TxIn, o: Outcome, t: Clock)
    requires p.status == Signing && p.entries == [EntryOf(a, t), EntryOf(b, t), EntryOf(c, t)] && Merges(p) && Carried(p)
    requires ThreeKeys(a, b, c) && KeyOf(x) == KeyOf(a)
    requires x.scriptSig != a.scriptSig && x.scriptSig != b.scriptSig && x.scriptSig != c.scriptSig
    ensures var q := Step(p, Signing1(x, o, t).op, t);
            q.status == Signing && OneSigned(q.entries, a, b, c, x, t) && Merges(q) && Carried(q)
  {
    OneSignature(p, x);
    EntrySigned(p, a, b, c, x, t);
    var q := AddScriptSig(p, x, true).0;
    SignatureKeepsScripts(p, x, true);
    AddScriptSigSigns(p, x, true);
    MergedSame(p.entries, q.entries);
    assert !q.entries[1].sev[0].hasSig;
    assert !SignaturesComplete(q.entries);
  }

  lemma EntrySigned(p: Pool, a: TxIn, b: TxIn, c: TxIn, x: TxIn, t: Clock)
    requires p.entries == [EntryOf(a, t), EntryOf(b, t), EntryOf(c, t)]
    requires ThreeKeys(a, b, c) && KeyOf(x) == KeyOf(a)
    requires x.scriptSig != a.scriptSig && x.scriptSig != b.scriptSig && x.scriptSig != c.scriptSig
    ensures KeysApart(p.entries) && !Overwrites(p, x)
    ensures OneSigned(AddScriptSig(p, x, true).0.entries, a, b, c, x, t)
  {
    assert Place(p.entries, 0, 0);
    SignerIs(p.entries, x, 0, 0);
    NoScript(p, x, true);
    assert AddSig(p.entries[0], x).sev == [DsIn(Resigned(a, x), true)];
  }

  lemma SecondScript(q: Pool, a: TxIn, b: TxIn, c: TxIn, x: TxIn, y: TxIn, o: Outcome, t: Clock)
    requires q.status == Signing && OneSigned(q.entries, a, b, c, x, t) && Merges(q) && Carried(q)
    requires ThreeKeys(a, b, c) && KeyOf(y) == KeyOf(x) == KeyOf(a)
    requires y.scriptSig != x.scriptSig && y.scriptSig != b.scriptSig && y.scriptSig != c.scriptSig
    ensures !Carried(Step(q, Signing1(y, o, t).op, t))
  {
    OneSignature(q, y);
    assert Place(q.entries, 0, 0) && q.entries[0].sev[0].hasSig;
    assert Overwrites(q, y);
    NoScript(q, y, true);
    SignerIs(q.entries, y, 0, 0);
    SignatureKeepsScripts(q, y, true);
  }
}
