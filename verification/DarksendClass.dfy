/** The pool object and its loops. */
module DarksendClass {
  import opened Common
  import opened DarksendModel
  import opened DarksendRuns

  /** The mask of the first `c` denominations. */
  function MaskUpTo(vout: seq<TxOut>, c: nat): int
    requires c <= 5
  {
    if c == 0 then 0 else MaskUpTo(vout, c - 1) + Bit(Used(vout, c - 1), Place(c - 1))
  }

  function Place(c: nat): int { if c == 0 then 1 else 2 * Place(c - 1) }

  lemma MaskIs(vout: seq<TxOut>)
    ensures MaskUpTo(vout, 5)
         == Bit(Used(vout, 0), 1) + Bit(Used(vout, 1), 2) + Bit(Used(vout, 2), 4) + Bit(Used(vout, 3), 8) + Bit(Used(vout, 4), 16)
  {
    assert Place(0) == 1 && Place(1) == 2;
    assert Place(2) == 4;
    assert Place(3) == 8;
    assert Place(4) == 16;
    assert MaskUpTo(vout, 0) == 0;
    assert MaskUpTo(vout, 1) == Bit(Used(vout, 0), 1);
    assert MaskUpTo(vout, 2) == MaskUpTo(vout, 1) + Bit(Used(vout, 1), 2);
    assert MaskUpTo(vout, 3) == MaskUpTo(vout, 2) + Bit(Used(vout, 2), 4);
    assert MaskUpTo(vout, 4) == MaskUpTo(vout, 3) + Bit(Used(vout, 3), 8);
    assert MaskUpTo(vout, 5) == MaskUpTo(vout, 4) + Bit(Used(vout, 4), 16);
  }

  method GetDenominations(vout: seq<TxOut>) returns (denom: int)
    ensures denom == Denominations(vout)
  {
    var used: seq<bool> := [false, false, false, false, false];
    var i := 0;
    while i < |vout|
      invariant i <= |vout| && |used| == 5
      invariant forall c :: 0 <= c < 5 ==> used[c] == Used(vout[..i], c)
      invariant forall k :: 0 <= k < i ==> IsDenomination(vout[k].value)
    {
      var found := false;
      var c := 0;
      ghost var before: seq<bool> := used;
      while c < 5
        invariant c <= 5 && |used| == 5
        invariant found <==> exists d :: 0 <= d < c && DENOMINATIONS[d] == vout[i].value
        invariant forall d :: 0 <= d < 5 ==> used[d] == (before[d] || (d < c && DENOMINATIONS[d] == vout[i].value))
      {
        if vout[i].value == DENOMINATIONS[c] {
          used := used[c := true];
          found := true;
        }
        c := c + 1;
      }
      if !found {
        assert !IsDenomination(vout[i].value);
        return 0;
      }
      UsedNext(vout, i);
      i := i + 1;
    }
    assert vout[..i] == vout;
    denom := 0;
    var place := 1;
    var c := 0;
    while c < 5
      invariant c <= 5 && place == Place(c) && denom == MaskUpTo(vout, c)
    {
      if used[c] {
        denom := denom + place;
      }
      place := 2 * place;
      c := c + 1;
    }
    MaskIs(vout);
  }

  lemma UsedNext(vout: seq<TxOut>, i: nat)
    requires i < |vout|
    ensures forall c :: 0 <= c < 5 ==> Used(vout[..i + 1], c) == (Used(vout[..i], c) || DENOMINATIONS[c] == vout[i].value)
  {
    forall c | 0 <= c < 5 ensures Used(vout[..i + 1], c) == (Used(vout[..i], c) || DENOMINATIONS[c] == vout[i].value) {
      if Used(vout[..i], c) {
        var k :| 0 <= k < i && vout[..i][k].value == DENOMINATIONS[c];
        assert vout[..i + 1][k].value == DENOMINATIONS[c];
      }
      if Used(vout[..i + 1], c) {
        var k :| 0 <= k < i + 1 && vout[..i + 1][k].value == DENOMINATIONS[c];
        if k < i {
          assert vout[..i][k].value == DENOMINATIONS[c];
        }
      }
      assert vout[..i + 1][i] == vout[i];
    }
  }

  class DarksendPool {
    var status: Status
    var entries: seq<Entry>
    var finalIns: seq<TxIn>
    var finalOuts: seq<TxOut>
    var sessionUsers: int
    var sessionID: int
    var sessionDenom: int
    var vecSessionCollateral: seq<int>
    var lastTimeChanged: int

    ghost function View(): Pool
      reads this
    {
      Pool(status, entries, finalIns, finalOuts, sessionUsers, sessionID, sessionDenom, vecSessionCollateral, lastTimeChanged)
    }

    constructor (t: Clock)
      ensures Inv(View())
    {
      status, entries, finalIns, finalOuts := Idle, [], [], [];
      sessionUsers, sessionID, sessionDenom, vecSessionCollateral, lastTimeChanged := 0, 0, 0, [], t.ms;
    }

    method Clear(t: Clock)
      modifies this
      ensures View() == SetNull(old(View()), t)
    {
      sessionUsers := 0;
      vecSessionCollateral := [];
      status := Idle;
      sessionID := 0;
      sessionDenom := 0;
      entries := [];
      finalIns := [];
      finalOuts := [];
      lastTimeChanged := t.ms;
    }

    method Update(s: Status, t: Clock)
      modifies this`status, this`lastTimeChanged
      ensures View() == UpdateState(old(View()), s, t)
    {
      if s == Error || s == Success {
        return;
      }
      if status != s {
        lastTimeChanged := t.ms;
      }
      status := s;
    }

    method Accepted(m: Accept, t: Clock) returns (ok: bool)
      modifies this
      ensures (View(), ok) == JoinSession(old(View()), m, t)
    {
      if m.denom == 0 {
        return false;
      }
      if !m.valid {
        return false;
      }
      if sessionUsers < 0 {
        sessionUsers := 0;
      }
      if sessionUsers == 0 {
        sessionID := m.id;
        sessionDenom := m.denom;
        sessionUsers := sessionUsers + 1;
        lastTimeChanged := t.ms;
        Update(Queue, t);
        vecSessionCollateral := vecSessionCollateral + [m.collateral];
        return true;
      }
      if (status != Accepting && status != Queue) || sessionUsers >= POOL_MAX {
        return false;
      }
      if m.denom != sessionDenom {
        return false;
      }
      sessionUsers := sessionUsers + 1;
      lastTimeChanged := t.ms;
      vecSessionCollateral := vecSessionCollateral + [m.collateral];
      return true;
    }

    method IsCompatible(vout: seq<TxOut>) returns (ok: bool)
      ensures ok == IsCompatibleWithEntries(entries, vout)
    {
      var d := GetDenominations(vout);
      if d == 0 {
        return false;
      }
      var i := 0;
      while i < |entries|
        invariant i <= |entries|
        invariant forall k :: 0 <= k < i ==> Denominations(vout) == Denominations(entries[k].vout)
      {
        var e := GetDenominations(entries[i].vout);
        if d != e {
          return false;
        }
        i := i + 1;
      }
      return true;
    }

    /** Is the input in some entry? */
    method HasInput(a: TxIn) returns (found: bool)
      ensures found == Holds(entries, a)
    {
      var i := 0;
      while i < |entries|
        invariant i <= |entries|
        invariant forall k, j :: 0 <= k < i && 0 <= j < |entries[k].sev| ==> !SameIn(entries[k].sev[j].txin, a)
      {
        var j := 0;
        while j < |entries[i].sev|
          invariant j <= |entries[i].sev|
          invariant forall l :: 0 <= l < j ==> !SameIn(entries[i].sev[l].txin, a)
        {
          if SameIn(entries[i].sev[j].txin, a) {
            return true;
          }
          j := j + 1;
        }
        i := i + 1;
      }
      return false;
    }

    method Add(m: Submit, t: Clock) returns (ok: bool)
      modifies this`entries, this`sessionUsers
      ensures (View(), ok) == AddEntry(old(View()), m, t)
    {
      var k := 0;
      while k < |m.vin|
        invariant k <= |m.vin| && View() == old(View())
        invariant forall i :: 0 <= i < k ==> !(IsNull(m.vin[i].prevout) || m.amount < 0)
      {
        if IsNull(m.vin[k].prevout) || m.amount < 0 {
          sessionUsers := sessionUsers - 1;
          return false;
        }
        k := k + 1;
      }
      assert !BadInput(m);
      if !m.valid || |entries| >= POOL_MAX {
        sessionUsers := sessionUsers - 1;
        return false;
      }
      k := 0;
      while k < |m.vin|
        invariant k <= |m.vin| && View() == old(View())
        invariant forall i :: 0 <= i < k ==> !Holds(entries, m.vin[i])
      {
        var found := HasInput(m.vin[k]);
        if found {
          sessionUsers := sessionUsers - 1;
          return false;
        }
        k := k + 1;
      }
      assert !AlreadyHave(entries, m.vin);
      entries := entries + [NewEntry(m, t)];
      return true;
    }

    method KnowsScript(s: Script) returns (found: bool)
      ensures found == ScriptKnown(entries, s)
    {
      var i := 0;
      while i < |entries|
        invariant i <= |entries|
        invariant forall k, j :: 0 <= k < i && 0 <= j < |entries[k].sev| ==> entries[k].sev[j].txin.scriptSig != s
      {
        var j := 0;
        while j < |entries[i].sev|
          invariant j <= |entries[i].sev|
          invariant forall l :: 0 <= l < j ==> entries[i].sev[l].txin.scriptSig != s
        {
          if entries[i].sev[j].txin.scriptSig == s {
            return true;
          }
          j := j + 1;
        }
        i := i + 1;
      }
      return false;
    }

    method AllSigned() returns (ok: bool)
      ensures ok == SignaturesComplete(entries)
    {
      var i := 0;
      while i < |entries|
        invariant i <= |entries|
        invariant forall k, j :: 0 <= k < i && 0 <= j < |entries[k].sev| ==> entries[k].sev[j].hasSig
      {
        var j := 0;
        while j < |entries[i].sev|
          invariant j <= |entries[i].sev|
          invariant forall l :: 0 <= l < j ==> entries[i].sev[l].hasSig
        {
          if !entries[i].sev[j].hasSig {
            return false;
          }
          j := j + 1;
        }
        i := i + 1;
      }
      return true;
    }

    /** CDarkSendEntry::AddSig. */
    static method SignEntry(e: Entry, a: TxIn) returns (r: Entry, ok: bool)
      ensures r == AddSig(e, a) && ok == CanSign(e, a)
    {
      var i := 0;
      while i < |e.sev|
        invariant i <= |e.sev|
        invariant FirstIn(e.sev, KeyOf(a)) == i + FirstIn(e.sev[i..], KeyOf(a))
      {
        if e.sev[i].txin.prevout == a.prevout && e.sev[i].txin.seqNo == a.seqNo {
          if e.sev[i].hasSig {
            return e, false;
          }
          return e.(sev := e.sev[i := DsIn(e.sev[i].txin.(scriptSig := a.scriptSig, prevPubKey := a.prevPubKey), true)]), true;
        }
        i := i + 1;
      }
      return e, false;
    }

    method TakeSig(a: TxIn, verifies: bool) returns (ok: bool)
      modifies this`entries, this`finalIns
      ensures (View(), ok) == AddScriptSig(old(View()), a, verifies)
    {
      var known := KnowsScript(a.scriptSig);
      if known {
        return false;
      }
      var held := HasInput(a);
      if held && !verifies {
        return false;
      }
      var k := 0;
      while k < |finalIns|
        invariant k <= |finalIns| == |old(finalIns)| && entries == old(entries)
        invariant forall i :: 0 <= i < |finalIns| ==> finalIns[i] == if i < k then SignFinal(old(finalIns), a)[i] else old(finalIns[i])
      {
        if finalIns[k].prevout == a.prevout && finalIns[k].seqNo == a.seqNo {
          finalIns := finalIns[k := finalIns[k].(scriptSig := a.scriptSig, prevPubKey := a.prevPubKey)];
        }
        k := k + 1;
      }
      assert finalIns == SignFinal(old(finalIns), a);
      var i := 0;
      while i < |entries|
        invariant i <= |entries| && entries == old(entries)
        invariant finalIns == SignFinal(old(finalIns), a)
        invariant FirstEntry(entries, a) == i + FirstEntry(entries[i..], a)
      {
        var r, signed := SignEntry(entries[i], a);
        if signed {
          entries := entries[i := r];
          return true;
        }
        i := i + 1;
      }
      return false;
    }

    /** The loop that puts the entries together. */
    method Merge() returns (ins: seq<TxIn>, outs: seq<TxOut>)
      ensures ins == MergedIns(entries) && outs == MergedOuts(entries)
    {
      ins, outs := [], [];
      var i := 0;
      while i < |entries|
        invariant i <= |entries|
        invariant ins == MergedIns(entries[..i]) && outs == MergedOuts(entries[..i])
      {
        assert entries[..i + 1][..i] == entries[..i];
        outs := outs + entries[i].vout;
        ins := ins + InsOf(entries[i]);
        i := i + 1;
      }
      assert entries[..i] == entries;
    }

    /** std::random_shuffle. */
    static method RandomShuffle<T>(s: seq<T>, picks: seq<nat>) returns (r: seq<T>)
      ensures r == Shuffled(s, picks, |s|)
    {
      r := s;
      var i := 1;
      while i < |s|
        invariant 1 <= i && (i <= |s| || |s| == 0) && |r| == |s|
        invariant r == Shuffled(s, picks, if i <= |s| then i else 0)
      {
        var j := Pick(picks, i);
        r := r[i := r[j]][j := r[i]];
        i := i + 1;
      }
    }

    method DoCheck(o: Outcome, t: Clock)
      modifies this
      ensures View() == Check(old(View()), o, t)
    {
      if status == Accepting && |entries| >= POOL_MAX {
        Update(Finalize, t);
      }
      if status == Finalize {
        Update(Signing, t);
        var ins, outs := Merge();
        ins := RandomShuffle(ins, o.ins);
        outs := RandomShuffle(outs, o.outs);
        finalIns, finalOuts := ins, outs;
      }
      if status == Signing {
        var complete := AllSigned();
        if complete {
          Update(Transmission, t);
          HandOver(o, t);
        }
      }
    }

    /** CheckFinalTransaction. */
    method HandOver(o: Outcome, t: Clock)
      modifies this
      ensures View() == CheckFinalTransaction(old(View()), o, t)
    {
      if !o.accepted {
        Clear(t);
        Update(Accepting, t);
        return;
      }
      if !o.signed {
        return;
      }
      Clear(t);
    }

    /** The "dsa" message. */
    method ProcessAccept(m: Accept, t: Clock)
      modifies this
      ensures View() == OnAccept(old(View()), m, t)
    {
      if !m.listed {
        return;
      }
      if sessionUsers == 0 {
        if m.recent {
          return;
        }
      }
      var ok := Accepted(m, t);
    }

    /** The "dsi" message. */
    method ProcessSubmit(m: Submit, o: Outcome, t: Clock)
      modifies this
      ensures View() == OnSubmit(old(View()), m, o, t)
    {
      if sessionUsers < POOL_MAX {
        return;
      }
      var compatible := IsCompatible(m.vout);
      if !compatible || !m.txOk {
        return;
      }
      var ok := Add(m, t);
      if ok {
        DoCheck(o, t);
      }
    }

    /** The "dss" message. */
    method ProcessSign(sigs: seq<Sig>, o: Outcome, t: Clock)
      modifies this
      ensures View() == OnSign(old(View()), sigs, o, t)
    {
      var success := false;
      var i := 0;
      while i < |sigs|
        invariant i <= |sigs|
        invariant (View(), success) == AddSigs(old(View()), sigs[..i])
      {
        assert sigs[..i + 1][..i] == sigs[..i];
        var ok := TakeSig(sigs[i].txin, sigs[i].verifies);
        if ok {
          success := true;
        }
        i := i + 1;
      }
      assert sigs[..i] == sigs;
      if success {
        DoCheck(o, t);
      }
    }

    /** The loop that erases expired entries. */
    method EraseExpired(t: Clock)
      modifies this
      ensures View() == ExpireEntries(old(View()), t)
    {
      ghost var all: seq<Entry>, done: nat := entries, 0;
      ghost var kept: seq<Entry>, rest: seq<Entry> := [], entries;
      var i := 0;
      while i < |entries|
        invariant done <= |all| && rest == all[done..] && kept == Unexpired(all[..done], t)
        invariant entries == kept + rest && i == |kept| && (all != [] ==> entries != [])
        invariant View() == old(View()).(entries := entries)
        decreases |rest|
      {
        EraseAt(kept, rest);
        UnexpiredNext(all, done, t);
        done := done + 1;
        if EntryExpired(entries[i], t) {
          entries := entries[..i] + entries[i + 1..];
          rest := rest[1..];
          if |entries| == 0 {
            assert all[..done] == all;
            Clear(t);
            return;
          }
        } else {
          kept, rest := kept + [entries[i]], rest[1..];
          i := i + 1;
        }
      }
      assert all[..done] == all && rest == [];
    }

    /** CheckTimeout. */
    method CheckTimeouts(t: Clock)
      modifies this
      ensures View() == CheckTimeout(old(View()), t)
    {
      if status == Accepting || status == Queue {
        EraseExpired(t);
        if t.ms - lastTimeChanged >= QUEUE_TIMEOUT * 1000 {
          Clear(t);
        }
      } else if t.ms - lastTimeChanged >= QUEUE_TIMEOUT * 1000 {
        Clear(t);
        Update(Error, t);
      }
      if status == Signing && t.ms - lastTimeChanged >= SIGNING_TIMEOUT * 1000 {
        Clear(t);
        Update(Error, t);
      }
    }

    /** CheckForCompleteQueue. */
    method CheckQueue(t: Clock)
      modifies this
      ensures View() == CheckForCompleteQueue(old(View()), t)
    {
      if status == Queue && sessionUsers == POOL_MAX {
        Update(Accepting, t);
      }
    }

    /** Any one message or timer call. */
    method Perform(op: Op, t: Clock)
      requires Inv(View())
      modifies this
      ensures View() == Step(old(View()), op, t) && Inv(View())
    {
      StepKeeps(View(), op, t);
      match op
      case OpAccept(a) => ProcessAccept(a, t);
      case OpSubmit(m, o) => ProcessSubmit(m, o, t);
      case OpSign(sigs, o) => ProcessSign(sigs, o, t);
      case OpTimeout => CheckTimeouts(t);
      case OpQueue => CheckQueue(t);
    }
  }
}
