/** The mixing pool of a masternode: the session, its entries and the transaction made
    of them.  The clock, random draws, collateral and mempool checks are arguments. */
module DarksendModel {

  import opened Common

  const POOL_MAX: nat := 3
  const COIN: int := 100000000
  const QUEUE_TIMEOUT: int := 30
  const SIGNING_TIMEOUT: int := 15

  /** The denominations in use, largest first. */
  const DENOMINATIONS: seq<int> := [1000 * COIN + 1000000, 100 * COIN + 100000, 10 * COIN + 10000, COIN + 1000, COIN / 10 + 100]

  /** The POOL_STATUS values a pool can take on a masternode, and the two it cannot. */
  datatype Status = Idle | Queue | Accepting | Finalize | Signing | Transmission | Error | Success

  type Script = string

  datatype TxIn = TxIn(prevout: OutPoint, scriptSig: Script, seqNo: int, prevPubKey: Script)

  datatype TxOut = TxOut(value: int, script: Script)

  /** CTxIn's ==, which leaves the previous public key out. */
  predicate SameIn(a: TxIn, b: TxIn) {
    a.prevout == b.prevout && a.scriptSig == b.scriptSig && a.seqNo == b.seqNo
  }

  /** What signing leaves as it is. */
  datatype Key = Key(prevout: OutPoint, seqNo: int)

  function KeyOf(a: TxIn): Key { Key(a.prevout, a.seqNo) }

  /** CTxDSIn. */
  datatype DsIn = DsIn(txin: TxIn, hasSig: bool)

  /** CDarkSendEntry. */
  datatype Entry = Entry(sev: seq<DsIn>, vout: seq<TxOut>, amount: int, collateral: int, addedTime: int)

  datatype Pool = Pool(
    status: Status,
    entries: seq<Entry>,
    finalIns: seq<TxIn>,
    finalOuts: seq<TxOut>,
    users: int,
    sessionID: int,
    denom: int,
    collaterals: seq<int>,
    changed: int)

  /** Seconds and milliseconds. */
  datatype Clock = Clock(sec: int, ms: int)

  // --- denominations ---------------------------------------------------------------

  /** Some output has the value of denomination `c`. */
  predicate Used(vout: seq<TxOut>, c: nat)
    requires c < |DENOMINATIONS|
  {
    exists i :: 0 <= i < |vout| && vout[i].value == DENOMINATIONS[c]
  }

  predicate IsDenomination(v: int) { v in DENOMINATIONS }

  function Bit(b: bool, place: int): int { if b then place else 0 }

  /** GetDenominations: one bit for each denomination used, or 0 if some output is not
      one. */
  function Denominations(vout: seq<TxOut>): int {
    if exists i :: 0 <= i < |vout| && !IsDenomination(vout[i].value) then 0
    else Bit(Used(vout, 0), 1) + Bit(Used(vout, 1), 2) + Bit(Used(vout, 2), 4) + Bit(Used(vout, 3), 8) + Bit(Used(vout, 4), 16)
  }

  /** IsCompatibleWithEntries. */
  predicate IsCompatibleWithEntries(entries: seq<Entry>, vout: seq<TxOut>) {
    Denominations(vout) != 0
    && forall i :: 0 <= i < |entries| ==> Denominations(vout) == Denominations(entries[i].vout)
  }

  // --- the pool as a whole ------------------------------------------------------------

  function SetNull(p: Pool, t: Clock): Pool {
    Pool(Idle, [], [], [], 0, 0, 0, [], t.ms)
  }

  /** UpdateState on a masternode, which cannot be in error or success. */
  function UpdateState(p: Pool, s: Status, t: Clock): Pool {
    if s == Error || s == Success then p
    else p.(status := s, changed := if p.status != s then t.ms else p.changed)
  }

  // --- dsa ------------------------------------------------------------------------------

  /** A "dsa" message: `listed` whether this masternode is in the list, `recent` whether
      its last announcement is too recent, `valid` the collateral check, `id` the random
      session number. */
  datatype Accept = Accept(denom: int, collateral: int, listed: bool, recent: bool, valid: bool, id: int)

  /** IsCompatibleWithSession, which returns whether the user joined. */
  function JoinSession(p: Pool, m: Accept, t: Clock): (Pool, bool) {
    if m.denom == 0 || !m.valid then (p, false)
    else
      var p1 := if p.users < 0 then p.(users := 0) else p;
      if p1.users == 0 then
        var p2 := UpdateState(p1.(sessionID := m.id, denom := m.denom, users := 1, changed := t.ms), Queue, t);
        (p2.(collaterals := p2.collaterals + [m.collateral]), true)
      else if (p1.status != Accepting && p1.status != Queue) || p1.users >= POOL_MAX then (p1, false)
      else if m.denom != p1.denom then (p1, false)
      else (p1.(users := p1.users + 1, changed := t.ms, collaterals := p1.collaterals + [m.collateral]), true)
  }

  function OnAccept(p: Pool, m: Accept, t: Clock): Pool {
    if !m.listed || (p.users == 0 && m.recent) then p else JoinSession(p, m, t).0
  }

  // --- dsi ------------------------------------------------------------------------------

  /** A "dsi" message: `txOk` tells whether the inputs and outputs pass the checks of a
      transaction, `valid` is the collateral check. */
  datatype Submit = Submit(vin: seq<TxIn>, amount: int, collateral: int, vout: seq<TxOut>, txOk: bool, valid: bool)

  predicate Holds(entries: seq<Entry>, a: TxIn) {
    exists i, j :: 0 <= i < |entries| && 0 <= j < |entries[i].sev| && SameIn(entries[i].sev[j].txin, a)
  }

  predicate AlreadyHave(entries: seq<Entry>, vin: seq<TxIn>) {
    exists k :: 0 <= k < |vin| && Holds(entries, vin[k])
  }

  function NewEntry(m: Submit, t: Clock): Entry {
    Entry(seq(|m.vin|, i requires 0 <= i < |m.vin| => DsIn(m.vin[i], false)), m.vout, m.amount, m.collateral, t.sec)
  }

  predicate IsNull(o: OutPoint) { o.hash == 0 && o.n == 0xFFFF_FFFF }

  /** The input checks of AddEntry. */
  predicate BadInput(m: Submit) {
    exists i :: 0 <= i < |m.vin| && (IsNull(m.vin[i].prevout) || m.amount < 0)
  }

  /** AddEntry: a refused entry costs the session a user. */
  function AddEntry(p: Pool, m: Submit, t: Clock): (Pool, bool) {
    if BadInput(m) || !m.valid || |p.entries| >= POOL_MAX || AlreadyHave(p.entries, m.vin)
    then (p.(users := p.users - 1), false)
    else (p.(entries := p.entries + [NewEntry(m, t)]), true)
  }

  // --- the final transaction ----------------------------------------------------------------

  function InsOf(e: Entry): seq<TxIn> {
    seq(|e.sev|, i requires 0 <= i < |e.sev| => e.sev[i].txin)
  }

  function MergedIns(entries: seq<Entry>): seq<TxIn> {
    if entries == [] then [] else MergedIns(entries[..|entries| - 1]) + InsOf(entries[|entries| - 1])
  }

  function MergedOuts(entries: seq<Entry>): seq<TxOut> {
    if entries == [] then [] else MergedOuts(entries[..|entries| - 1]) + entries[|entries| - 1].vout
  }

  /** The draw for place `i` of a shuffle: anything from 0 to i. */
  function Pick(picks: seq<nat>, i: nat): (j: nat)
    ensures j <= i
  {
    if i < |picks| && picks[i] <= i then picks[i] else 0
  }

  function Swapped<T>(s: seq<T>, i: nat, j: nat): (r: seq<T>)
    requires i < |s| && j < |s|
    ensures |r| == |s|
  {
    s[i := s[j]][j := s[i]]
  }

  /** random_shuffle once the places before `n` have been visited. */
  function Shuffled<T>(s: seq<T>, picks: seq<nat>, n: nat): (r: seq<T>)
    requires n <= |s|
    ensures |r| == |s|
  {
    if n <= 1 then s else Swapped(Shuffled(s, picks, n - 1), n - 1, Pick(picks, n - 1))
  }

  predicate SignaturesComplete(entries: seq<Entry>) {
    forall i, j :: 0 <= i < |entries| && 0 <= j < |entries[i].sev| ==> entries[i].sev[j].hasSig
  }

  /** The draws of the two shuffles, whether the mempool accepts the final transaction,
      and whether it could be announced under this masternode's key. */
  datatype Outcome = Outcome(ins: seq<nat>, outs: seq<nat>, accepted: bool, signed: bool)

  function FinalizeTransaction(p: Pool, o: Outcome): Pool {
    var ins, outs := MergedIns(p.entries), MergedOuts(p.entries);
    p.(finalIns := Shuffled(ins, o.ins, |ins|), finalOuts := Shuffled(outs, o.outs, |outs|))
  }

  /** CheckFinalTransaction. */
  function CheckFinalTransaction(p: Pool, o: Outcome, t: Clock): Pool {
    if !o.accepted then UpdateState(SetNull(p, t), Accepting, t)
    else if !o.signed then p
    else SetNull(p, t)
  }

  /** Check, up to the hand-over of the final transaction. */
  function Advance(p: Pool, o: Outcome, t: Clock): Pool {
    var p1 := if p.status == Accepting && |p.entries| >= POOL_MAX then UpdateState(p, Finalize, t) else p;
    var p2 := if p1.status == Finalize then FinalizeTransaction(UpdateState(p1, Signing, t), o) else p1;
    if p2.status == Signing && SignaturesComplete(p2.entries) then UpdateState(p2, Transmission, t) else p2
  }

  /** Check hands the final transaction over. */
  predicate HandsOver(p: Pool, o: Outcome, t: Clock) {
    p.status != Transmission && Advance(p, o, t).status == Transmission
  }

  function Check(p: Pool, o: Outcome, t: Clock): Pool {
    var q := Advance(p, o, t);
    if HandsOver(p, o, t) then CheckFinalTransaction(q, o, t) else q
  }

  function OnSubmit(p: Pool, m: Submit, o: Outcome, t: Clock): Pool {
    if p.users < POOL_MAX || !IsCompatibleWithEntries(p.entries, m.vout) || !m.txOk then p
    else
      var (q, ok) := AddEntry(p, m, t);
      if ok then Check(q, o, t) else q
  }

  // --- dss ------------------------------------------------------------------------------

  predicate ScriptKnown(entries: seq<Entry>, s: Script) {
    exists i, j :: 0 <= i < |entries| && 0 <= j < |entries[i].sev| && entries[i].sev[j].txin.scriptSig == s
  }

  function Resigned(a: TxIn, b: TxIn): TxIn {
    a.(scriptSig := b.scriptSig, prevPubKey := b.prevPubKey)
  }

  function SignFinal(ins: seq<TxIn>, a: TxIn): (r: seq<TxIn>)
    ensures |r| == |ins|
  {
    seq(|ins|, i requires 0 <= i < |ins| => if KeyOf(ins[i]) == KeyOf(a) then Resigned(ins[i], a) else ins[i])
  }

  /** The first input of an entry with the key, or their number. */
  function FirstIn(sev: seq<DsIn>, k: Key): (i: nat)
    ensures i <= |sev|
  {
    if sev == [] then 0 else if KeyOf(sev[0].txin) == k then 0 else 1 + FirstIn(sev[1..], k)
  }

  /** AddSig: signs the first input with the key unless it is signed. */
  predicate CanSign(e: Entry, a: TxIn) {
    var i := FirstIn(e.sev, KeyOf(a));
    i < |e.sev| && !e.sev[i].hasSig
  }

  function AddSig(e: Entry, a: TxIn): Entry {
    if CanSign(e, a) then
      var i := FirstIn(e.sev, KeyOf(a));
      e.(sev := e.sev[i := DsIn(Resigned(e.sev[i].txin, a), true)])
    else e
  }

  /** The first entry that takes the signature, or their number. */
  function FirstEntry(entries: seq<Entry>, a: TxIn): (i: nat)
    ensures i <= |entries|
  {
    if entries == [] then 0 else if CanSign(entries[0], a) then 0 else 1 + FirstEntry(entries[1..], a)
  }

  /** SignatureValid: an input of an entry that equals `a` is put to the script check,
      whose answer is `verifies`; without one there is nothing to check. */
  predicate SignatureValid(entries: seq<Entry>, a: TxIn, verifies: bool) {
    !Holds(entries, a) || verifies
  }

  /** AddScriptSig, which returns whether an entry took the signature. */
  function AddScriptSig(p: Pool, a: TxIn, verifies: bool): (Pool, bool) {
    if ScriptKnown(p.entries, a.scriptSig) || !SignatureValid(p.entries, a, verifies) then (p, false)
    else
      var q := p.(finalIns := SignFinal(p.finalIns, a));
      var i := FirstEntry(p.entries, a);
      if i < |p.entries| then (q.(entries := p.entries[i := AddSig(p.entries[i], a)]), true) else (q, false)
  }

  /** A signature of a "dss" message with the answer of the script check. */
  datatype Sig = Sig(txin: TxIn, verifies: bool)

  /** All signatures of the message in turn; whether any was taken. */
  function AddSigs(p: Pool, sigs: seq<Sig>): (Pool, bool) {
    if sigs == [] then (p, false)
    else
      var (q, some) := AddSigs(p, sigs[..|sigs| - 1]);
      var s := sigs[|sigs| - 1];
      var (r, ok) := AddScriptSig(q, s.txin, s.verifies);
      (r, some || ok)
  }

  function OnSign(p: Pool, sigs: seq<Sig>, o: Outcome, t: Clock): Pool {
    var (q, some) := AddSigs(p, sigs);
    if some then Check(q, o, t) else q
  }

  // --- timers ------------------------------------------------------------------------------

  predicate EntryExpired(e: Entry, t: Clock) { t.sec - e.addedTime > QUEUE_TIMEOUT }

  function Unexpired(entries: seq<Entry>, t: Clock): seq<Entry> {
    if entries == [] then []
    else
      var e := entries[|entries| - 1];
      Unexpired(entries[..|entries| - 1], t) + if EntryExpired(e, t) then [] else [e]
  }

  /** Erasing or keeping the element after `kept`. */
  lemma EraseAt<T>(kept: seq<T>, rest: seq<T>)
    requires rest != []
    ensures (kept + rest)[|kept|] == rest[0]
    ensures (kept + rest)[..|kept|] + (kept + rest)[|kept| + 1..] == kept + rest[1..]
    ensures kept + rest == kept + [rest[0]] + rest[1..]
  {
  }

  lemma UnexpiredNext(all: seq<Entry>, n: nat, t: Clock)
    requires n < |all|
    ensures Unexpired(all[..n + 1], t) == Unexpired(all[..n], t) + if EntryExpired(all[n], t) then [] else [all[n]]
    ensures all[n..][1..] == all[n + 1..]
  {
    assert all[..n + 1][..n] == all[..n];
  }

  function ExpireEntries(p: Pool, t: Clock): Pool {
    var rest := Unexpired(p.entries, t);
    if p.entries != [] && rest == [] then SetNull(p, t) else p.(entries := rest)
  }

  /** CheckTimeout, the part about the pool. */
  function CheckTimeout(p: Pool, t: Clock): Pool {
    var p1 :=
      if p.status == Accepting || p.status == Queue then
        var q := ExpireEntries(p, t);
        if t.ms - q.changed >= QUEUE_TIMEOUT * 1000 then SetNull(q, t) else q
      else if t.ms - p.changed >= QUEUE_TIMEOUT * 1000 then UpdateState(SetNull(p, t), Error, t)
      else p;
    if p1.status == Signing && t.ms - p1.changed >= SIGNING_TIMEOUT * 1000 then UpdateState(SetNull(p1, t), Error, t) else p1
  }

  function CheckForCompleteQueue(p: Pool, t: Clock): Pool {
    if p.status == Queue && p.users == POOL_MAX then UpdateState(p, Accepting, t) else p
  }

  // --- steps ------------------------------------------------------------------------------

  datatype Op =
    | OpAccept(a: Accept)
    | OpSubmit(m: Submit, o: Outcome)
    | OpSign(sigs: seq<Sig>, out: Outcome)
    | OpTimeout
    | OpQueue

  function Step(p: Pool, op: Op, t: Clock): Pool {
    match op
    case OpAccept(a) => OnAccept(p, a, t)
    case OpSubmit(m, o) => OnSubmit(p, m, o, t)
    case OpSign(sigs, o) => OnSign(p, sigs, o, t)
    case OpTimeout => CheckTimeout(p, t)
    case OpQueue => CheckForCompleteQueue(p, t)
  }
}
