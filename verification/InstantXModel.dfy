/** The transaction locks of InstantX: the maps the messages change and what each
    message and clean-up does to them.  The clock, masternode ranks, signature checks,
    input ages and the mempool's answers are arguments. */
module InstantXModel {
  import opened Common
  import opened SortedSets

  const SIGNATURES_REQUIRED: int := 10
  const SIGNATURES_TOTAL: int := 15
  const TWO_256: int := 0x1_0000_0000_0000_0000_0000_0000_0000_0000_0000_0000_0000_0000_0000_0000_0000_0000

  type Hash = nat

  /** A transaction by its hash and the outputs it spends. */
  datatype Tx = Tx(hash: Hash, vin: seq<OutPoint>)

  /** A default-constructed transaction spends nothing; its hash is never looked at. */
  function EmptyTx(): Tx { Tx(0, []) }

  datatype Vote = Vote(voter: OutPoint, txHash: Hash, height: int, sig: int)

  datatype Lock = Lock(height: int, txHash: Hash, votes: seq<Vote>, expiration: int, timeout: int)

  /** What the rank and the signature check said about a vote. */
  datatype Cast = Cast(vote: Vote, rank: int, signed: bool)

  /** The maps, and in `log` every answer the oracles have given about a vote. */
  datatype State = State(
    req: map<Hash, Tx>,
    rejected: map<Hash, Tx>,
    votes: map<Hash, Vote>,
    locks: map<Hash, Lock>,
    inputs: map<OutPoint, Hash>,
    unknown: map<Hash, int>,
    log: set<Cast>)

  function Start(): State { State(map[], map[], map[], map[], map[], map[], {}) }

  /** CConsensusVote::GetHash. */
  function VoteHash(v: Vote): Hash {
    (v.voter.hash + v.voter.n + v.txHash) % TWO_256
  }

  /** The votes at the lock's own height. */
  function AtHeight(votes: seq<Vote>, height: int): (n: nat) {
    if votes == [] then 0
    else AtHeight(votes[..|votes| - 1], height) + if votes[|votes| - 1].height == height then 1 else 0
  }

  /** CTransactionLock::CountSignatures. */
  function CountSignatures(k: Lock): int {
    if k.height == 0 then -1 else AtHeight(k.votes, k.height)
  }

  // --- locked inputs ---------------------------------------------------------------

  /** Each of `vin` that has no entry yet gets one. */
  function LockInputs(inputs: map<OutPoint, Hash>, vin: seq<OutPoint>, h: Hash): map<OutPoint, Hash> {
    if vin == [] then inputs
    else
      var m := LockInputs(inputs, vin[..|vin| - 1], h);
      var o := vin[|vin| - 1];
      if o in m then m else m[o := h]
  }

  predicate Clashes(inputs: map<OutPoint, Hash>, o: OutPoint, h: Hash) {
    o in inputs && inputs[o] != h
  }

  /** The first input locked by another transaction, or the number of inputs. */
  function FirstClash(inputs: map<OutPoint, Hash>, vin: seq<OutPoint>, h: Hash): (i: nat)
    ensures i <= |vin|
  {
    if vin == [] then 0
    else if Clashes(inputs, vin[0], h) then 0
    else 1 + FirstClash(inputs, vin[1..], h)
  }

  lemma {:induction false} FirstClashIs(inputs: map<OutPoint, Hash>, vin: seq<OutPoint>, h: Hash)
    ensures var i := FirstClash(inputs, vin, h);
            && (i < |vin| ==> Clashes(inputs, vin[i], h))
            && (forall j :: 0 <= j < i ==> !Clashes(inputs, vin[j], h))
  {
    if vin != [] && !Clashes(inputs, vin[0], h) {
      FirstClashIs(inputs, vin[1..], h);
      var i := FirstClash(inputs, vin, h);
      forall j | 0 <= j < i ensures !Clashes(inputs, vin[j], h) {
        if j > 0 {
          assert vin[j] == vin[1..][j - 1];
        }
      }
    }
  }

  predicate InConflict(s: State, tx: Tx) {
    FirstClash(s.inputs, tx.vin, tx.hash) < |tx.vin|
  }

  function Expire(locks: map<Hash, Lock>, h: Hash, now: int): map<Hash, Lock> {
    if h in locks then locks[h := locks[h].(expiration := now)] else locks
  }

  /** CheckForConflictingLocks: a reported conflict lets both locks expire now. */
  function CheckForConflictingLocks(s: State, tx: Tx, now: int): State {
    var i := FirstClash(s.inputs, tx.vin, tx.hash);
    if i == |tx.vin| then s
    else
      FirstClashIs(s.inputs, tx.vin, tx.hash);
      s.(locks := Expire(Expire(s.locks, tx.hash, now), s.inputs[tx.vin[i]], now))
  }

  // --- requests -------------------------------------------------------------------

  predicate TooNew(ages: seq<int>) {
    exists i :: 0 <= i < |ages| && ages[i] < 9
  }

  /** The height a lock is voted at: the inputs are visited from the last to the first,
      and the age left over is that of the first. */
  function LockHeight(ages: seq<int>, best: int): int {
    best - (if ages == [] then 0 else ages[0]) + 4
  }

  /** CreateNewLock, given the ages of the inputs and the height of the best block. */
  function CreateNewLock(s: State, tx: Tx, ages: seq<int>, best: int, now: int): State {
    if TooNew(ages) then s
    else
      var height := LockHeight(ages, best);
      if tx.hash in s.locks then s.(locks := s.locks[tx.hash := s.locks[tx.hash].(height := height)])
      else s.(locks := s.locks[tx.hash := Lock(height, tx.hash, [], now + 20 * 60, now + 5 * 60)])
  }

  function CreatedHeight(ages: seq<int>, best: int): int {
    if TooNew(ages) then 0 else LockHeight(ages, best)
  }

  /** This node as a masternode: its rank at the height of the vote, whether the vote
      could be signed and its signature verified. */
  datatype Own = NoMasternode | Own(vin: OutPoint, rank: int, signed: bool, sig: int)

  /** DoConsensusVote. */
  function DoConsensusVote(s: State, tx: Tx, height: int, own: Own): State {
    if own.NoMasternode? || own.rank == -1 || own.rank > SIGNATURES_TOTAL || !own.signed then s
    else
      var v := Vote(own.vin, tx.hash, height, own.sig);
      s.(votes := s.votes[VoteHash(v) := v])
  }

  /** A "txlreq" message: `valid` is the answer of IsIXTXValid and the script checks,
      `accepted` that of the mempool. */
  datatype Request = Request(tx: Tx, valid: bool, ages: seq<int>, best: int, accepted: bool, own: Own)

  function TxLockRequest(s: State, m: Request, now: int): State {
    var h := m.tx.hash;
    if h in s.req || h in s.rejected || !m.valid then s
    else
      var s1 := CreateNewLock(s, m.tx, m.ages, m.best, now);
      if m.accepted then
        var s2 := DoConsensusVote(s1, m.tx, CreatedHeight(m.ages, m.best), m.own);
        s2.(req := s2.req[h := m.tx])
      else
        var s2 := s1.(rejected := s1.rejected[h := m.tx], inputs := LockInputs(s1.inputs, m.tx.vin, h));
        if h in s2.locks && CountSignatures(s2.locks[h]) >= SIGNATURES_REQUIRED
        then CheckForConflictingLocks(s2, m.tx, now) else s2
  }

  // --- votes ----------------------------------------------------------------------

  predicate Acceptable(rank: int, signed: bool) {
    rank != -1 && rank <= SIGNATURES_TOTAL && signed
  }

  /** The lock of a transaction, made at height 0 if there is none. */
  function OpenLock(s: State, h: Hash, now: int): Lock {
    if h in s.locks then s.locks[h] else Lock(0, h, [], now + 20 * 60, now + 5 * 60)
  }

  function AddSignature(s: State, v: Vote, now: int): State {
    var k := OpenLock(s, v.txHash, now);
    s.(locks := s.locks[v.txHash := k.(votes := k.votes + [v])])
  }

  /** What happens to a complete lock: looking up the request may create an empty one. */
  function Complete(s: State, h: Hash, now: int): State {
    var s1 := if h in s.req then s else s.(req := s.req[h := EmptyTx()]);
    var tx := s1.req[h];
    if InConflict(s1, tx) then CheckForConflictingLocks(s1, tx, now)
    else s1.(inputs := LockInputs(s1.inputs, tx.vin, h))
  }

  /** ProcessConsensusVote, which returns whether the vote was acceptable. */
  function ProcessConsensusVote(s: State, v: Vote, rank: int, signed: bool, now: int): State {
    var s0 := s.(log := s.log + {Cast(v, rank, signed)});
    if !Acceptable(rank, signed) then s0
    else
      var s1 := AddSignature(s0, v, now);
      if CountSignatures(s1.locks[v.txHash]) >= SIGNATURES_REQUIRED then Complete(s1, v.txHash, now) else s1
  }

  function SumOf(m: map<Hash, int>, keys: seq<Hash>): int
    requires forall k :: k in keys ==> k in m
  {
    if keys == [] then 0
    else
      assert keys[|keys| - 1] in keys;
      SumOf(m, keys[..|keys| - 1]) + m[keys[|keys| - 1]]
  }

  /** Division as in C, towards zero. */
  function Quotient(a: int, b: int): int
    requires b > 0
  {
    if a >= 0 then a / b else -((-a) / b)
  }

  /** GetAverageVoteTime. */
  function AverageVoteTime(m: map<Hash, int>): int
    requires m.Keys != {}
  {
    AscendingEnumerates(m.Keys);
    Quotient(SumOf(m, Ascending(m.Keys)), |m|)
  }

  /** The book-keeping on masternodes that vote on transactions nobody requested. */
  function NoteUnknown(m: map<Hash, int>, who: Hash, now: int): map<Hash, int> {
    var m1 := if who in m then m else m[who := now + 600];
    assert who in m1;
    if m1[who] > now && m1[who] - AverageVoteTime(m1) > 600 then m1 else m1[who := now + 600]
  }

  /** A "txlvote" message. */
  function TxLockVote(s: State, v: Vote, rank: int, signed: bool, now: int): State {
    if VoteHash(v) in s.votes then s
    else
      var s1 := ProcessConsensusVote(s.(votes := s.votes[VoteHash(v) := v]), v, rank, signed, now);
      if Acceptable(rank, signed) && v.txHash !in s1.req && v.txHash !in s1.rejected
      then s1.(unknown := NoteUnknown(s1.unknown, v.voter.hash, now)) else s1
  }

  // --- clean-up -------------------------------------------------------------------

  predicate Expired(s: State, h: Hash, now: int) {
    h in s.locks && now > s.locks[h].expiration
  }

  /** Hashes whose lock and request go. */
  function Dropped(s: State, now: int): set<Hash> {
    set h | h in s.locks && Expired(s, h, now) && h in s.req
  }

  function VoteHashes(votes: seq<Vote>): set<Hash> {
    set i | 0 <= i < |votes| :: VoteHash(votes[i])
  }

  function DroppedInputs(s: State, now: int): set<OutPoint> {
    set h, o | h in Dropped(s, now) && o in s.req[h].vin :: o
  }

  function DroppedVotes(s: State, now: int): set<Hash> {
    set h, k | h in Dropped(s, now) && k in VoteHashes(s.locks[h].votes) :: k
  }

  /** CleanTransactionLocksList in one go: expired locks go; with the request of one go
      its inputs, its rejection and its votes. */
  function CleanUp(s: State, now: int): State {
    s.(locks := map h | h in s.locks && !Expired(s, h, now) :: s.locks[h],
       req := s.req - Dropped(s, now),
       rejected := s.rejected - Dropped(s, now),
       inputs := s.inputs - DroppedInputs(s, now),
       votes := s.votes - DroppedVotes(s, now))
  }

  // --- steps ----------------------------------------------------------------------

  datatype Op =
    | OpRequest(m: Request)
    | OpVote(v: Vote, rank: int, signed: bool)
    | OpCleanUp

  function Step(s: State, op: Op, now: int): State {
    match op
    case OpRequest(m) => TxLockRequest(s, m, now)
    case OpVote(v, rank, signed) => TxLockVote(s, v, rank, signed, now)
    case OpCleanUp => CleanUp(s, now)
  }
}
