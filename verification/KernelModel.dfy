/** The stake modifier of a proof-of-stake chain: when a new one is generated and from
    which blocks.  The hash function is an argument. */
module KernelModel {

  import opened Common

  const MODIFIER_INTERVAL: nat := 120
  const INTERVAL_RATIO: nat := 3

  type Hash = nat

  /** A block index entry; a chain is listed from the genesis block. */
  datatype Block = Block(hash: Hash, time: nat, proof: Hash, stake: bool, entropy: bool, modifier: nat, generated: bool)

  // --- the last modifier --------------------------------------------------------------

  /** GetLastStakeModifier: back to the genesis block at most. */
  function LastGenerating(chain: seq<Block>): Option<Block> {
    if chain == [] then None
    else
      var b := chain[|chain| - 1];
      if b.generated then Some(b) else if |chain| == 1 then None else LastGenerating(chain[..|chain| - 1])
  }

  // --- sections of the selection interval ----------------------------------------------------

  function Section(n: nat): nat
    requires n < 64
  {
    MODIFIER_INTERVAL * 63 / (63 + (63 - n) * (INTERVAL_RATIO - 1))
  }

  /** The first n sections together. */
  function Sections(n: nat): nat
    requires n <= 64
  {
    if n == 0 then 0 else Sections(n - 1) + Section(n - 1)
  }

  function IntervalStart(time: nat): int {
    (time / MODIFIER_INTERVAL) * MODIFIER_INTERVAL - Sections(64)
  }

  // --- candidates ---------------------------------------------------------------------------

  datatype Candidate = Candidate(time: nat, hash: Hash)

  /** The latest blocks back to the first one stamped before `start`, oldest first. */
  function Collected(chain: seq<Block>, start: int): seq<Candidate> {
    if chain == [] || chain[|chain| - 1].time < start then []
    else
      var b := chain[|chain| - 1];
      Collected(chain[..|chain| - 1], start) + [Candidate(b.time, b.hash)]
  }

  /** The order of pairs. */
  predicate Before(a: Candidate, b: Candidate) {
    a.time < b.time || (a.time == b.time && a.hash < b.hash)
  }

  function Insert(c: Candidate, s: seq<Candidate>): seq<Candidate> {
    if s == [] then [c]
    else if Before(s[|s| - 1], c) then s + [c]
    else Insert(c, s[..|s| - 1]) + [s[|s| - 1]]
  }

  function Sorted(s: seq<Candidate>): seq<Candidate> {
    if s == [] then [] else Insert(s[|s| - 1], Sorted(s[..|s| - 1]))
  }

  // --- one selection -----------------------------------------------------------------------

  type HashFunction = (Hash, nat) -> nat

  /** Proof-of-stake blocks are favoured by dividing their hash by 2^32. */
  function SelectionHash(f: HashFunction, b: Block, modifier: nat): nat {
    var h := f(b.proof, modifier);
    if b.stake then h / 0x1_0000_0000 else h
  }

  /** The outcome of a scan: a candidate without block, none selected, or a position. */
  datatype Scanned = Missing | Nothing | Found(p: nat)

  /** What a selection depends on. */
  datatype Setting = Setting(f: HashFunction, blocks: map<Hash, Block>, modifier: nat)

  predicate Beats(e: Setting, c: seq<Candidate>, i: nat, best: Scanned)
    requires i < |c| && c[i].hash in e.blocks
  {
    match best
    case Found(p) => p < |c| && c[p].hash in e.blocks
      && SelectionHash(e.f, e.blocks[c[i].hash], e.modifier) < SelectionHash(e.f, e.blocks[c[p].hash], e.modifier)
    case _ => true
  }

  /** SelectBlockFromCandidates, from candidate i on with the best so far. */
  function Scan(e: Setting, c: seq<Candidate>, taken: set<Hash>, stop: int, i: nat, best: Scanned): Scanned
    requires i <= |c|
    decreases |c| - i
  {
    if i == |c| then best
    else if c[i].hash !in e.blocks then Missing
    else
      var b := e.blocks[c[i].hash];
      if best.Found? && b.time > stop then best
      else if b.hash in taken then Scan(e, c, taken, stop, i + 1, best)
      else if Beats(e, c, i, best) then Scan(e, c, taken, stop, i + 1, Found(i))
      else Scan(e, c, taken, stop, i + 1, best)
  }

  // --- all rounds -----------------------------------------------------------------------------

  function Hashes(c: seq<Candidate>, ps: seq<nat>): set<Hash>
    requires forall i :: 0 <= i < |ps| ==> ps[i] < |c|
  {
    set i | 0 <= i < |ps| :: c[ps[i]].hash
  }

  predicate InRange(c: seq<Candidate>, ps: seq<nat>) {
    forall i :: 0 <= i < |ps| ==> ps[i] < |c|
  }

  /** The positions selected in the first n rounds. */
  function Rounds(e: Setting, c: seq<Candidate>, start: int, n: nat): (r: Option<seq<nat>>)
    requires n <= 64
    ensures r.Some? ==> |r.value| == n && InRange(c, r.value)
  {
    if n == 0 then Some([])
    else
      match Rounds(e, c, start, n - 1)
      case None => None
      case Some(ps) =>
        var s := Scan(e, c, Hashes(c, ps), start + Sections(n), 0, Nothing);
        if s.Found? && s.p < |c| then Some(ps + [s.p]) else None
  }

  /** Bit r of the new modifier is the entropy bit of the block of round r. */
  function Bits(e: Setting, c: seq<Candidate>, ps: seq<nat>): nat
    requires InRange(c, ps)
  {
    if ps == [] then 0
    else
      var n := |ps| - 1;
      Bits(e, c, ps[..n]) + if c[ps[n]].hash in e.blocks && e.blocks[c[ps[n]].hash].entropy then Pow2(n) else 0
  }

  function AtMost64(n: nat): nat { if n < 64 then n else 64 }

  /** ComputeNextStakeModifier for a block on top of `chain`: the modifier and whether it is
      new. */
  function Compute(f: HashFunction, blocks: map<Hash, Block>, chain: seq<Block>): Option<(nat, bool)> {
    if chain == [] then Some((0, true))
    else
      match LastGenerating(chain)
      case None => None
      case Some(last) =>
        var time := chain[|chain| - 1].time;
        if last.time / MODIFIER_INTERVAL >= time / MODIFIER_INTERVAL then Some((last.modifier, false))
        else
          var start := IntervalStart(time);
          var c := Sorted(Collected(chain, start));
          var e := Setting(f, blocks, last.modifier);
          match Rounds(e, c, start, AtMost64(|c|))
          case None => None
          case Some(ps) => Some((Bits(e, c, ps), true))
  }
}
