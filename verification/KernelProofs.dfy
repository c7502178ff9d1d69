/** What the selection of blocks guarantees, and what holds on every chain grown by it. */
module KernelProofs {
  import opened Common
  import opened KernelModel
  import opened Radix
  import opened SortedSets

  // --- sections -------------------------------------------------------------------------

  lemma SectionTerms(n: nat)
    requires n < 64
    ensures 63 + (63 - n) * (INTERVAL_RATIO - 1) == 189 - 2 * n && Section(n) == 7560 / (189 - 2 * n)
  {
  }

  lemma Fits(a: nat, d: nat, q: nat, r: nat, m: nat)
    requires a == d * r + m && m < d && d * q <= a
    ensures q <= r
  {
    if r + 1 <= q {
      Times(r + 1, q, d);
    }
  }

  lemma QuotientGrows(a: nat, b: nat, d: nat)
    requires 0 < d <= b
    ensures a / b <= a / d
  {
    var q, r := a / b, a / d;
    assert a == b * q + a % b && a == d * r + a % d;
    Times(d, b, q);
    Fits(a, d, q, r, a % d);
  }

  /** Later sections are at least as long, the last one INTERVAL_RATIO times the first. */
  lemma SectionsGrow(n: nat)
    requires n < 63
    ensures 0 < Section(n) <= Section(n + 1) && Section(63) == INTERVAL_RATIO * Section(0)
  {
    SectionTerms(n);
    SectionTerms(n + 1);
    QuotientGrows(7560, 189 - 2 * n, 189 - 2 * (n + 1));
    QuotientGrows(7560, 189, 189 - 2 * n);
  }

  /** Section n is the interval of 120 seconds times 63, divided by 63 + 2 (63 - n). */
  lemma SectionIs(n: nat)
    requires n < 64
    ensures Section(n) * (63 + 2 * (63 - n)) <= 120 * 63 < (Section(n) + 1) * (63 + 2 * (63 - n))
  {
    SectionTerms(n);
    QuotientBounds(7560, 189 - 2 * n);
  }

  lemma QuotientBounds(a: nat, d: nat)
    requires d > 0
    ensures (a / d) * d <= a < (a / d + 1) * d
  {
    assert a == d * (a / d) + a % d;
  }

  lemma {:induction false} SectionsBelow(n: nat, m: nat)
    requires n < m <= 64
    ensures Sections(n) < Sections(m)
  {
    if m - 1 < 63 {
      SectionsGrow(m - 1);
    }
    if n < m - 1 {
      SectionsBelow(n, m - 1);
    }
  }

  /** The rounds stop later and later, none after the start of the current interval, and
      exactly there only the last one. */
  lemma RoundsStop(time: nat, n: nat)
    requires n <= 64
    ensures var current := (time / MODIFIER_INTERVAL) * MODIFIER_INTERVAL;
            && IntervalStart(time) + Sections(n) <= current
            && (IntervalStart(time) + Sections(n) == current <==> n == 64)
            && (n < 64 ==> IntervalStart(time) + Sections(n) < IntervalStart(time) + Sections(n + 1))
  {
    if n < 64 {
      SectionsBelow(n, 64);
      SectionsBelow(n, n + 1);
    }
  }

  // --- sorting ---------------------------------------------------------------------------

  ghost predicate Ascending(s: seq<Candidate>) {
    forall i, j :: 0 <= i < j < |s| ==> !Before(s[j], s[i])
  }

  lemma {:induction false} InsertKeeps(c: Candidate, s: seq<Candidate>)
    ensures multiset(Insert(c, s)) == multiset(s) + multiset{c}
  {
    if s != [] && !Before(s[|s| - 1], c) {
      InsertKeeps(c, s[..|s| - 1]);
      assert s == s[..|s| - 1] + [s[|s| - 1]];
    }
  }

  lemma {:induction false} InsertFrom(c: Candidate, s: seq<Candidate>, i: nat)
    requires i < |Insert(c, s)|
    ensures Insert(c, s)[i] == c || Insert(c, s)[i] in s
  {
    InsertKeeps(c, s);
    assert Insert(c, s)[i] in multiset(Insert(c, s));
  }

  lemma {:induction false} InsertSorts(c: Candidate, s: seq<Candidate>)
    requires Ascending(s)
    ensures Ascending(Insert(c, s))
  {
    if s != [] && !Before(s[|s| - 1], c) {
      var n := |s| - 1;
      InsertSorts(c, s[..n]);
      var r: seq<Candidate> := Insert(c, s[..n]);
      forall i | 0 <= i < |r| ensures !Before(s[n], r[i]) {
        InsertFrom(c, s[..n], i);
      }
    }
  }

  lemma {:induction false} SortedSorts(s: seq<Candidate>)
    ensures Ascending(Sorted(s)) && multiset(Sorted(s)) == multiset(s)
  {
    if s != [] {
      var n := |s| - 1;
      SortedSorts(s[..n]);
      InsertSorts(s[n], Sorted(s[..n]));
      InsertKeeps(s[n], Sorted(s[..n]));
      LastCounts(s);
    }
  }

  lemma LastCounts<T>(s: seq<T>)
    requires s != []
    ensures multiset(s) == multiset(s[..|s| - 1]) + multiset{s[|s| - 1]}
  {
    assert s == s[..|s| - 1] + [s[|s| - 1]];
  }

  // --- one selection -----------------------------------------------------------------------

  /** Every candidate is indexed under its hash with its time. */
  ghost predicate Indexed(e: Setting, c: seq<Candidate>) {
    forall i :: 0 <= i < |c| ==> c[i].hash in e.blocks && e.blocks[c[i].hash].hash == c[i].hash && e.blocks[c[i].hash].time == c[i].time
  }

  function SH(e: Setting, c: seq<Candidate>, i: nat): nat
    requires i < |c| && Indexed(e, c)
  {
    SelectionHash(e.f, e.blocks[c[i].hash], e.modifier)
  }

  predicate Eligible(c: seq<Candidate>, taken: set<Hash>, stop: int, i: nat)
    requires i < |c|
  {
    c[i].hash !in taken && c[i].time <= stop
  }

  /** The pick among candidates before `n`: the smallest selection hash among the free ones
      stamped no later than the stop time, the earliest on ties; without any, the earliest
      free one. */
  ghost predicate IsPick(e: Setting, c: seq<Candidate>, taken: set<Hash>, stop: int, n: nat, p: nat)
    requires n <= |c| && Indexed(e, c)
  {
    && p < n && c[p].hash !in taken
    && (if exists q :: 0 <= q < n && Eligible(c, taken, stop, q) then
          c[p].time <= stop
          && forall q :: 0 <= q < n && Eligible(c, taken, stop, q) ==> SH(e, c, p) < SH(e, c, q) || (SH(e, c, p) == SH(e, c, q) && p <= q)
        else
          forall q :: 0 <= q < n && c[q].hash !in taken ==> p <= q)
  }

  /** What the scan has found before candidate i. */
  ghost predicate SoFar(e: Setting, c: seq<Candidate>, taken: set<Hash>, stop: int, i: nat, best: Scanned)
    requires i <= |c| && Indexed(e, c)
  {
    match best
    case Missing => false
    case Nothing => forall q :: 0 <= q < i ==> c[q].hash in taken
    case Found(p) => IsPick(e, c, taken, stop, i, p)
  }

  /** From the first candidate after the stop time on, none is eligible. */
  lemma StopsHere(e: Setting, c: seq<Candidate>, taken: set<Hash>, stop: int, i: nat, p: nat)
    requires i < |c| && Indexed(e, c) && Ascending(c) && c[i].time > stop && IsPick(e, c, taken, stop, i, p)
    ensures IsPick(e, c, taken, stop, |c|, p)
  {
    forall q | i <= q < |c| ensures c[q].time > stop {
      if q > i {
        assert !Before(c[q], c[i]);
      }
    }
  }

  lemma SkipTaken(e: Setting, c: seq<Candidate>, taken: set<Hash>, stop: int, i: nat, best: Scanned)
    requires i < |c| && Indexed(e, c) && SoFar(e, c, taken, stop, i, best) && c[i].hash in taken
    ensures SoFar(e, c, taken, stop, i + 1, best)
  {
  }

  lemma TakeBetter(e: Setting, c: seq<Candidate>, taken: set<Hash>, stop: int, i: nat, best: Scanned)
    requires i < |c| && Indexed(e, c) && SoFar(e, c, taken, stop, i, best) && c[i].hash !in taken
    requires Beats(e, c, i, best) && (best.Found? ==> c[i].time <= stop)
    ensures SoFar(e, c, taken, stop, i + 1, Found(i))
  {
    assert best.Found? ==> Eligible(c, taken, stop, i);
  }

  lemma KeepBest(e: Setting, c: seq<Candidate>, taken: set<Hash>, stop: int, i: nat, p: nat)
    requires i < |c| && Indexed(e, c) && Ascending(c) && IsPick(e, c, taken, stop, i, p)
    requires !Beats(e, c, i, Found(p)) && c[i].time <= stop
    ensures IsPick(e, c, taken, stop, i + 1, p)
  {
    assert !Before(c[i], c[p]);
  }

  lemma {:induction false} ScanPicks(e: Setting, c: seq<Candidate>, taken: set<Hash>, stop: int, i: nat, best: Scanned)
    requires i <= |c| && Indexed(e, c) && Ascending(c) && SoFar(e, c, taken, stop, i, best)
    ensures SoFar(e, c, taken, stop, |c|, Scan(e, c, taken, stop, i, best))
    decreases |c| - i
  {
    if i < |c| {
      if best.Found? && c[i].time > stop {
        StopsHere(e, c, taken, stop, i, best.p);
      } else if c[i].hash in taken {
        SkipTaken(e, c, taken, stop, i, best);
        ScanPicks(e, c, taken, stop, i + 1, best);
      } else if Beats(e, c, i, best) {
        TakeBetter(e, c, taken, stop, i, best);
        ScanPicks(e, c, taken, stop, i + 1, Found(i));
      } else {
        KeepBest(e, c, taken, stop, i, best.p);
        ScanPicks(e, c, taken, stop, i + 1, best);
      }
    }
  }

  // --- all rounds ---------------------------------------------------------------------------

  ghost predicate HashesDiffer(c: seq<Candidate>) {
    forall i, j :: 0 <= i < j < |c| ==> c[i].hash != c[j].hash
  }

  ghost predicate NoRepeat(ps: seq<nat>) {
    forall i, j :: 0 <= i < j < |ps| ==> ps[i] != ps[j]
  }

  function Below(k: nat): set<nat> { if k == 0 then {} else Below(k - 1) + {k - 1} }

  lemma {:induction false} BelowIs(k: nat)
    ensures |Below(k)| == k && forall i :: i in Below(k) <==> 0 <= i < k
  {
    if k > 0 {
      BelowIs(k - 1);
    }
  }

  /** Fewer picks than candidates leave one free. */
  lemma FreeCandidate(c: seq<Candidate>, ps: seq<nat>) returns (i: nat)
    requires HashesDiffer(c) && InRange(c, ps) && |ps| < |c|
    ensures i < |c| && c[i].hash !in Hashes(c, ps)
  {
    BelowIs(|c|);
    ElementsSize(ps);
    if Below(|c|) <= Elements(ps) {
      SubsetSmaller(Below(|c|), Elements(ps));
    }
    i :| i in Below(|c|) && i !in Elements(ps);
    forall j | 0 <= j < |ps| ensures c[ps[j]].hash != c[i].hash {
      assert ps[j] in ps;
    }
  }

  /** Round by round: each pick is the best of the candidates not picked before. */
  ghost predicate PicksOk(e: Setting, c: seq<Candidate>, start: int, ps: seq<nat>)
    requires Indexed(e, c)
  {
    ps == [] ||
    (var r := |ps| - 1;
     r < 64 && InRange(c, ps[..r]) && PicksOk(e, c, start, ps[..r])
     && IsPick(e, c, Hashes(c, ps[..r]), start + Sections(r + 1), |c|, ps[r]))
  }

  lemma {:induction false} RoundsPick(e: Setting, c: seq<Candidate>, start: int, n: nat) returns (ps: seq<nat>)
    requires Indexed(e, c) && Ascending(c) && HashesDiffer(c) && n <= |c| && n <= 64
    ensures Rounds(e, c, start, n) == Some(ps) && |ps| == n && InRange(c, ps)
    ensures PicksOk(e, c, start, ps) && NoRepeat(ps)
  {
    if n == 0 {
      ps := [];
    } else {
      var front := RoundsPick(e, c, start, n - 1);
      var p := RoundPicks(e, c, start, n, front);
      PicksAppend(e, c, start, front, p);
      RoundAppends(e, c, start, n, front, p);
      ps := front + [p];
    }
  }

  lemma RoundAppends(e: Setting, c: seq<Candidate>, start: int, n: nat, ps: seq<nat>, p: nat)
    requires 0 < n <= 64 && Rounds(e, c, start, n - 1) == Some(ps) && p < |c|
    requires InRange(c, ps) && Scan(e, c, Hashes(c, ps), start + Sections(n), 0, Nothing) == Found(p)
    ensures Rounds(e, c, start, n) == Some(ps + [p])
  {
  }

  lemma RoundPicks(e: Setting, c: seq<Candidate>, start: int, n: nat, ps: seq<nat>) returns (p: nat)
    requires Indexed(e, c) && Ascending(c) && HashesDiffer(c) && 0 < n <= |c| && n <= 64
    requires InRange(c, ps) && |ps| == n - 1
    ensures Scan(e, c, Hashes(c, ps), start + Sections(n), 0, Nothing) == Found(p)
    ensures IsPick(e, c, Hashes(c, ps), start + Sections(n), |c|, p)
  {
    var taken, stop := Hashes(c, ps), start + Sections(n);
    var i := FreeCandidate(c, ps);
    ScanPicks(e, c, taken, stop, 0, Nothing);
    p := Scan(e, c, taken, stop, 0, Nothing).p;
  }

  lemma PicksAppend(e: Setting, c: seq<Candidate>, start: int, ps: seq<nat>, p: nat)
    requires Indexed(e, c) && InRange(c, ps) && PicksOk(e, c, start, ps) && NoRepeat(ps) && |ps| < 64
    requires IsPick(e, c, Hashes(c, ps), start + Sections(|ps| + 1), |c|, p)
    ensures PicksOk(e, c, start, ps + [p]) && NoRepeat(ps + [p])
  {
    assert (ps + [p])[..|ps|] == ps;
    forall j | 0 <= j < |ps| ensures ps[j] != p {
      assert c[ps[j]].hash in Hashes(c, ps);
    }
  }

  // --- the bits ----------------------------------------------------------------------------

  /** Bit r of a number. */
  predicate BitSet(v: nat, r: nat) { if r == 0 then v % 2 == 1 else BitSet(v / 2, r - 1) }

  lemma {:induction false} BitsBound(e: Setting, c: seq<Candidate>, ps: seq<nat>)
    requires InRange(c, ps)
    ensures Bits(e, c, ps) < Pow2(|ps|)
  {
    if ps != [] {
      BitsBound(e, c, ps[..|ps| - 1]);
    }
  }

  /** A power of two added on top leaves the lower bits as they are. */
  lemma {:induction false} TopBit(v: nat, n: nat, top: bool, r: nat)
    requires v < Pow2(n) && r <= n
    ensures BitSet(v + if top then Pow2(n) else 0, r) <==> if r == n then top else BitSet(v, r)
  {
    var w := v + if top then Pow2(n) else 0;
    if n > 0 {
      assert w % 2 == v % 2 && w / 2 == v / 2 + if top then Pow2(n - 1) else 0;
      if r > 0 {
        TopBit(v / 2, n - 1, top, r - 1);
      }
    }
  }

  lemma {:induction false} NoHighBits(v: nat, n: nat, r: nat)
    requires v < Pow2(n) && n <= r
    ensures !BitSet(v, r)
  {
    if r > 0 {
      NoHighBits(v / 2, if n > 0 then n - 1 else 0, r - 1);
    }
  }

  /** Bit r is the entropy bit of pick r, and there are no bits beyond the last pick. */
  lemma {:induction false} BitsAre(e: Setting, c: seq<Candidate>, ps: seq<nat>, r: nat)
    requires InRange(c, ps) && Indexed(e, c)
    ensures BitSet(Bits(e, c, ps), r) <==> r < |ps| && e.blocks[c[ps[r]].hash].entropy
  {
    if r >= |ps| {
      BitsBound(e, c, ps);
      NoHighBits(Bits(e, c, ps), |ps|, r);
    } else {
      var n := |ps| - 1;
      BitsBound(e, c, ps[..n]);
      TopBit(Bits(e, c, ps[..n]), n, e.blocks[c[ps[n]].hash].entropy, r);
      if r < n {
        BitsAre(e, c, ps[..n], r);
      }
    }
  }

  // --- chains --------------------------------------------------------------------------------

  /** Every block of the chain is indexed under its own hash. */
  ghost predicate Known(blocks: map<Hash, Block>, chain: seq<Block>) {
    && (forall i :: 0 <= i < |chain| ==> chain[i].hash in blocks && blocks[chain[i].hash] == chain[i])
    && (forall i, j :: 0 <= i < j < |chain| ==> chain[i].hash != chain[j].hash)
  }

  function CandidateOf(b: Block): Candidate { Candidate(b.time, b.hash) }

  lemma {:induction false} CollectedFrom(chain: seq<Block>, start: int)
    ensures |Collected(chain, start)| <= |chain|
    ensures forall i :: 0 <= i < |Collected(chain, start)| ==>
              Collected(chain, start)[i] == CandidateOf(chain[|chain| - |Collected(chain, start)| + i])
  {
    if chain != [] && chain[|chain| - 1].time >= start {
      var n := |chain| - 1;
      CollectedFrom(chain[..n], start);
    }
  }

  /** The candidates are the longest part at the end of the chain in which no block is
      stamped before the start. */
  lemma {:induction false} CandidatesAre(chain: seq<Block>, start: int) returns (from: nat)
    ensures from <= |chain| && |Collected(chain, start)| == |chain| - from
    ensures forall i :: 0 <= i < |chain| - from ==> Collected(chain, start)[i] == CandidateOf(chain[from + i])
    ensures forall i :: from <= i < |chain| ==> chain[i].time >= start
    ensures from > 0 ==> chain[from - 1].time < start
  {
    if chain == [] || chain[|chain| - 1].time < start {
      from := |chain|;
    } else {
      from := CandidatesAre(chain[..|chain| - 1], start);
    }
  }

  lemma {:induction false} CountOnce(c: seq<Candidate>, x: Candidate)
    requires HashesDiffer(c)
    ensures multiset(c)[x] <= 1
  {
    if c != [] {
      var n := |c| - 1;
      assert c == c[..n] + [c[n]];
      CountOnce(c[..n], x);
      if x == c[n] {
        forall i | 0 <= i < n ensures c[..n][i] != x {
        }
        assert x !in multiset(c[..n]);
      }
    }
  }

  lemma CountTwice(c: seq<Candidate>, i: nat, j: nat)
    requires i < j < |c| && c[i] == c[j]
    ensures multiset(c)[c[i]] >= 2
  {
    assert c == c[..j] + c[j..];
    assert c[..j][i] == c[i] && c[j..][0] == c[i];
    assert c[i] in c[..j] && c[i] in c[j..];
  }

  /** Sorting keeps the hashes different. */
  lemma SortedDiffer(c: seq<Candidate>, s: seq<Candidate>)
    requires HashesDiffer(c) && multiset(c) == multiset(s)
    ensures HashesDiffer(s)
  {
    forall i, j | 0 <= i < j < |s| ensures s[i].hash != s[j].hash {
      CountOnce(c, s[i]);
      if s[i] == s[j] {
        CountTwice(s, i, j);
      }
      assert s[i] in multiset(c) && s[j] in multiset(c);
      var a :| 0 <= a < |c| && c[a] == s[i];
      var b :| 0 <= b < |c| && c[b] == s[j];
    }
  }

  /** The sorted candidates of a known chain. */
  lemma {:induction false} CandidatesOk(e: Setting, chain: seq<Block>, start: int)
    requires Known(e.blocks, chain)
    ensures var c := Sorted(Collected(chain, start)); Indexed(e, c) && Ascending(c) && HashesDiffer(c)
  {
    var raw := Collected(chain, start);
    CollectedFrom(chain, start);
    SortedSorts(raw);
    var c := Sorted(raw);
    forall i | 0 <= i < |c| ensures c[i].hash in e.blocks && e.blocks[c[i].hash].hash == c[i].hash && e.blocks[c[i].hash].time == c[i].time {
      assert c[i] in multiset(raw);
      var a :| 0 <= a < |raw| && raw[a] == c[i];
    }
    SortedDiffer(raw, c);
  }

  /** `v` is the modifier that the picks `ps` make: one bit for each round, the entropy bit
      of the block picked in it, and zeros beyond the last round. */
  ghost predicate Selects(e: Setting, c: seq<Candidate>, start: int, ps: seq<nat>, v: nat) {
    && Indexed(e, c) && InRange(c, ps) && |ps| == (if |c| < 64 then |c| else 64)
    && PicksOk(e, c, start, ps) && NoRepeat(ps) && v < Pow2(|ps|)
    && (forall b: nat :: BitSet(v, b) <==> b < |ps| && e.blocks[c[ps[b]].hash].entropy)
  }

  lemma {:induction false} SelectionOk(e: Setting, chain: seq<Block>, start: int)
    requires Known(e.blocks, chain)
    ensures var c := Sorted(Collected(chain, start));
            var ps := Rounds(e, c, start, AtMost64(|c|));
            ps.Some? && Selects(e, c, start, ps.value, Bits(e, c, ps.value))
  {
    var c := Sorted(Collected(chain, start));
    CandidatesOk(e, chain, start);
    var ps := RoundsPick(e, c, start, AtMost64(|c|));
    BitsBound(e, c, ps);
    forall b: nat ensures BitSet(Bits(e, c, ps), b) <==> b < |ps| && e.blocks[c[ps[b]].hash].entropy {
      BitsAre(e, c, ps, b);
    }
  }

  /** On a known chain with a generated modifier the computation never fails; a new modifier
      is what the picks of the rounds make. */
  lemma {:induction false} ComputeSelects(f: HashFunction, blocks: map<Hash, Block>, chain: seq<Block>) returns (ps: seq<nat>)
    requires chain != [] && Known(blocks, chain) && LastGenerating(chain).Some?
    ensures Compute(f, blocks, chain).Some?
    ensures Compute(f, blocks, chain).value.1 ==>
              var start := IntervalStart(chain[|chain| - 1].time);
              Selects(Setting(f, blocks, LastGenerating(chain).value.modifier), Sorted(Collected(chain, start)), start, ps,
                      Compute(f, blocks, chain).value.0)
  {
    var start := IntervalStart(chain[|chain| - 1].time);
    var e := Setting(f, blocks, LastGenerating(chain).value.modifier);
    SelectionOk(e, chain, start);
    var c := Sorted(Collected(chain, start));
    ps := Rounds(e, c, start, AtMost64(|c|)).value;
  }

  /** A new modifier is generated exactly if the last block lies in a later interval than
      the last one that generated; otherwise that one's modifier is kept. */
  lemma {:induction false} NewWhenLater(f: HashFunction, blocks: map<Hash, Block>, chain: seq<Block>, g: nat)
    requires IsLastGenerating(chain, g) && Known(blocks, chain)
    ensures Compute(f, blocks, chain).Some?
    ensures var (v, new_) := Compute(f, blocks, chain).value;
            && (new_ <==> chain[g].time / MODIFIER_INTERVAL < chain[|chain| - 1].time / MODIFIER_INTERVAL)
            && (!new_ ==> v == chain[g].modifier)
  {
    LastGeneratingIs(chain, g);
    var ps := ComputeSelects(f, blocks, chain);
  }

  /** The genesis block generates the modifier 0. */
  lemma GenesisGenerates(f: HashFunction, blocks: map<Hash, Block>)
    ensures Compute(f, blocks, []) == Some((0, true))
  {
  }

  /** Proof-of-stake blocks have their selection hash divided by 2^32. */
  lemma StakeIsFavoured(f: HashFunction, b: Block, modifier: nat)
    ensures var h, s := f(b.proof, modifier), SelectionHash(f, b, modifier);
            if b.stake then s * 0x1_0000_0000 <= h < (s + 1) * 0x1_0000_0000 else s == h
  {
    QuotientBounds(f(b.proof, modifier), 0x1_0000_0000);
  }

  /** A chain on which every block got its modifier from the computation, whatever blocks
      were indexed at the time. */
  ghost predicate Grown(f: HashFunction, chain: seq<Block>) {
    chain != [] &&
    (var n := |chain| - 1;
     if n == 0 then chain[0].modifier == 0 && chain[0].generated
     else Grown(f, chain[..n]) && exists blocks :: Compute(f, blocks, chain[..n]) == Some((chain[n].modifier, chain[n].generated)))
  }

  /** The nearest generating block, the last block itself included. */
  ghost predicate IsLastGenerating(chain: seq<Block>, g: nat) {
    g < |chain| && chain[g].generated && forall i :: g < i < |chain| ==> !chain[i].generated
  }

  lemma {:induction false} LastGeneratingIs(chain: seq<Block>, g: nat)
    requires IsLastGenerating(chain, g)
    ensures LastGenerating(chain) == Some(chain[g])
  {
    var n := |chain| - 1;
    if g < n {
      assert IsLastGenerating(chain[..n], g);
      LastGeneratingIs(chain[..n], g);
    }
  }

  /** On a grown chain the last modifier is always found, and it is the modifier of the last
      block; a generating block lies in an earlier interval than the parent of the next. */
  lemma {:induction false} GrownChain(f: HashFunction, chain: seq<Block>) returns (g: nat)
    requires Grown(f, chain)
    ensures IsLastGenerating(chain, g) && LastGenerating(chain) == Some(chain[g])
    ensures chain[|chain| - 1].modifier == chain[g].modifier
  {
    var n := |chain| - 1;
    if n == 0 {
      g := 0;
    } else {
      g := GrownChain(f, chain[..n]);
      if chain[n].generated {
        g := n;
      }
    }
    LastGeneratingIs(chain, g);
  }

  /** Every block has the modifier of its nearest generating ancestor. */
  lemma {:induction false} ModifierOfAncestor(f: HashFunction, chain: seq<Block>, i: nat) returns (g: nat)
    requires Grown(f, chain) && i < |chain|
    ensures g <= i && chain[g].generated && (forall k :: g < k <= i ==> !chain[k].generated)
    ensures chain[i].modifier == chain[g].modifier
  {
    GrownPrefix(f, chain, i + 1);
    g := GrownChain(f, chain[..i + 1]);
    forall k | g < k <= i ensures !chain[k].generated {
      assert chain[k] == chain[..i + 1][k];
    }
  }

  lemma {:induction false} GrownPrefix(f: HashFunction, chain: seq<Block>, n: nat)
    requires Grown(f, chain) && 0 < n <= |chain|
    ensures Grown(f, chain[..n])
  {
    if n == |chain| {
      assert chain[..n] == chain;
    } else {
      GrownPrefix(f, chain[..|chain| - 1], n);
      assert chain[..|chain| - 1][..n] == chain[..n];
    }
  }

  /** Two generating blocks with none in between: the first one's interval is before that of
      the second one's parent. */
  lemma {:induction false} GeneratedApart(f: HashFunction, chain: seq<Block>, g: nat, i: nat)
    requires Grown(f, chain) && g < i < |chain| && chain[g].generated && chain[i].generated
    requires forall k :: g < k < i ==> !chain[k].generated
    ensures chain[g].time / MODIFIER_INTERVAL < chain[i - 1].time / MODIFIER_INTERVAL
  {
    GrownPrefix(f, chain, i + 1);
    var p := chain[..i + 1];
    assert p[..i] == chain[..i];
    assert IsLastGenerating(p[..i], g);
    GeneratedNext(f, p, i, g);
  }

  /** A chain whose last block generated a modifier. */
  lemma {:induction false} GeneratedNext(f: HashFunction, p: seq<Block>, i: nat, g: nat)
    requires 0 < i && |p| == i + 1 && Grown(f, p) && p[i].generated && IsLastGenerating(p[..i], g)
    ensures p[g].time / MODIFIER_INTERVAL < p[i - 1].time / MODIFIER_INTERVAL
  {
    LastGeneratingIs(p[..i], g);
    var blocks :| Compute(f, blocks, p[..i]) == Some((p[i].modifier, p[i].generated));
    NewModifierLater(f, blocks, p[..i], p[i].modifier);
  }

  lemma NewModifierLater(f: HashFunction, blocks: map<Hash, Block>, chain: seq<Block>, v: nat)
    requires chain != [] && LastGenerating(chain).Some? && Compute(f, blocks, chain) == Some((v, true))
    ensures LastGenerating(chain).value.time / MODIFIER_INTERVAL < chain[|chain| - 1].time / MODIFIER_INTERVAL
  {
  }

  /** Block n was added when the blocks before it were indexed. */
  ghost predicate Adds(f: HashFunction, blocks: map<Hash, Block>, chain: seq<Block>, n: nat)
    requires n < |chain|
  {
    Known(blocks, chain[..n]) && Compute(f, blocks, chain[..n]) == Some((chain[n].modifier, chain[n].generated))
  }

  /** A grown chain whose blocks were all indexed when a block was added. */
  ghost predicate GrownKnown(f: HashFunction, chain: seq<Block>) {
    chain != [] &&
    (var n := |chain| - 1;
     if n == 0 then chain[0].modifier == 0 && chain[0].generated
     else GrownKnown(f, chain[..n]) && exists blocks :: Adds(f, blocks, chain, n))
  }

  lemma {:induction false} KnownPrefix(f: HashFunction, chain: seq<Block>, n: nat)
    requires GrownKnown(f, chain) && 0 < n <= |chain|
    ensures GrownKnown(f, chain[..n])
  {
    if n == |chain| {
      assert chain[..n] == chain;
    } else {
      KnownPrefix(f, chain[..|chain| - 1], n);
      assert chain[..|chain| - 1][..n] == chain[..n];
    }
  }

  /** A block generates a modifier exactly if its parent lies in a later interval than the
      last block that generated one; otherwise it keeps that one's. */
  lemma {:induction false} GeneratesWhenLater(f: HashFunction, chain: seq<Block>, g: nat, i: nat)
    requires GrownKnown(f, chain) && g < i < |chain| && chain[g].generated
    requires forall k :: g < k < i ==> !chain[k].generated
    ensures chain[i].generated <==> chain[g].time / MODIFIER_INTERVAL < chain[i - 1].time / MODIFIER_INTERVAL
    ensures !chain[i].generated ==> chain[i].modifier == chain[g].modifier
  {
    KnownPrefix(f, chain, i + 1);
    var p := chain[..i + 1];
    assert p[..i] == chain[..i];
    assert IsLastGenerating(p[..i], g);
    NextGenerates(f, p, i, g);
  }

  lemma {:induction false} NextGenerates(f: HashFunction, p: seq<Block>, i: nat, g: nat)
    requires 0 < i && |p| == i + 1 && GrownKnown(f, p) && IsLastGenerating(p[..i], g)
    ensures p[i].generated <==> p[g].time / MODIFIER_INTERVAL < p[i - 1].time / MODIFIER_INTERVAL
    ensures !p[i].generated ==> p[i].modifier == p[g].modifier
  {
    var blocks :| Adds(f, blocks, p, i);
    NewWhenLater(f, blocks, p[..i], g);
  }
}
