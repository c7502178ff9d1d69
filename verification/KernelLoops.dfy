/** The loops of the stake modifier computation. */
module KernelLoops {
  import opened Common
  import opened KernelModel

  /** Back from the last block until one generated a modifier or there is no parent. */
  method GetLastStakeModifier(chain: seq<Block>) returns (r: Option<Block>)
    ensures r == LastGenerating(chain)
  {
    if chain == [] {
      return None;
    }
    var p: nat := |chain|;
    assert chain[..p] == chain;
    while p > 1 && !chain[p - 1].generated
      invariant 1 <= p <= |chain| && LastGenerating(chain) == LastGenerating(chain[..p])
    {
      assert chain[..p][..p - 1] == chain[..p - 1];
      p := p - 1;
    }
    if !chain[p - 1].generated {
      return None;
    }
    return Some(chain[p - 1]);
  }

  method GetSelectionInterval() returns (n: nat)
    ensures n == Sections(64)
  {
    n := 0;
    var i := 0;
    while i < 64
      invariant i <= 64 && n == Sections(i)
    {
      n := n + Section(i);
      i := i + 1;
    }
  }

  /** SelectBlockFromCandidates. */
  method SelectBlock(e: Setting, c: seq<Candidate>, taken: set<Hash>, stop: int) returns (r: Scanned)
    ensures r == Scan(e, c, taken, stop, 0, Nothing)
  {
    var selected, best, hashBest := false, 0, 0;
    var i := 0;
    while i < |c|
      invariant i <= |c|
      invariant selected ==> best < |c| && c[best].hash in e.blocks
                             && hashBest == SelectionHash(e.f, e.blocks[c[best].hash], e.modifier)
      invariant Scan(e, c, taken, stop, 0, Nothing) == Scan(e, c, taken, stop, i, if selected then Found(best) else Nothing)
    {
      if c[i].hash !in e.blocks {
        return Missing;
      }
      var b := e.blocks[c[i].hash];
      if selected && b.time > stop {
        break;
      }
      if b.hash !in taken {
        var h := SelectionHash(e.f, b, e.modifier);
        if selected && h < hashBest {
          hashBest, best := h, i;
        } else if !selected {
          selected, hashBest, best := true, h, i;
        }
      }
      i := i + 1;
    }
    r := if selected then Found(best) else Nothing;
  }

  /** The walk back over the candidates, turned round. */
  method Collect(chain: seq<Block>, start: int) returns (c: seq<Candidate>)
    ensures c == Collected(chain, start)
  {
    c := [];
    var p: nat := |chain|;
    assert chain[..p] == chain;
    while p > 0 && chain[p - 1].time >= start
      invariant p <= |chain| && Collected(chain, start) == Collected(chain[..p], start) + c
    {
      assert chain[..p][..p - 1] == chain[..p - 1];
      c := [Candidate(chain[p - 1].time, chain[p - 1].hash)] + c;
      p := p - 1;
    }
  }

  /** The rounds. */
  method SelectAll(e: Setting, c: seq<Candidate>, start: int) returns (v: Option<nat>)
    ensures var ps := Rounds(e, c, start, AtMost64(|c|));
            v == if ps.Some? then Some(Bits(e, c, ps.value)) else None
  {
    var bits, place, stop := 0, 1, start;
    var taken: set<Hash> := {};
    ghost var ps: seq<nat> := [];
    var n := 0;
    while n < AtMost64(|c|)
      invariant n <= AtMost64(|c|) && Rounds(e, c, start, n) == Some(ps)
      invariant taken == Hashes(c, ps) && stop == start + Sections(n)
      invariant place == Pow2(n) && bits == Bits(e, c, ps)
    {
      stop := stop + Section(n);
      var s := SelectBlock(e, c, taken, stop);
      RoundNext(e, c, start, n, ps, s);
      if !s.Found? || s.p >= |c| {
        RoundsFail(e, c, start, n + 1, AtMost64(|c|));
        return None;
      }
      if c[s.p].hash in e.blocks && e.blocks[c[s.p].hash].entropy {
        bits := bits + place;
      }
      ps := ps + [s.p];
      taken := taken + {c[s.p].hash};
      place := 2 * place;
      n := n + 1;
    }
    v := Some(bits);
  }

  lemma RoundNext(e: Setting, c: seq<Candidate>, start: int, n: nat, ps: seq<nat>, s: Scanned)
    requires n < 64 && Rounds(e, c, start, n) == Some(ps) && s == Scan(e, c, Hashes(c, ps), start + Sections(n + 1), 0, Nothing)
    ensures Rounds(e, c, start, n + 1) == if s.Found? && s.p < |c| then Some(ps + [s.p]) else None
    ensures s.Found? && s.p < |c| ==>
              && InRange(c, ps + [s.p])
              && Hashes(c, ps + [s.p]) == Hashes(c, ps) + {c[s.p].hash}
              && Bits(e, c, ps + [s.p]) == Bits(e, c, ps) + if c[s.p].hash in e.blocks && e.blocks[c[s.p].hash].entropy then Pow2(n) else 0
  {
    if s.Found? && s.p < |c| {
      HashesNext(c, ps, s.p);
      assert (ps + [s.p])[..n] == ps;
    }
  }

  lemma {:induction false} RoundsFail(e: Setting, c: seq<Candidate>, start: int, m: nat, n: nat)
    requires m <= n <= 64 && Rounds(e, c, start, m).None?
    ensures Rounds(e, c, start, n).None?
  {
    if m < n {
      RoundsFail(e, c, start, m, n - 1);
    }
  }

  lemma HashesNext(c: seq<Candidate>, ps: seq<nat>, p: nat)
    requires InRange(c, ps) && p < |c|
    ensures Hashes(c, ps + [p]) == Hashes(c, ps) + {c[p].hash}
  {
    var qs := ps + [p];
    forall h | h in Hashes(c, ps) ensures h in Hashes(c, qs) {
      var i :| 0 <= i < |ps| && c[ps[i]].hash == h;
      assert qs[i] == ps[i];
    }
    assert qs[|ps|] == p;
  }

  /** ComputeNextStakeModifier. */
  method ComputeNext(f: HashFunction, blocks: map<Hash, Block>, chain: seq<Block>) returns (r: Option<(nat, bool)>)
    ensures r == Compute(f, blocks, chain)
  {
    if chain == [] {
      return Some((0, true));
    }
    var last := GetLastStakeModifier(chain);
    if last.None? {
      return None;
    }
    var time := chain[|chain| - 1].time;
    if last.value.time / MODIFIER_INTERVAL >= time / MODIFIER_INTERVAL {
      return Some((last.value.modifier, false));
    }
    var interval := GetSelectionInterval();
    var start := (time / MODIFIER_INTERVAL) * MODIFIER_INTERVAL - interval;
    var c := Collect(chain, start);
    c := Sorted(c);
    var v := SelectAll(Setting(f, blocks, last.value.modifier), c, start);
    if v.None? {
      return None;
    }
    return Some((v.value, true));
  }
}
