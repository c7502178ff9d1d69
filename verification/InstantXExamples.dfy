/** Runs of InstantX that end in complete locks which lock nothing. */
module InstantXExamples {
  import opened Common
  import opened SortedSets
  import opened InstantXModel
  import opened InstantXRuns
  import opened InstantXConflicts

  // --- putting runs together ----------------------------------------------------------------

  /** No step of the run reports a conflict. */
  ghost predicate Quiet(s: State, ops: seq<Timed>) {
    ops == [] ||
    (var n := |ops| - 1; Quiet(s, ops[..n]) && Reported(Run(s, ops[..n]), ops[n].op, ops[n].now) == {})
  }

  lemma {:induction false} RunAppend(s: State, a: seq<Timed>, b: seq<Timed>)
    ensures Run(s, a + b) == Run(Run(s, a), b)
    ensures Quiet(s, a) && Quiet(Run(s, a), b) ==> Quiet(s, a + b)
  {
    if b == [] {
      assert a + b == a;
    } else {
      var n := |b| - 1;
      assert (a + b)[..|a + b| - 1] == a + b[..n];
      RunAppend(s, a, b[..n]);
    }
  }

  lemma RunOne(s: State, x: Timed)
    ensures Run(s, [x]) == Step(s, x.op, x.now)
    ensures Reported(s, x.op, x.now) == {} ==> Quiet(s, [x])
  {
    assert [x][..0] == [];
    assert Run(s, [x][..0]) == s;
  }

  // --- ten masternodes vote -------------------------------------------------------------------

  const HEIGHT: int := 95

  function VoteOf(h: Hash, i: nat): Vote { Vote(OutPoint(i, 0), h, HEIGHT, 0) }

  function Ballot(h: Hash, i: nat): Timed { Timed(OpVote(VoteOf(h, i), 1, true), 0) }

  function Ballots(h: Hash, n: nat): (b: seq<Timed>)
    ensures forall i :: 0 <= i < |b| ==> !b[i].op.OpCleanUp?
  {
    if n == 0 then [] else Ballots(h, n - 1) + [Ballot(h, n - 1)]
  }

  function VotesOf(h: Hash, n: nat): seq<Vote> {
    if n == 0 then [] else VotesOf(h, n - 1) + [VoteOf(h, n - 1)]
  }

  lemma {:induction false} VotesCount(h: Hash, n: nat)
    ensures AtHeight(VotesOf(h, n), HEIGHT) == n
  {
    if n > 0 {
      VotesCount(h, n - 1);
      assert VotesOf(h, n)[..|VotesOf(h, n)| - 1] == VotesOf(h, n - 1);
    }
  }

  /** From `s`, where the lock on `h` was `k`, n masternodes have voted on it. */
  ghost predicate Polled(s: State, t: State, h: Hash, k: Lock, n: nat) {
    && t.req == s.req && t.rejected == s.rejected && t.inputs == s.inputs
    && OpenLock(t, h, 0) == k.(votes := VotesOf(h, n))
    && (n > 0 ==> h in t.locks)
    && (forall g :: g != h ==> (g in t.locks <==> g in s.locks) && (g in t.locks ==> t.locks[g] == s.locks[g]))
    && (forall x :: x in t.votes ==> x in s.votes || h <= x < h + n)
  }

  predicate Unseen(s: State, h: Hash) {
    h < 1000 && forall x :: h <= x < h + 10 ==> x !in s.votes
  }

  lemma HashOfVote(h: Hash, i: nat)
    requires h < 1000 && i < 10
    ensures VoteHash(VoteOf(h, i)) == h + i
  {
  }

  lemma TooFew(t: State, h: Hash, n: nat, height: int)
    requires h < 1000 && n < 10 && OpenLock(t, h, 0).votes == VotesOf(h, n) && OpenLock(t, h, 0).height == height
    requires height == 0 || (height == HEIGHT && n < 9)
    ensures !Fills(t, Ballot(h, n).op, 0)
  {
    VotesCount(h, n + 1);
  }

  /** Too few votes, or no height to count them at, change nothing but the lock. */
  lemma PollOne(s: State, t: State, h: Hash, k: Lock, n: nat)
    requires Unseen(s, h) && Polled(s, t, h, k, n) && n < 10
    requires k.height == 0 || (k.height == HEIGHT && n < 9)
    ensures Polled(s, Step(t, Ballot(h, n).op, 0), h, k, n + 1) && Reported(t, Ballot(h, n).op, 0) == {}
  {
    HashOfVote(h, n);
    TooFew(t, h, n, k.height);
  }

  lemma {:induction false} Poll(s: State, h: Hash, k: Lock, n: nat)
    requires Unseen(s, h) && k == OpenLock(s, h, 0) && k.votes == []
    requires n <= 10 && (k.height == 0 || (k.height == HEIGHT && n <= 9))
    ensures Polled(s, Run(s, Ballots(h, n)), h, k, n) && Quiet(s, Ballots(h, n))
  {
    if n > 0 {
      Poll(s, h, k, n - 1);
      PollOne(s, Run(s, Ballots(h, n - 1)), h, k, n - 1);
      assert Ballots(h, n)[..|Ballots(h, n)| - 1] == Ballots(h, n - 1);
    }
  }

  // --- the tenth vote ---------------------------------------------------------------------------

  /** Nine votes are in, at the height of the lock. */
  predicate AlmostComplete(t: State, h: Hash) {
    && h < 1000 && h in t.locks && h + 9 !in t.votes
    && t.locks[h].height == HEIGHT && t.locks[h].votes == VotesOf(h, 9)
  }

  lemma TenthFills(t: State, h: Hash)
    requires AlmostComplete(t, h)
    ensures Fills(t, Ballot(h, 9).op, 0)
    ensures IsComplete(Counted(t, Ballot(h, 9).op, 0), h)
  {
    HashOfVote(h, 9);
    VotesCount(h, 10);
  }

  /** On an accepted request that spends a free output it locks that output. */
  lemma TenthAccepted(t: State, h: Hash, o: OutPoint)
    requires AlmostComplete(t, h) && h in t.req && t.req[h] == Tx(h, [o]) && o !in t.inputs
    ensures var op := Ballot(h, 9).op; var u := Step(t, op, 0);
            && Reported(t, op, 0) == {} && IsComplete(u, h)
            && u.req == t.req && u.rejected == t.rejected && u.inputs == t.inputs[o := h]
            && (forall g :: g in u.locks ==> g in t.locks || g == h)
            && (forall x :: x in u.votes ==> x in t.votes || x == h + 9)
  {
    TenthFills(t, h);
    HashOfVote(h, 9);
    var s1 := Counted(t, Ballot(h, 9).op, 0);
    FirstClashIs(s1.inputs, [o], h);
    assert FirstClash(s1.inputs, [o], h) == 1;
    assert [o][..0] == [];
    assert LockInputs(t.inputs, [o], h) == t.inputs[o := h];
  }

  /** On a rejected request it finds an empty transaction and locks nothing. */
  lemma TenthRejected(t: State, h: Hash)
    requires AlmostComplete(t, h) && h in t.rejected && h !in t.req
    ensures var op := Ballot(h, 9).op; var u := Step(t, op, 0);
            && Reported(t, op, 0) == {} && IsComplete(u, h) && u.rejected == t.rejected && u.inputs == t.inputs
            && u.req == t.req[h := EmptyTx()]
            && (forall g :: g in t.locks && g != h ==> g in u.locks && u.locks[g] == t.locks[g])
  {
    TenthFills(t, h);
    HashOfVote(h, 9);
  }

  // --- the runs ---------------------------------------------------------------------------------

  function RequestOf(h: Hash, o: OutPoint, accepted: bool): Timed {
    Timed(OpRequest(Request(Tx(h, [o]), true, [9], 100, accepted, NoMasternode)), 0)
  }

  lemma HeightOfRequest()
    ensures !TooNew([9]) && LockHeight([9], 100) == HEIGHT
  {
  }

  function Voted(h: Hash, o: OutPoint, accepted: bool): (b: seq<Timed>)
    ensures forall i :: 0 <= i < |b| ==> !b[i].op.OpCleanUp?
  {
    ([RequestOf(h, o, accepted)] + Ballots(h, 9)) + [Ballot(h, 9)]
  }

  lemma FirstNine(s: State, h: Hash, o: OutPoint, accepted: bool)
    requires Unseen(s, h) && h !in s.req && h !in s.rejected && h !in s.locks
    ensures var ops := [RequestOf(h, o, accepted)] + Ballots(h, 9); var t := Run(s, ops);
            && AlmostComplete(t, h) && Quiet(s, ops)
            && t.req == (if accepted then s.req[h := Tx(h, [o])] else s.req)
            && t.rejected == (if accepted then s.rejected else s.rejected[h := Tx(h, [o])])
            && t.inputs == (if accepted then s.inputs else LockInputs(s.inputs, [o], h))
            && (forall g :: g in s.locks ==> g in t.locks && t.locks[g] == s.locks[g])
            && (forall g :: g in t.locks ==> g in s.locks || g == h)
            && (forall x :: x in t.votes ==> x in s.votes || h <= x < h + 9)
  {
    var r := RequestOf(h, o, accepted);
    var s1 := Step(s, r.op, 0);
    RunOne(s, r);
    Requested(s, h, o, accepted);
    Poll(s1, h, s1.locks[h], 9);
    RunAppend(s, [r], Ballots(h, 9));
    NinePolled(s, s1, Run(s1, Ballots(h, 9)), h, s1.locks[h]);
  }

  lemma NinePolled(s: State, s1: State, t: State, h: Hash, k: Lock)
    requires Unseen(s, h) && h !in s.locks && s1.votes == s.votes && s1.locks == s.locks[h := k]
    requires k.height == HEIGHT && Polled(s1, t, h, k, 9)
    ensures AlmostComplete(t, h)
    ensures forall g :: g in s.locks ==> g in t.locks && t.locks[g] == s.locks[g]
    ensures forall g :: g in t.locks ==> g in s.locks || g == h
    ensures forall x :: x in t.votes ==> x in s.votes || h <= x < h + 9
  {
  }

  lemma Requested(s: State, h: Hash, o: OutPoint, accepted: bool)
    requires h !in s.req && h !in s.rejected && h !in s.locks
    ensures var r := RequestOf(h, o, accepted).op; var t := Step(s, r, 0);
            && Reported(s, r, 0) == {} && t.votes == s.votes
            && t.locks == s.locks[h := Lock(HEIGHT, h, [], 1200, 300)]
            && t.req == (if accepted then s.req[h := Tx(h, [o])] else s.req)
            && t.rejected == (if accepted then s.rejected else s.rejected[h := Tx(h, [o])])
            && t.inputs == (if accepted then s.inputs else LockInputs(s.inputs, [o], h))
  {
    HeightOfRequest();
  }

  lemma FirstVoted(g: Hash, o: OutPoint)
    requires g < 1000
    ensures var t := Run(Start(), Voted(g, o, true));
            && Quiet(Start(), Voted(g, o, true)) && IsComplete(t, g)
            && t.req == map[g := Tx(g, [o])] && t.rejected == map[] && t.inputs == map[o := g]
            && (forall x :: x in t.locks ==> x == g) && forall x :: x in t.votes ==> g <= x < g + 10
  {
    FirstNine(Start(), g, o, true);
    var ops := [RequestOf(g, o, true)] + Ballots(g, 9);
    var t := Run(Start(), ops);
    TenthAccepted(t, g, o);
    RunOne(t, Ballot(g, 9));
    RunAppend(Start(), ops, [Ballot(g, 9)]);
  }

  lemma SecondVoted(s: State, g: Hash, h: Hash, o: OutPoint)
    requires g + 10 <= h < 1000 && IsComplete(s, g)
    requires s.req == map[g := Tx(g, [o])] && s.rejected == map[] && s.inputs == map[o := g]
    requires (forall x :: x in s.locks ==> x == g) && forall x :: x in s.votes ==> g <= x < g + 10
    ensures var t := Run(s, Voted(h, o, false));
            && Quiet(s, Voted(h, o, false)) && IsComplete(t, g) && IsComplete(t, h)
            && t.req == s.req[h := EmptyTx()] && t.rejected == map[h := Tx(h, [o])] && t.inputs == s.inputs
  {
    FirstNine(s, h, o, false);
    var ops := [RequestOf(h, o, false)] + Ballots(h, 9);
    var t := Run(s, ops);
    assert [o][..0] == [];
    assert LockInputs(s.inputs, [o], h) == s.inputs;
    TenthRejected(t, h);
    RunOne(t, Ballot(h, 9));
    RunAppend(s, ops, [Ballot(h, 9)]);
  }

  /** One transaction is accepted and voted on, then another that spends the same output and
      is rejected by the mempool.  Both get a complete lock, no conflict is reported and
      nothing was cleaned up: the lock on the second is not guarded. */
  lemma DoubleSpend(g: Hash, h: Hash, o: OutPoint)
    requires g + 10 <= h < 1000
    ensures var ops := Voted(g, o, true) + Voted(h, o, false); var t := Run(Start(), ops);
            && NoCleanUp(ops) && Quiet(Start(), ops)
            && IsComplete(t, g) && IsComplete(t, h)
            && Spent(t, g) == [o] == Spent(t, h) && t.inputs == map[o := g]
  {
    FirstVoted(g, o);
    var s := Run(Start(), Voted(g, o, true));
    SecondVoted(s, g, h, o);
    BothSpend(Start(), Voted(g, o, true), Voted(h, o, false), s, g, h, o);
  }

  lemma BothSpend(first: State, a: seq<Timed>, b: seq<Timed>, s: State, g: Hash, h: Hash, o: OutPoint)
    requires NoCleanUp(a) && NoCleanUp(b) && Quiet(first, a) && s == Run(first, a) && Quiet(s, b) && g != h
    requires s.req == map[g := Tx(g, [o])] && s.inputs == map[o := g]
    requires var t := Run(s, b);
             && IsComplete(t, g) && IsComplete(t, h)
             && t.req == s.req[h := EmptyTx()] && t.rejected == map[h := Tx(h, [o])] && t.inputs == s.inputs
    ensures var t := Run(first, a + b);
            && NoCleanUp(a + b) && Quiet(first, a + b)
            && IsComplete(t, g) && IsComplete(t, h)
            && Spent(t, g) == [o] == Spent(t, h) && t.inputs == map[o := g]
  {
    RunAppend(first, a, b);
  }

  /** The votes come before the request: the lock of the accepted transaction is complete at
      once, and its input is not locked. */
  lemma VotesBeforeRequest(h: Hash, o: OutPoint)
    requires h < 1000
    ensures var ops := Ballots(h, 10) + [RequestOf(h, o, true)]; var t := Run(Start(), ops);
            && NoCleanUp(ops) && Quiet(Start(), ops)
            && IsComplete(t, h) && Spent(t, h) == [o] && t.inputs == map[]
  {
    var k := OpenLock(Start(), h, 0);
    Poll(Start(), h, k, 10);
    var s := Run(Start(), Ballots(h, 10));
    var r := RequestOf(h, o, true);
    HeightOfRequest();
    VotesCount(h, 10);
    RunOne(s, r);
    RunAppend(Start(), Ballots(h, 10), [r]);
  }

  /** A rejected request locks its input; a clean-up after its lock expired drops the lock
      and leaves the input locked for good. */
  lemma RejectedStaysLocked(o: OutPoint)
    ensures var ops := [RequestOf(100, o, false), Timed(OpCleanUp, 1201)]; var t := Run(Start(), ops);
            && t.locks == map[] && t.req == map[] && o in t.inputs && t.inputs[o] == 100
            && forall now :: o in CleanUp(t, now).inputs
  {
    Requested(Start(), 100, o, false);
    var s := Step(Start(), RequestOf(100, o, false).op, 0);
    var ops := [RequestOf(100, o, false), Timed(OpCleanUp, 1201)];
    assert ops[..1] == [RequestOf(100, o, false)];
    RunOne(Start(), ops[0]);
    assert [o][..0] == [];
    assert LockInputs(map[], [o], 100) == map[o := 100];
  }
}
