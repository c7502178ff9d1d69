/** The counter of memory locks per page. */
module PageLocks {
  import opened Common
  import opened Radix

  datatype Range = Range(base: nat, size: nat)

  /** A page is named by its number, its base address divided by the page size. */
  function FirstPage(r: Range, pageSize: nat): nat
    requires pageSize > 0
  {
    r.base / pageSize
  }

  function LastPage(r: Range, pageSize: nat): nat
    requires pageSize > 0 && r.size > 0
  {
    (r.base + r.size - 1) / pageSize
  }

  // --- the mask -------------------------------------------------------------------------

  /** The bitwise and of the low n bits. */
  function BitAnd(a: nat, m: nat, n: nat): nat {
    if n == 0 then 0 else (if a % 2 == 1 && m % 2 == 1 then 1 else 0) + 2 * BitAnd(a / 2, m / 2, n - 1)
  }

  /** page_mask for pages of 2^k bytes and addresses of n bits: ~(page_size - 1). */
  function PageMask(n: nat, k: nat): int { Pow2(n) - Pow2(k) }

  lemma {:induction false} PowersGrow(k: nat, n: nat)
    requires k <= n
    ensures Pow2(k) <= Pow2(n)
  {
    if k < n {
      PowersGrow(k, n - 1);
    }
  }

  lemma {:induction false} AndOnes(a: nat, n: nat)
    requires a < Pow2(n)
    ensures BitAnd(a, Pow2(n) - 1, n) == a
  {
    if n > 0 {
      assert (Pow2(n) - 1) / 2 == Pow2(n - 1) - 1;
      AndOnes(a / 2, n - 1);
    }
  }

  lemma HalfFirst(a: nat, d: nat)
    requires d > 0
    ensures (a / 2) / d == a / (2 * d)
  {
    var h := a / 2;
    var q, r := h / d, 2 * (h % d) + a % 2;
    assert h == q * d + h % d;
    assert a == q * (2 * d) + r;
    QuotientUnique(q, r, 2 * d);
  }

  /** The mask takes an address to the base address of its page. */
  lemma {:induction false} MaskedIsPage(a: nat, n: nat, k: nat)
    requires a < Pow2(n) && k <= n
    ensures PageMask(n, k) >= 0 && BitAnd(a, PageMask(n, k), n) == (a / Pow2(k)) * Pow2(k)
  {
    PowersGrow(k, n);
    if k == 0 {
      AndOnes(a, n);
    } else {
      PowersGrow(k - 1, n - 1);
      assert PageMask(n, k) == 2 * PageMask(n - 1, k - 1);
      MaskedIsPage(a / 2, n - 1, k - 1);
      HalfFirst(a, Pow2(k - 1));
      DoubledPage(a / Pow2(k), Pow2(k - 1));
    }
  }

  lemma DoubledPage(q: nat, p: nat)
    ensures 2 * (q * p) == q * (2 * p)
  {
  }

  predicate Covers(r: Range, pageSize: nat, page: nat)
    requires pageSize > 0
  {
    r.size > 0 && FirstPage(r, pageSize) <= page <= LastPage(r, pageSize)
  }

  /** A byte of the range lies in the page. */
  ghost predicate Touches(r: Range, pageSize: nat, page: nat)
    requires pageSize > 0
  {
    exists a :: r.base <= a < r.base + r.size && a / pageSize == page
  }

  /** A page counts for a range exactly if the range touches it. */
  lemma CoversTouched(r: Range, pageSize: nat, page: nat)
    requires pageSize > 0
    ensures Covers(r, pageSize, page) <==> Touches(r, pageSize, page)
  {
    if r.size > 0 {
      var first, last := r.base, r.base + r.size - 1;
      if Covers(r, pageSize, page) {
        if page == FirstPage(r, pageSize) {
          assert first / pageSize == page;
        } else {
          var a := page * pageSize;
          QuotientUnique(page, 0, pageSize);
          PageBytes(first, pageSize, page);
          PageBytes(last, pageSize, page);
          assert a / pageSize == page;
        }
      }
      forall a | r.base <= a < r.base + r.size && a / pageSize == page ensures Covers(r, pageSize, page) {
        PageOrder(first, a, pageSize);
        PageOrder(a, last, pageSize);
      }
    }
  }

  /** Bytes before a page are below its base address. */
  lemma PageBytes(a: nat, pageSize: nat, page: nat)
    requires pageSize > 0
    ensures a / pageSize < page <==> a < page * pageSize
  {
    var q, m := a / pageSize, a % pageSize;
    assert a == pageSize * q + m && 0 <= m < pageSize;
    if q < page {
      Times(q + 1, page, pageSize);
      assert (q + 1) * pageSize == q * pageSize + pageSize;
    } else {
      Times(page, q, pageSize);
    }
  }

  lemma PageOrder(a: nat, b: nat, pageSize: nat)
    requires pageSize > 0 && a <= b
    ensures a / pageSize <= b / pageSize
  {
    PageBytes(b, pageSize, a / pageSize);
    PageBytes(a, pageSize, a / pageSize);
  }

  // --- counting ---------------------------------------------------------------------------

  /** How many of the ranges touch the page. */
  function Count(rs: seq<Range>, pageSize: nat, page: nat): nat
    requires pageSize > 0
  {
    if rs == [] then 0
    else Count(rs[..|rs| - 1], pageSize, page) + if Covers(rs[|rs| - 1], pageSize, page) then 1 else 0
  }

  lemma CountAdd(rs: seq<Range>, r: Range, pageSize: nat, page: nat)
    requires pageSize > 0
    ensures Count(rs + [r], pageSize, page) == Count(rs, pageSize, page) + if Covers(r, pageSize, page) then 1 else 0
  {
    assert (rs + [r])[..|rs|] == rs;
  }

  /** The ranges without the one at place i. */
  function Without(rs: seq<Range>, i: nat): seq<Range>
    requires i < |rs|
  {
    rs[..i] + rs[i + 1..]
  }

  lemma {:induction false} CountWithout(rs: seq<Range>, i: nat, pageSize: nat, page: nat)
    requires pageSize > 0 && i < |rs|
    ensures Count(rs, pageSize, page) == Count(Without(rs, i), pageSize, page) + if Covers(rs[i], pageSize, page) then 1 else 0
  {
    var n := |rs| - 1;
    if i == n {
      assert Without(rs, i) == rs[..n];
    } else {
      CountWithout(rs[..n], i, pageSize, page);
      assert Without(rs, i)[..n - 1] == Without(rs[..n], i);
      assert Without(rs, i)[n - 1] == rs[n];
    }
  }

  /** The number for a page while the pages from `from` up to, but not including, `to` have
      one more. */
  function Expected(rs: seq<Range>, pageSize: nat, from: nat, to: nat, page: nat): nat
    requires pageSize > 0
  {
    Count(rs, pageSize, page) + if from <= page < to then 1 else 0
  }

  /** The histogram has the pages with a positive number, and those numbers. */
  ghost predicate Matches(h: map<nat, nat>, rs: seq<Range>, pageSize: nat, from: nat, to: nat)
    requires pageSize > 0
  {
    forall page: nat ::
      && (page in h <==> Expected(rs, pageSize, from, to, page) > 0)
      && (page in h ==> h[page] == Expected(rs, pageSize, from, to, page))
  }

  lemma {:induction false} CountPositive(rs: seq<Range>, pageSize: nat, page: nat)
    requires pageSize > 0
    ensures Count(rs, pageSize, page) > 0 <==> exists i :: 0 <= i < |rs| && Covers(rs[i], pageSize, page)
  {
    if rs != [] {
      var n := |rs| - 1;
      CountPositive(rs[..n], pageSize, page);
      if Count(rs[..n], pageSize, page) > 0 {
        var i :| 0 <= i < n && Covers(rs[..n][i], pageSize, page);
        assert Covers(rs[i], pageSize, page);
      }
      if i :| 0 <= i < n && Covers(rs[i], pageSize, page) {
        assert rs[..n][i] == rs[i];
      }
    }
  }

  /** The pages in the histogram are those in which an outstanding range has a byte. */
  lemma LockedIffTouched(h: map<nat, nat>, rs: seq<Range>, pageSize: nat, page: nat)
    requires pageSize > 0 && Matches(h, rs, pageSize, 0, 0)
    ensures page in h <==> exists i :: 0 <= i < |rs| && Touches(rs[i], pageSize, page)
  {
    CountPositive(rs, pageSize, page);
    assert page in h <==> Expected(rs, pageSize, 0, 0, page) > 0;
    forall i | 0 <= i < |rs| ensures Covers(rs[i], pageSize, page) <==> Touches(rs[i], pageSize, page) {
      CoversTouched(rs[i], pageSize, page);
    }
  }

  class LockedPageManager {
    const pageSize: nat
    var histogram: map<nat, nat>
    /** The pages locked at the level of the operating system. */
    var locked: set<nat>
    /** The ranges locked and not yet unlocked. */
    ghost var outstanding: seq<Range>

    ghost predicate Valid()
      reads this
    {
      pageSize > 0 && locked == histogram.Keys && Matches(histogram, outstanding, pageSize, 0, 0)
    }

    constructor (pageSize: nat)
      requires pageSize > 0
      ensures Valid() && outstanding == [] && this.pageSize == pageSize
    {
      this.pageSize := pageSize;
      histogram, locked, outstanding := map[], {}, [];
    }

    method LockRange(r: Range)
      requires Valid()
      modifies this
      ensures Valid() && outstanding == old(outstanding) + [r]
    {
      if r.size == 0 {
        forall page: nat ensures Count(outstanding + [r], pageSize, page) == Count(outstanding, pageSize, page) {
          CountAdd(outstanding, r, pageSize, page);
        }
        outstanding := outstanding + [r];
        return;
      }
      var start := FirstPage(r, pageSize);
      var end := LastPage(r, pageSize);
      var page := start;
      while page <= end
        invariant start <= page && outstanding == old(outstanding) && locked == histogram.Keys
        invariant page <= end + 1 || page == start
        invariant Matches(histogram, outstanding, pageSize, start, page)
        decreases end + 1 - page
      {
        if page !in histogram {
          locked := locked + {page};
          histogram := histogram[page := 1];
        } else {
          histogram := histogram[page := histogram[page] + 1];
        }
        page := page + 1;
      }
      PageOrder(r.base, r.base + r.size - 1, pageSize);
      forall p: nat ensures Count(outstanding + [r], pageSize, p) == Expected(outstanding, pageSize, start, page, p) {
        CountAdd(outstanding, r, pageSize, p);
      }
      outstanding := outstanding + [r];
    }

    /** Unlocking a range that has been locked: every page is found in the histogram. */
    method UnlockRange(r: Range, ghost i: nat)
      requires Valid() && i < |outstanding| && outstanding[i] == r
      modifies this
      ensures Valid() && outstanding == Without(old(outstanding), i)
    {
      ghost var rest: seq<Range> := Without(outstanding, i);
      if r.size == 0 {
        forall page: nat ensures Count(outstanding, pageSize, page) == Count(rest, pageSize, page) {
          CountWithout(outstanding, i, pageSize, page);
        }
        outstanding := rest;
        return;
      }
      var start := FirstPage(r, pageSize);
      var end := LastPage(r, pageSize);
      PageOrder(r.base, r.base + r.size - 1, pageSize);
      forall p: nat ensures Expected(outstanding, pageSize, 0, 0, p) == Expected(rest, pageSize, start, end + 1, p) {
        CountWithout(outstanding, i, pageSize, p);
      }
      var page := start;
      while page <= end
        invariant start <= page <= end + 1 && locked == histogram.Keys
        invariant outstanding == old(outstanding)
        invariant Matches(histogram, rest, pageSize, page, end + 1)
      {
        assert Expected(rest, pageSize, page, end + 1, page) > 0;
        assert page in histogram;
        var count := histogram[page] - 1;
        if count == 0 {
          locked := locked - {page};
          histogram := histogram - {page};
        } else {
          histogram := histogram[page := count];
        }
        page := page + 1;
      }
      outstanding := rest;
    }

    /** With nothing outstanding, nothing is locked: the destructor's assertion holds. */
    method GetLockedPageCount() returns (n: nat)
      requires Valid()
      ensures n == |locked| && (outstanding == [] ==> n == 0)
    {
      n := |histogram|;
      if outstanding == [] {
        forall p ensures p !in histogram.Keys {
          assert Expected(outstanding, pageSize, 0, 0, p) == 0;
        }
        assert histogram.Keys == {};
      }
    }
  }
}
