/**
 * The allocator's free list as a mathematical object: an ordered map from the
 * first page of each free run to its length, the page set it stands for, and
 * the canonical form (disjoint, maximally coalesced) that the code maintains.
 */
module FreeMap {
  import opened Basics

  datatype PageExtent = PageExtent(first: int, count: int)

  /** Both fields are std::uint64_t values. */
  predicate IsWord(e: PageExtent) {
    0 <= e.first < TWO_TO_64 && 0 <= e.count < TWO_TO_64
  }

  type Runs = map<int, int>

  ghost predicate Canonical(m: Runs, total: u64) {
    && (forall a | a in m :: 0 <= a && m[a] > 0 && a + m[a] <= total)
    && (forall a, b | a in m && b in m && a < b :: a + m[a] < b)
  }

  predicate InRun(m: Runs, a: int, p: int)
    requires a in m
  {
    a <= p < a + m[a]
  }

  /** The pages a free list stands for. */
  ghost function PagesOf(m: Runs): set<int> {
    set a: int, p: int | a in m && a <= p < a + m[a] && InRun(m, a, p) :: p
  }

  predicate Covers(e: PageExtent, p: int) {
    Within(e.first, p, e.first + e.count)
  }

  ghost function PagesIn(e: PageExtent): set<int> {
    Interval(e.first, e.first + e.count)
  }

  /** The pages of the first n extents of a list, and how many they add up to. */
  ghost function PagesOfFirst(es: seq<PageExtent>, n: nat): (s: set<int>)
    requires n <= |es|
  {
    set i: int, p: int | 0 <= i < n && es[i].first <= p < es[i].first + es[i].count && Covers(es[i], p) :: p
  }

  function TotalOfFirst(es: seq<PageExtent>, n: nat): int
    requires n <= |es|
  {
    if n == 0 then 0 else TotalOfFirst(es, n - 1) + es[n - 1].count
  }

  ghost function PagesInAll(es: seq<PageExtent>): set<int> {
    PagesOfFirst(es, |es|)
  }

  function Total(es: seq<PageExtent>): int {
    TotalOfFirst(es, |es|)
  }

  /** Strictly ascending extents with a gap between neighbours. */
  ghost predicate Ascending(es: seq<PageExtent>) {
    && (forall i | 0 <= i < |es| :: es[i].count > 0)
    && (forall i, j | 0 <= i < j < |es| :: es[i].first + es[i].count < es[j].first)
  }

  lemma PagesOfNext(es: seq<PageExtent>, n: nat)
    requires n < |es|
    ensures PagesOfFirst(es, n + 1) == PagesOfFirst(es, n) + PagesIn(es[n])
  {
    forall p | p in PagesIn(es[n]) ensures p in PagesOfFirst(es, n + 1) {
      assert Covers(es[n], p);
    }
  }

  lemma ExtentSize(e: PageExtent)
    requires 0 <= e.count
    ensures |PagesIn(e)| == e.count
  {
    IntervalSize(e.first, e.first + e.count);
  }

  lemma PagesOfNone(es: seq<PageExtent>)
    ensures |PagesOfFirst(es, 0)| == 0
  {
    assert PagesOfFirst(es, 0) == {};
  }

  /** Ascending extents hold as many pages as their lengths add up to. */
  lemma {:induction false} AscendingSize(es: seq<PageExtent>, n: nat)
    requires Ascending(es) && n <= |es|
    ensures |PagesOfFirst(es, n)| == TotalOfFirst(es, n)
  {
    if n == 0 {
      assert PagesOfFirst(es, 0) == {};
    } else {
      var last := es[n - 1];
      AscendingSize(es, n - 1);
      PagesOfNext(es, n - 1);
      IntervalSize(last.first, last.first + last.count);
      UnionSize(PagesOfFirst(es, n - 1), PagesIn(last));
    }
  }

  lemma FreePage(m: Runs, p: int) returns (a: int)
    requires p in PagesOf(m)
    ensures a in m && a <= p < a + m[a]
  {
    a :| a in m && a <= p < a + m[a] && InRun(m, a, p);
  }

  lemma HoldingExtent(es: seq<PageExtent>, n: nat, p: int) returns (i: nat)
    requires n <= |es| && p in PagesOfFirst(es, n)
    ensures i < n && es[i].first <= p < es[i].first + es[i].count
  {
    i :| 0 <= i < n && es[i].first <= p < es[i].first + es[i].count && Covers(es[i], p);
  }

  lemma FreeRun(m: Runs, a: int)
    requires a in m
    ensures forall p | a <= p < a + m[a] :: p in PagesOf(m)
  {
    forall p | a <= p < a + m[a] ensures p in PagesOf(m) {
      assert InRun(m, a, p);
    }
  }

  // A canonical list names exactly the maximal runs of free pages.
  lemma RunBoundaries(m: Runs, total: u64, a: int)
    requires Canonical(m, total) && a in m
    ensures a - 1 !in PagesOf(m) && a + m[a] !in PagesOf(m)
    ensures forall p | a <= p < a + m[a] :: p in PagesOf(m)
  {
    FreeRun(m, a);
    if a - 1 in PagesOf(m) { var b := FreePage(m, a - 1); }
    if a + m[a] in PagesOf(m) { var b := FreePage(m, a + m[a]); }
  }

  /**
   * The canonical list of a page set is unique, so the map is determined by the
   * free pages alone and not by the order of the calls that produced it.
   */
  lemma CanonicalUnique(m: Runs, m': Runs, total: u64)
    requires Canonical(m, total) && Canonical(m', total)
    requires PagesOf(m) == PagesOf(m')
    ensures m == m'
  {
    CanonicalIncluded(m, m', total);
    CanonicalIncluded(m', m, total);
    assert m.Keys == m'.Keys;
    assert forall a | a in m :: m[a] == m'[a];
  }

  lemma CanonicalIncluded(m: Runs, m': Runs, total: u64)
    requires Canonical(m, total) && Canonical(m', total)
    requires PagesOf(m) == PagesOf(m')
    ensures m.Keys <= m'.Keys && forall a | a in m.Keys :: m'[a] == m[a]
  {
    forall a | a in m.Keys ensures a in m' && m'[a] == m[a] {
      RunBoundaries(m, total, a);
      var b := FreePage(m', a);
      RunBoundaries(m', total, b);
    }
  }

  // ----- std::map navigation ---------------------------------------------------------------------

  /** lower_bound: the least key not below from. */
  function LowerBound(m: Runs, from: nat, total: u64): (k: Option<int>)
    requires forall a | a in m :: 0 <= a < total
    ensures k.Some? ==> k.value in m && from <= k.value && forall a | a in m && from <= a :: k.value <= a
    ensures k.None? ==> forall a | a in m :: a < from
    decreases total - from
  {
    if total <= from then None else if from in m then Some(from) else LowerBound(m, from + 1, total)
  }

  /** prev of lower_bound: the greatest key below from. */
  function KeyBefore(m: Runs, from: nat): (k: Option<int>)
    ensures k.Some? ==> k.value in m && 0 <= k.value < from && forall a | a in m && a < from :: a <= k.value
    ensures k.None? ==> forall a | a in m :: a < 0 || from <= a
  {
    if from == 0 then None
    else if from - 1 in m then Some(from - 1)
    else KeyBefore(m, from - 1)
  }
}
