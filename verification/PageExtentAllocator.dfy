/** The page allocator: an ordered free map edited in place under one mutex. */
module PageExtentAllocators {
  import opened Basics
  import opened FreeMap

  datatype AllocatorError = EmptyRequest | Exhausted | InvalidExtent | Overlap

  /** Taking the first count pages of a free run, as allocate's second loop does. */
  function TakeFromRun(m: Runs, first: int, count: int): Runs
    requires first in m
  {
    if m[first] == count then m - {first} else (m - {first})[first + count := m[first] - count]
  }

  lemma TakeFromRunIsRemoval(m: Runs, total: u64, first: int, count: int)
    requires Canonical(m, total) && first in m && 0 < count <= m[first]
    ensures Canonical(TakeFromRun(m, first, count), total)
    ensures PagesOf(TakeFromRun(m, first, count)) == PagesOf(m) - PagesIn(PageExtent(first, count))
  {
    hide PagesOf, PagesIn, TakeFromRun, Canonical;
    TakeKeepsCanonical(m, total, first, count);
    forall p ensures p in PagesOf(TakeFromRun(m, first, count)) <==> p in PagesOf(m) - PagesIn(PageExtent(first, count)) {
      TakenPage(m, total, first, count, p);
    }
  }

  lemma TakeKeepsCanonical(m: Runs, total: u64, first: int, count: int)
    requires Canonical(m, total) && first in m && 0 < count <= m[first]
    ensures Canonical(TakeFromRun(m, first, count), total)
  {}

  lemma TakenPage(m: Runs, total: u64, first: int, count: int, p: int)
    requires Canonical(m, total) && first in m && 0 < count <= m[first]
    ensures p in PagesOf(TakeFromRun(m, first, count)) <==> p in PagesOf(m) - PagesIn(PageExtent(first, count))
  {
    var m' := TakeFromRun(m, first, count);
    assert p in PagesIn(PageExtent(first, count)) <==> first <= p < first + count by {
      ExtentPage(PageExtent(first, count), p);
    }
    hide PagesIn;
    if p in PagesOf(m') {
      var b := FreePage(m', p);
      if b in m && b != first { assert InRun(m, b, p); } else { assert InRun(m, first, p); }
    }
    if p in PagesOf(m) && !(first <= p < first + count) {
      var b := FreePage(m, p);
      if b == first { assert InRun(m', first + count, p); } else { assert InRun(m', b, p); }
    }
  }

  lemma ExtentPage(e: PageExtent, p: int)
    ensures p in PagesIn(e) <==> e.first <= p < e.first + e.count
  {
    if e.first <= p < e.first + e.count { assert Covers(e, p) && Within(e.first, p, e.first + e.count); }
  }

  /**
   * e lies apart from every free run of m, and [lo, hi) is e widened by the run that ends where e
   * starts (when lo < e.first) and by the run that starts where e ends (when hi lies beyond).
   */
  ghost predicate Widens(m: Runs, e: PageExtent, lo: int, hi: int) {
    var end := e.first + e.count;
    && lo <= e.first && end <= hi
    && (if lo < e.first then lo in m && lo + m[lo] == e.first else lo !in m)
    && (if end < hi then end in m && end + m[end] == hi else end !in m)
    && (forall a | a in m && a != lo && a != end :: a + m[a] < lo || hi < a)
  }

  /** The map after both neighbours are erased and the widened run is emplaced. */
  function Merged(m: Runs, e: PageExtent, lo: int, hi: int): Runs {
    (m - {lo, e.first + e.count})[lo := hi - lo]
  }

  lemma MergedCanonical(m: Runs, total: u64, e: PageExtent, lo: int, hi: int)
    requires Canonical(m, total) && 0 <= lo && 0 < e.count && hi <= total && Widens(m, e, lo, hi)
    ensures Canonical(Merged(m, e, lo, hi), total)
  {
  }

  lemma MergedIsUnion(m: Runs, e: PageExtent, lo: int, hi: int)
    requires 0 < e.count && Widens(m, e, lo, hi)
    ensures PagesOf(Merged(m, e, lo, hi)) == PagesOf(m) + PagesIn(e)
  {
    var m' := Merged(m, e, lo, hi);
    forall p | p in PagesOf(m') ensures p in PagesOf(m) || p in PagesIn(e) {
      var b := FreePage(m', p);
      if b != lo {
        assert InRun(m, b, p);
      } else if p < e.first {
        assert InRun(m, lo, p);
      } else if e.first + e.count <= p {
        assert InRun(m, e.first + e.count, p);
      }
    }
    forall p | p in PagesOf(m) || p in PagesIn(e) ensures p in PagesOf(m') {
      if p in PagesOf(m) {
        var b := FreePage(m, p);
        if b == lo || b == e.first + e.count { assert InRun(m', lo, p); } else { assert InRun(m', b, p); }
      } else {
        assert InRun(m', lo, p);
      }
    }
  }

  /** A run disjoint from every free run is disjoint from the free pages, and conversely. */
  lemma RunsApart(m: Runs, e: PageExtent)
    requires forall a | a in m :: m[a] > 0
    requires 0 < e.count
    ensures PagesIn(e) !! PagesOf(m) <==> forall a | a in m :: a + m[a] <= e.first || e.first + e.count <= a
  {
    forall p | p in PagesIn(e) && p in PagesOf(m)
      ensures exists a :: a in m && !(a + m[a] <= e.first || e.first + e.count <= a)
    {
      var a := FreePage(m, p);
    }
    forall a | a in m && !(a + m[a] <= e.first || e.first + e.count <= a)
      ensures !(PagesIn(e) !! PagesOf(m))
    {
      var p := if a <= e.first then e.first else a;
      assert InRun(m, a, p) && Within(e.first, p, e.first + e.count);
      assert p in PagesOf(m) && p in PagesIn(e);
    }
  }

  /** previous and next are the runs on either side of page first. */
  ghost predicate Neighbours(m: Runs, first: int, previous: Option<int>, next: Option<int>) {
    && (previous.Some? ==> previous.value in m && previous.value < first)
    && (next.Some? ==> next.value in m && first <= next.value)
    && forall a | a in m :: (previous.Some? && a <= previous.value) || (next.Some? && next.value <= a)
  }

  /** In a canonical map an extent that is apart from its two neighbours is apart from every run. */
  lemma NeighboursDecide(m: Runs, total: u64, e: PageExtent, previous: Option<int>, next: Option<int>)
    requires Canonical(m, total) && 0 < e.count && Neighbours(m, e.first, previous, next)
    ensures (forall a | a in m :: a + m[a] <= e.first || e.first + e.count <= a) <==>
            && (previous.Some? ==> previous.value + m[previous.value] <= e.first)
            && (next.Some? ==> e.first + e.count <= next.value)
  {}

  lemma NeighboursWiden(m: Runs, total: u64, e: PageExtent, previous: Option<int>, next: Option<int>)
    requires Canonical(m, total) && 0 < e.count && Neighbours(m, e.first, previous, next)
    requires previous.Some? ==> previous.value + m[previous.value] <= e.first
    requires next.Some? ==> e.first + e.count <= next.value
    ensures var lo := if previous.Some? && previous.value + m[previous.value] == e.first then previous.value else e.first;
            var hi := if next.Some? && next.value == e.first + e.count then next.value + m[next.value] else e.first + e.count;
            Widens(m, e, lo, hi)
  {}

  /** The scan of allocate, part way: result holds every run below the cursor, whole and in order. */
  ghost predicate Scanned(m: Runs, result: seq<PageExtent>, cursor: Option<int>) {
    && (cursor.Some? ==> cursor.value in m)
    && (forall j | 0 <= j < |result| :: result[j].first in m && result[j].count == m[result[j].first])
    && (forall j | 0 <= j < |result| :: cursor.Some? ==> result[j].first < cursor.value)
    && (forall k | k in m && (cursor.Some? ==> k < cursor.value) :: PageExtent(k, m[k]) in result)
  }

  lemma AscendingSnoc(m: Runs, total: u64, result: seq<PageExtent>, first: int, count: int)
    requires Canonical(m, total) && Ascending(result) && Scanned(m, result, Some(first)) && count > 0
    ensures Ascending(result + [PageExtent(first, count)])
  {
    var next := result + [PageExtent(first, count)];
    forall i, j | 0 <= i < j < |next| ensures next[i].first + next[i].count < next[j].first {
      if j == |result| { assert next[i].first in m; }
    }
  }

  lemma ScannedNext(m: Runs, total: u64, result: seq<PageExtent>, first: int, cursor: Option<int>)
    requires Scanned(m, result, Some(first))
    requires cursor.Some? ==> cursor.value in m && first < cursor.value
    requires forall a | a in m && first < a :: cursor.Some? && cursor.value <= a
    ensures Scanned(m, result + [PageExtent(first, m[first])], cursor)
  {
    var next := result + [PageExtent(first, m[first])];
    forall k | k in m && (cursor.Some? ==> k < cursor.value) ensures PageExtent(k, m[k]) in next {
      if k < first {
        assert PageExtent(k, m[k]) in result;
      } else {
        assert next[|result|] == PageExtent(k, m[k]);
      }
    }
  }

  // A scan that reached the end holds every free page.
  lemma AllRunsTaken(m: Runs, result: seq<PageExtent>)
    requires Ascending(result) && Scanned(m, result, None)
    ensures |PagesOf(m)| <= Total(result)
  {
    forall p | p in PagesOf(m) ensures p in PagesInAll(result) {
      var k := FreePage(m, p);
      var i :| 0 <= i < |result| && result[i] == PageExtent(k, m[k]);
      assert Covers(result[i], p);
    }
    SubsetSize(PagesOf(m), PagesInAll(result));
    AscendingSize(result, |result|);
  }

  // A scan that stopped inside the run at first holds the lowest free pages.
  lemma LowestPages(m: Runs, total: u64, whole: seq<PageExtent>, first: int, count: int)
    requires Canonical(m, total) && Scanned(m, whole, Some(first)) && 0 < count <= m[first]
    ensures var taken := PagesInAll(whole + [PageExtent(first, count)]);
            taken <= PagesOf(m) && forall p, q | p in taken && q in PagesOf(m) - taken :: p < q
  {
    var result := whole + [PageExtent(first, count)];
    assert result[|whole|] == PageExtent(first, count);
    forall p | p in PagesInAll(result) ensures p in PagesOf(m) && p < first + count {
      var i := HoldingExtent(result, |result|, p);
      if i < |whole| {
        assert result[i] == whole[i];
        assert InRun(m, whole[i].first, p);
      } else {
        assert InRun(m, first, p);
      }
    }
    forall q | q in PagesOf(m) - PagesInAll(result) ensures first + count <= q {
      var k := FreePage(m, q);
      if k < first {
        var i :| 0 <= i < |whole| && whole[i] == PageExtent(k, m[k]);
        assert result[i] == whole[i];
        assert Covers(result[i], q);
      } else if k == first {
        assert Covers(result[|whole|], q) ==> q in PagesInAll(result);
      }
    }
  }

  /** What release accepts: a non-empty in-range extent none of whose pages is free. */
  ghost predicate Acceptable(e: PageExtent, total: int, free: set<int>) {
    0 < e.count && 0 <= e.first && e.first + e.count <= total && PagesIn(e) !! free
  }

  /** An outstanding allocation: ascending extents of the device, none of whose pages is free. */
  ghost predicate Returnable(es: seq<PageExtent>, total: int, free: set<int>) {
    Ascending(es) && PagesInAll(es) <= Interval(0, total) && PagesInAll(es) !! free
  }

  // An outstanding allocation is accepted extent by extent, whatever was released before.
  lemma ReturnableAccepted(es: seq<PageExtent>, total: int, free: set<int>, j: nat)
    requires j < |es|
    ensures Returnable(es, total, free) ==> Acceptable(es[j], total, free + PagesOfFirst(es, j))
  {
    if Returnable(es, total, free) {
      var e := es[j];
      forall p | p in PagesIn(e) ensures p in PagesInAll(es) && p !in PagesOfFirst(es, j) {
        assert Covers(e, p);
        if p in PagesOfFirst(es, j) { var i := HoldingExtent(es, j, p); }
      }
      assert Covers(e, e.first) && Covers(e, e.first + e.count - 1);
      assert e.first in PagesInAll(es) && e.first + e.count - 1 in PagesInAll(es);
    }
  }

  class PageExtentAllocator {
    const totalPageCount: u64
    var freeExtents: Runs
    var freePageCount: u64

    ghost function Free(): set<int>
      reads this
    {
      PagesOf(freeExtents)
    }

    ghost predicate Valid()
      reads this
    {
      && Canonical(freeExtents, totalPageCount)
      && freePageCount == |Free()|
    }

    constructor (pageCount: u64)
      requires pageCount != 0
      ensures Valid() && totalPageCount == pageCount && Free() == Interval(0, pageCount)
    {
      totalPageCount := pageCount;
      freeExtents := map[0 := pageCount];
      freePageCount := pageCount;
      new;
      forall p ensures p in Free() <==> 0 <= p < pageCount {
        if p in Free() { var a := FreePage(freeExtents, p); }
        if 0 <= p < pageCount { assert InRun(freeExtents, 0, p); }
      }
      IntervalSize(0, pageCount);
      assert Free() == Interval(0, pageCount);
    }

    static method Create(pageCount: u64) returns (r: Result<PageExtentAllocator, AllocatorError>)
      ensures r.Ok? <==> pageCount != 0
      ensures r.Ok? ==> fresh(r.value) && r.value.Valid() && r.value.totalPageCount == pageCount
      ensures r.Ok? ==> r.value.Free() == Interval(0, pageCount)
    {
      if pageCount == 0 { return Err(EmptyRequest); }
      var a := new PageExtentAllocator(pageCount);
      return Ok(a);
    }

    // First fit from the lowest page. The two accounting throws of the source are the
    // branches marked assert false.
    method Allocate(pageCount: u64) returns (r: Result<seq<PageExtent>, AllocatorError>)
      requires Valid()
      modifies this
      ensures Valid()
      ensures r.Ok? <==> 0 < pageCount <= old(freePageCount)
      ensures r.Err? ==> r.error == (if pageCount == 0 then EmptyRequest else Exhausted)
      ensures r.Err? ==> freeExtents == old(freeExtents) && freePageCount == old(freePageCount)
      ensures r.Ok? ==> Ascending(r.value) && Total(r.value) == pageCount
      ensures r.Ok? ==> PagesInAll(r.value) <= old(Free()) && |PagesInAll(r.value)| == pageCount
      ensures r.Ok? ==> Free() == old(Free()) - PagesInAll(r.value)
      ensures r.Ok? ==> forall p, q | p in PagesInAll(r.value) && q in Free() :: p < q
    {
      hide PagesOf, PagesOfFirst, TotalOfFirst;
      if pageCount == 0 { return Err(EmptyRequest); }
      if pageCount > freePageCount { return Err(Exhausted); }
      var result := Scan(pageCount);
      AscendingSize(result, |result|);
      UnionSize(PagesInAll(result), Free() - PagesInAll(result));
      assert PagesInAll(result) + (Free() - PagesInAll(result)) == Free();
      Carve(result);
      freePageCount := freePageCount - pageCount;
      r := Ok(result);
    }

    // The second pass of allocate: every scanned extent leaves the free map.
    method Carve(result: seq<PageExtent>)
      requires Canonical(freeExtents, totalPageCount) && Ascending(result)
      requires forall j | 0 <= j < |result| ::
        result[j].first in freeExtents && result[j].count <= freeExtents[result[j].first]
      modifies this`freeExtents
      ensures Canonical(freeExtents, totalPageCount)
      ensures Free() == old(Free()) - PagesInAll(result)
    {
      PagesOfNone(result);
      for i := 0 to |result|
        invariant Canonical(freeExtents, totalPageCount)
        invariant Free() == old(Free()) - PagesOfFirst(result, i)
        invariant forall j | i <= j < |result| ::
          result[j].first in freeExtents && result[j].count <= freeExtents[result[j].first]
      {
        hide PagesOf, PagesOfFirst, PagesIn, Canonical;
        var extent := result[i];
        if extent.first !in freeExtents || freeExtents[extent.first] < extent.count {
          assert false;
        }
        TakeFromRunIsRemoval(freeExtents, totalPageCount, extent.first, extent.count);
        PagesOfNext(result, i);
        assert extent == PageExtent(extent.first, extent.count);
        freeExtents := TakeFromRun(freeExtents, extent.first, extent.count);
      }
    }

    // The read-only first pass of allocate: whole runs in page order, the last one cut short.
    method Scan(pageCount: u64) returns (result: seq<PageExtent>)
      requires Valid() && 0 < pageCount <= freePageCount
      ensures Ascending(result) && Total(result) == pageCount
      ensures forall j | 0 <= j < |result| ::
        result[j].first in freeExtents && result[j].count <= freeExtents[result[j].first]
      ensures PagesInAll(result) <= Free()
      ensures forall p, q | p in PagesInAll(result) && q in Free() - PagesInAll(result) :: p < q
    {
      result := [];
      var remaining := pageCount;
      var cursor := LowerBound(freeExtents, 0, totalPageCount);
      while cursor.Some?
        invariant 0 < remaining && Total(result) + remaining == pageCount
        invariant Ascending(result) && Scanned(freeExtents, result, cursor)
        decreases if cursor.Some? then totalPageCount - cursor.value else -1
      {
        var first := cursor.value;
        var taken := Min(remaining, freeExtents[first]);
        AscendingSnoc(freeExtents, totalPageCount, result, first, taken);
        TotalSnoc(result, PageExtent(first, taken));
        remaining := remaining - taken;
        if remaining == 0 {
          LowestPages(freeExtents, totalPageCount, result, first, taken);
          result := result + [PageExtent(first, taken)];
          return;
        }
        cursor := LowerBound(freeExtents, first + 1, totalPageCount);
        ScannedNext(freeExtents, totalPageCount, result, first, cursor);
        result := result + [PageExtent(first, taken)];
      }
      // remaining != 0: the accounting throw of the source.
      AllRunsTaken(freeExtents, result);
      assert false;
    }

    // Extents are returned one by one. A rejected extent stops the loop, so those before it
    // stay released: r.Err carries no rollback.
    method Release(extents: seq<PageExtent>) returns (r: Option<AllocatorError>, ghost done: nat)
      requires Valid() && forall e | e in extents :: IsWord(e)
      modifies this
      ensures Valid() && done <= |extents|
      ensures Free() == old(Free()) + PagesOfFirst(extents, done)
      ensures r.None? <==> done == |extents|
      ensures forall j | 0 <= j < done :: Acceptable(extents[j], totalPageCount, old(Free()) + PagesOfFirst(extents, j))
      ensures r.Some? ==> !Acceptable(extents[done], totalPageCount, Free())
      ensures r.Some? ==> !Returnable(extents, totalPageCount, old(Free()))
    {
      PagesOfNone(extents);
      hide PagesOf, PagesOfFirst, PagesIn, Canonical, Acceptable, Returnable;
      r, done := None, 0;
      for i := 0 to |extents|
        invariant Valid() && done == i && r == None
        invariant Free() == old(Free()) + PagesOfFirst(extents, i)
        invariant forall j | 0 <= j < i :: Acceptable(extents[j], totalPageCount, old(Free()) + PagesOfFirst(extents, j))
      {
        var rejected := ReleaseExtent(extents[i]);
        if rejected.Some? {
          ReturnableAccepted(extents, totalPageCount, old(Free()), i);
          return rejected, i;
        }
        PagesOfNext(extents, i);
        done := i + 1;
      }
    }

    // One round of release: range check, insertion, then the page count.
    method ReleaseExtent(extent: PageExtent) returns (r: Option<AllocatorError>)
      requires Valid() && IsWord(extent)
      modifies this
      ensures Valid()
      ensures r.None? <==> Acceptable(extent, totalPageCount, old(Free()))
      ensures r.None? ==> Free() == old(Free()) + PagesIn(extent)
      ensures r.Some? ==> freeExtents == old(freeExtents) && freePageCount == old(freePageCount)
    {
      if extent.count == 0 || extent.first > U64_MAX - extent.count
         || extent.first + extent.count > totalPageCount {
        return Some(InvalidExtent);
      }
      hide PagesOf, PagesIn;
      var inserted := InsertFreeExtent(extent);
      if !inserted { return Some(Overlap); }
      ExtentSize(extent);
      UnionSize(old(Free()), PagesIn(extent));
      FreeFits(freeExtents, totalPageCount);
      hide Canonical;
      if freePageCount > U64_MAX - extent.count {
        assert false;
      }
      freePageCount := freePageCount + extent.count;
      r := None;
    }

    // Only the two neighbours are looked at; the contract speaks of the whole free set.
    method WidenByNeighbours(extent: PageExtent) returns (overlaps: bool, lo: int, hi: int)
      requires Canonical(freeExtents, totalPageCount) && IsWord(extent) && 0 < extent.count
      ensures overlaps <==> !(PagesIn(extent) !! Free())
      ensures !overlaps ==> Widens(freeExtents, extent, lo, hi) && 0 <= lo
      ensures !overlaps ==> hi == extent.first + extent.count || hi <= totalPageCount
    {
      hide PagesOf, PagesIn, Widens;
      RunsApart(freeExtents, extent);
      overlaps, lo, hi := false, extent.first, extent.first + extent.count;
      var next := LowerBound(freeExtents, extent.first, totalPageCount);
      var previous := KeyBefore(freeExtents, extent.first);
      NeighboursDecide(freeExtents, totalPageCount, extent, previous, next);
      if previous.Some? {
        var previousEnd := previous.value + freeExtents[previous.value];
        if previousEnd > extent.first { return true, lo, hi; }
        if previousEnd == extent.first { lo := previous.value; }
      }
      if next.Some? {
        if extent.first + extent.count > next.value { return true, lo, hi; }
        if extent.first + extent.count == next.value { hi := next.value + freeExtents[next.value]; }
      }
      NeighboursWiden(freeExtents, totalPageCount, extent, previous, next);
    }

    method InsertFreeExtent(extent: PageExtent) returns (inserted: bool)
      requires Canonical(freeExtents, totalPageCount)
      requires IsWord(extent) && 0 < extent.count && extent.first + extent.count <= totalPageCount
      modifies this`freeExtents
      ensures inserted <==> PagesIn(extent) !! old(Free())
      ensures inserted ==> Free() == old(Free()) + PagesIn(extent)
      ensures !inserted ==> freeExtents == old(freeExtents)
      ensures Canonical(freeExtents, totalPageCount)
    {
      var overlaps, lo, hi := WidenByNeighbours(extent);
      if overlaps { return false; }
      MergedCanonical(freeExtents, totalPageCount, extent, lo, hi);
      MergedIsUnion(freeExtents, extent, lo, hi);
      freeExtents := Merged(freeExtents, extent, lo, hi);
      inserted := true;
    }
  }

  /** Giving an allocation back restores the identical free map. */
  method AllocateThenRelease(a: PageExtentAllocator, pageCount: u64)
    requires a.Valid()
    modifies a
    ensures a.Valid() && a.freeExtents == old(a.freeExtents)
  {
    hide PagesOf, PagesOfFirst, Canonical, Ascending;
    ghost var before := a.freeExtents;
    var r := a.Allocate(pageCount);
    if r.Err? { return; }
    AllocationIsWord(before, a.totalPageCount, r.value);
    var rejected, done := a.Release(r.value);
    assert a.Free() == PagesOf(before);
    CanonicalUnique(before, a.freeExtents, a.totalPageCount);
  }

  /** The pages of the first n allocations, taken in the given order. */
  ghost function PagesReturned(lists: seq<seq<PageExtent>>, order: seq<nat>, n: nat): set<int>
    requires n <= |order| && forall i | 0 <= i < |order| :: order[i] < |lists|
  {
    if n == 0 then {} else PagesReturned(lists, order, n - 1) + PagesInAll(lists[order[n - 1]])
  }

  lemma {:induction false} ReturnedFrom(lists: seq<seq<PageExtent>>, order: seq<nat>, n: nat, p: int)
    requires n <= |order| && forall i | 0 <= i < |order| :: order[i] < |lists|
    ensures p in PagesReturned(lists, order, n) <==> exists i :: 0 <= i < n && p in PagesInAll(lists[order[i]])
  {
    if n == 0 {
    } else {
      ReturnedFrom(lists, order, n - 1, p);
    }
  }

  /** Allocations outstanding at the same time: each returnable, no page in two of them. */
  ghost predicate AllOut(lists: seq<seq<PageExtent>>, total: int, free: set<int>) {
    && (forall k | 0 <= k < |lists| :: Returnable(lists[k], total, free) && forall e | e in lists[k] :: IsWord(e))
    && (forall j, k | 0 <= j < k < |lists| :: PagesInAll(lists[j]) !! PagesInAll(lists[k]))
  }

  // The next allocation in the order is still outstanding.
  lemma NextReturnable(lists: seq<seq<PageExtent>>, order: seq<nat>, n: nat, total: int, free: set<int>)
    requires AllOut(lists, total, free) && IsOrder(order, |lists|) && n < |order|
    ensures Returnable(lists[order[n]], total, free + PagesReturned(lists, order, n))
  {
    hide PagesInAll, Ascending, PagesReturned;
    forall p | p in PagesInAll(lists[order[n]]) ensures p !in PagesReturned(lists, order, n) {
      ReturnedFrom(lists, order, n, p);
    }
  }

  lemma OrderDoesNotMatter(lists: seq<seq<PageExtent>>, order: seq<nat>, order': seq<nat>)
    requires IsOrder(order, |lists|) && IsOrder(order', |lists|)
    ensures PagesReturned(lists, order, |lists|) == PagesReturned(lists, order', |lists|)
  {
    hide PagesInAll, PagesReturned, IsOrder;
    OrdersInclude(lists, order, order');
    OrdersInclude(lists, order', order);
  }

  lemma OrdersInclude(lists: seq<seq<PageExtent>>, order: seq<nat>, order': seq<nat>)
    requires IsOrder(order, |lists|) && IsOrder(order', |lists|)
    ensures PagesReturned(lists, order, |lists|) <= PagesReturned(lists, order', |lists|)
  {
    hide PagesInAll, PagesReturned;
    forall p | p in PagesReturned(lists, order, |lists|) ensures p in PagesReturned(lists, order', |lists|) {
      ReturnedFrom(lists, order, |lists|, p);
      ReturnedFrom(lists, order', |lists|, p);
      var i :| 0 <= i < |lists| && p in PagesInAll(lists[order[i]]);
      var j := PlaceOf(order', |lists|, order[i]);
    }
  }

  /** Outstanding allocations are given back one after the other; none is refused. */
  method ReleaseInOrder(a: PageExtentAllocator, lists: seq<seq<PageExtent>>, order: seq<nat>)
    requires a.Valid() && AllOut(lists, a.totalPageCount, a.Free()) && IsOrder(order, |lists|)
    modifies a
    ensures a.Valid() && a.Free() == old(a.Free()) + PagesReturned(lists, order, |lists|)
  {
    hide PagesOf, PagesOfFirst, Canonical, Returnable;
    for i := 0 to |lists|
      invariant a.Valid() && a.Free() == old(a.Free()) + PagesReturned(lists, order, i)
    {
      NextReturnable(lists, order, i, a.totalPageCount, old(a.Free()));
      var rejected, done := a.Release(lists[order[i]]);
    }
  }

  /** Whatever the order in which outstanding allocations come back, the free map and the count end up the same. */
  method ReleaseInAnyOrder(a: PageExtentAllocator, b: PageExtentAllocator, lists: seq<seq<PageExtent>>,
                           order: seq<nat>, order': seq<nat>)
    requires a != b && a.Valid() && b.Valid() && a.totalPageCount == b.totalPageCount
    requires a.freeExtents == b.freeExtents && AllOut(lists, a.totalPageCount, a.Free())
    requires IsOrder(order, |lists|) && IsOrder(order', |lists|)
    modifies a, b
    ensures a.Valid() && b.Valid() && a.freeExtents == b.freeExtents && a.freePageCount == b.freePageCount
    ensures forall p :: p in a.Free() <==> p in old(a.Free()) || exists k :: 0 <= k < |lists| && p in PagesInAll(lists[k])
  {
    hide PagesOf, PagesInAll, PagesOfFirst, Canonical, AllOut, PagesReturned;
    ReleaseInOrder(a, lists, order);
    ReleaseInOrder(b, lists, order');
    OrderDoesNotMatter(lists, order, order');
    CanonicalUnique(a.freeExtents, b.freeExtents, a.totalPageCount);
    forall p ensures p in PagesReturned(lists, order, |lists|) <==> exists k :: 0 <= k < |lists| && p in PagesInAll(lists[k]) {
      AllReturned(lists, order, p);
    }
  }

  lemma AllReturned(lists: seq<seq<PageExtent>>, order: seq<nat>, p: int)
    requires IsOrder(order, |lists|)
    ensures p in PagesReturned(lists, order, |lists|) <==> exists k :: 0 <= k < |lists| && p in PagesInAll(lists[k])
  {
    hide PagesInAll, PagesReturned;
    ReturnedFrom(lists, order, |lists|, p);
    if k :| 0 <= k < |lists| && p in PagesInAll(lists[k]) {
      var i := PlaceOf(order, |lists|, k);
    }
  }

  lemma AllocationIsWord(m: Runs, total: u64, es: seq<PageExtent>)
    requires Canonical(m, total) && Ascending(es) && PagesInAll(es) <= PagesOf(m)
    ensures forall e | e in es :: IsWord(e)
    ensures PagesInAll(es) <= Interval(0, total)
  {
    forall p | p in PagesInAll(es) ensures 0 <= p < total {
      var a := FreePage(m, p);
    }
    forall i | 0 <= i < |es| ensures IsWord(es[i]) {
      var e := es[i];
      assert Covers(e, e.first) && Covers(e, e.first + e.count - 1);
      assert e.first in PagesInAll(es) && e.first + e.count - 1 in PagesInAll(es);
    }
  }

  lemma TotalSnoc(es: seq<PageExtent>, e: PageExtent)
    ensures Total(es + [e]) == Total(es) + e.count
  {
    TotalOfPrefix(es, [e], |es|);
  }

  lemma {:induction false} TotalOfPrefix(es: seq<PageExtent>, tail: seq<PageExtent>, n: nat)
    requires n <= |es|
    ensures TotalOfFirst(es + tail, n) == TotalOfFirst(es, n)
  {
    if n == 0 {
    } else {
      TotalOfPrefix(es, tail, n - 1);
    }
  }

  /** A canonical list never counts more pages than the device has. */
  lemma FreeFits(m: Runs, total: u64)
    requires Canonical(m, total)
    ensures |PagesOf(m)| <= total
  {
    forall p | p in PagesOf(m) ensures p in Interval(0, total) {
      var a := FreePage(m, p);
    }
    SubsetSize(PagesOf(m), Interval(0, total));
    IntervalSize(0, total);
  }
}
