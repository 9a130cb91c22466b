/** How an entry's page extents are cut into bounded, page-aligned bdev commands. */
module Segments {
  import opened Basics
  import opened FreeMap
  import Geo = StorageGeometry

  datatype Entry = Entry(logicalSize: nat, extents: seq<PageExtent>)

  /** One command: a range of the caller's buffer and the device range that holds it. */
  datatype IoBatchItem = IoBatchItem(
    bufferOffset: nat, logicalLength: nat, byteOffset: int, physicalLength: int)

  /** The three sizes of a geometry that segmentation depends on. */
  datatype Layout = Layout(page: int, segment: int, pageCount: int) {
    ghost predicate Valid() {
      0 < page <= segment && segment % page == 0 && 0 < pageCount
    }
    function Capacity(): int { pageCount * page }
  }

  function LayoutOf(g: Geo.Geometry): (l: Layout) {
    Layout(g.pageSize, g.ioSegmentSize, g.pageCount)
  }

  /** Every geometry that is accepted gives a layout that segmentation can work with. */
  lemma AcceptedLayout(
    numBlocks: u64, blockSize: u32, writeUnitBlocks: u32, bufferAlignment: bv64,
    ioSegmentSize: u64, maxBlocks: u32, bufferCount: u64)
    requires Geo.BuildStorageGeometry(numBlocks, blockSize, writeUnitBlocks, bufferAlignment,
                                      ioSegmentSize, maxBlocks, bufferCount).Ok?
    ensures var g := Geo.BuildStorageGeometry(numBlocks, blockSize, writeUnitBlocks, bufferAlignment,
                                              ioSegmentSize, maxBlocks, bufferCount).value;
            LayoutOf(g).Valid() && LayoutOf(g).Capacity() == g.usableCapacityBytes
  {
    hide Geo.BuildStorageGeometry;
    Geo.AcceptedGeometry(numBlocks, blockSize, writeUnitBlocks, bufferAlignment, ioSegmentSize, maxBlocks, bufferCount);
  }

  datatype SegmentError = ExtentsExceedSize | ExtentsDoNotCoverSize

  // ----- the pages of an entry and the device address of each of its bytes -----------------------

  /** The pages of a list of extents, in order. */
  function Flatten(es: seq<PageExtent>): (pages: seq<int>) {
    if es == [] then [] else Run(es[0]) + Flatten(es[1..])
  }

  function Run(e: PageExtent): seq<int> {
    if e.count <= 0 then [] else seq(e.count, i => e.first + i)
  }

  function Address(l: Layout, pages: seq<int>, x: nat): int
    requires 0 < l.page && x < |pages| * l.page
  {
    QuotientBelow(x, l.page, |pages|);
    pages[x / l.page] * l.page + x % l.page
  }

  lemma QuotientBelow(x: int, n: int, bound: int)
    requires 0 < n && 0 <= x < bound * n
    ensures 0 <= x / n < bound
  {
    DivisionFacts(x, n);
    if bound <= x / n { MulMonotone(n, bound, x / n); }
  }

  lemma AddMultiple(a: int, k: int, n: int)
    requires 0 < n && 0 <= k
    ensures (a * n + k) / n == a + k / n && (a * n + k) % n == k % n
  {
    assert k == n * (k / n) + k % n;
    RemainderUnique(a * n + k, n, a + k / n, k % n);
  }

  // ----- the segmentation itself -----------------------------------------------------------------

  /**
   * The commands for the extents es from byte `physical` of the first one on, when `logical` bytes of
   * the entry have been placed. An item whose logical length is zero is where the source throws.
   */
  function SegmentsFrom(l: Layout, size: nat, es: seq<PageExtent>, physical: nat, logical: nat): seq<IoBatchItem>
    requires 0 < l.page && 0 < l.segment && logical <= size
    decreases |es|, if es == [] then 0 else es[0].count * l.page - physical
  {
    if es == [] then []
    else
      var bytes := es[0].count * l.page;
      if bytes <= physical then SegmentsFrom(l, size, es[1..], 0, logical)
      else
        var physicalLength := Min(l.segment, bytes - physical);
        var logicalLength := Min(physicalLength, size - logical);
        [IoBatchItem(logical, logicalLength, es[0].first * l.page + physical, physicalLength)]
        + SegmentsFrom(l, size, es, physical + physicalLength, logical + logicalLength)
  }

  function SegmentsOf(l: Layout, entry: Entry): seq<IoBatchItem>
    requires 0 < l.page && 0 < l.segment
  {
    SegmentsFrom(l, entry.logicalSize, entry.extents, 0, 0)
  }

  ghost predicate AllCarryBytes(items: seq<IoBatchItem>) {
    forall i | 0 <= i < |items| :: items[i].logicalLength > 0
  }

  function LogicalTotal(items: seq<IoBatchItem>): nat {
    if items == [] then 0 else items[0].logicalLength + LogicalTotal(items[1..])
  }

  lemma CutOne(l: Layout, size: nat, es: seq<PageExtent>, physical: nat, logical: nat)
    requires 0 < l.page && 0 < l.segment && logical <= size && es != [] && physical < es[0].count * l.page
    ensures var physicalLength := Min(l.segment, es[0].count * l.page - physical);
            var logicalLength := Min(physicalLength, size - logical);
            SegmentsFrom(l, size, es, physical, logical)
            == [IoBatchItem(logical, logicalLength, es[0].first * l.page + physical, physicalLength)]
               + SegmentsFrom(l, size, es, physical + physicalLength, logical + logicalLength)
  {}

  lemma NextExtent(l: Layout, size: nat, es: seq<PageExtent>, physical: nat, logical: nat)
    requires 0 < l.page && 0 < l.segment && logical <= size && es != [] && es[0].count * l.page <= physical
    ensures SegmentsFrom(l, size, es, physical, logical) == SegmentsFrom(l, size, es[1..], 0, logical)
  {}

  lemma NoExtents(l: Layout, size: nat, es: seq<PageExtent>, logical: nat)
    requires 0 < l.page && 0 < l.segment && logical <= size && es == []
    ensures SegmentsFrom(l, size, es, 0, logical) == []
  {}

  // The two nested loops of the source.
  method AppendSegments(l: Layout, entry: Entry) returns (r: Result<seq<IoBatchItem>, SegmentError>)
    requires 0 < l.page && 0 < l.segment
    ensures r.Ok? <==> AllCarryBytes(SegmentsOf(l, entry)) && LogicalTotal(SegmentsOf(l, entry)) == entry.logicalSize
    ensures r.Ok? ==> r.value == SegmentsOf(l, entry)
  {
    hide SegmentsFrom;
    ghost var all := SegmentsOf(l, entry);
    var items: seq<IoBatchItem> := [];
    var logical: nat := 0;
    for i := 0 to |entry.extents|
      invariant logical <= entry.logicalSize
      invariant AllCarryBytes(items) && LogicalTotal(items) == logical
      invariant all == items + SegmentsFrom(l, entry.logicalSize, entry.extents[i..], 0, logical)
    {
      var extent := entry.extents[i];
      var physical: nat := 0;
      var bytes := extent.count * l.page;
      while physical < bytes
        invariant logical <= entry.logicalSize
        invariant AllCarryBytes(items) && LogicalTotal(items) == logical
        invariant all == items + SegmentsFrom(l, entry.logicalSize, entry.extents[i..], physical, logical)
      {
        var segmentPhysical := Min(l.segment, bytes - physical);
        var segmentLogical := Min(segmentPhysical, entry.logicalSize - logical);
        var item := IoBatchItem(logical, segmentLogical, extent.first * l.page + physical, segmentPhysical);
        ghost var rest := SegmentsFrom(l, entry.logicalSize, entry.extents[i..], physical + segmentPhysical,
                                       logical + segmentLogical);
        CutOne(l, entry.logicalSize, entry.extents[i..], physical, logical);
        assert all == items + ([item] + rest);
        if segmentLogical == 0 {
          assert all[|items|] == item;
          return Err(ExtentsExceedSize);
        }
        assert all == (items + [item]) + rest;
        LogicalTotalSnoc(items, item);
        items := items + [item];
        logical := logical + segmentLogical;
        physical := physical + segmentPhysical;
      }
      NextExtent(l, entry.logicalSize, entry.extents[i..], physical, logical);
      assert entry.extents[i..][1..] == entry.extents[i + 1..];
    }
    NoExtents(l, entry.logicalSize, entry.extents[|entry.extents|..], logical);
    assert all == items;
    if logical != entry.logicalSize { return Err(ExtentsDoNotCoverSize); }
    r := Ok(items);
  }

  lemma {:induction false} LogicalTotalSnoc(items: seq<IoBatchItem>, item: IoBatchItem)
    ensures LogicalTotal(items + [item]) == LogicalTotal(items) + item.logicalLength
  {
    if items == [] {
    } else {
      assert (items + [item])[1..] == items[1..] + [item];
      LogicalTotalSnoc(items[1..], item);
    }
  }

  // ----- tiling ----------------------------------------------------------------------------------

  /** The entry's pages hold its bytes with less than one page to spare. */
  ghost predicate Fits(l: Layout, entry: Entry) {
    var bytes := |Flatten(entry.extents)| * l.page;
    && bytes - l.page < entry.logicalSize <= bytes
    && 0 < entry.logicalSize
    && forall i | 0 <= i < |entry.extents| :: entry.extents[i].count > 0
  }

  /** One command moves whole pages, at most one segment, and addresses exactly its bytes. */
  ghost predicate ItemPlaced(l: Layout, pages: seq<int>, size: nat, item: IoBatchItem)
    requires 0 < l.page
  {
    && 0 < item.logicalLength <= item.physicalLength <= l.segment
    && item.physicalLength % l.page == 0 && item.byteOffset % l.page == 0
    && item.bufferOffset + item.physicalLength <= |pages| * l.page
    && item.logicalLength == Min(item.physicalLength, size - item.bufferOffset)
    && (forall x: nat | item.bufferOffset <= x < item.bufferOffset + item.physicalLength ::
          Address(l, pages, x) == item.byteOffset + (x - item.bufferOffset))
  }

  /** Consecutive commands covering the physical bytes [pos, |pages| * page) without gap or overlap. */
  ghost predicate Tiles(l: Layout, pages: seq<int>, size: nat, items: seq<IoBatchItem>, pos: int)
    requires 0 < l.page
  {
    && (forall i | 0 <= i < |items| :: ItemPlaced(l, pages, size, items[i]))
    && (if items == [] then pos == |pages| * l.page
        else items[0].bufferOffset == pos)
    && (forall i | 0 <= i < |items| - 1 ::
          items[i].bufferOffset + items[i].physicalLength == items[i + 1].bufferOffset)
    && (items != [] ==> var z := items[|items| - 1]; z.bufferOffset + z.physicalLength == |pages| * l.page)
  }

  lemma RunPlaced(l: Layout, pages: seq<int>, e: PageExtent, base: nat, done: nat, item: IoBatchItem)
    requires 0 < l.page && base + e.count <= |pages| && done <= e.count
    requires forall p | base <= p < base + e.count :: pages[p] == e.first + (p - base)
    requires item.bufferOffset == (base + done) * l.page
    requires item.byteOffset == (e.first + done) * l.page
    requires 0 <= item.physicalLength <= (e.count - done) * l.page
    ensures item.bufferOffset + item.physicalLength <= |pages| * l.page
    ensures forall x: nat | item.bufferOffset <= x < item.bufferOffset + item.physicalLength ::
              Address(l, pages, x) == item.byteOffset + (x - item.bufferOffset)
  {
    MulMonotone(l.page, base + e.count, |pages|);
    assert (base + done) * l.page + (e.count - done) * l.page == (base + e.count) * l.page;
    forall x: nat | item.bufferOffset <= x < item.bufferOffset + item.physicalLength
      ensures Address(l, pages, x) == item.byteOffset + (x - item.bufferOffset)
    {
      var k := x - item.bufferOffset;
      AddMultiple(base + done, k, l.page);
      QuotientBelow(k, l.page, e.count - done);
      var j := k / l.page;
      assert pages[base + done + j] == e.first + done + j;
      assert k == l.page * j + k % l.page;
      assert (e.first + done + j) * l.page == (e.first + done) * l.page + l.page * j;
    }
  }

  // Lengths in whole pages: the shorter of a segment and the rest of the extent.
  lemma WholePages(l: Layout, left: nat)
    requires l.Valid() && left > 0
    ensures var n := Min(l.segment / l.page, left);
            1 <= n <= left && n * l.page == Min(l.segment, left * l.page)
  {
    var s := l.segment / l.page;
    assert l.segment == s * l.page;
    QuotientPositiveSegment(l);
    if s <= left { MulMonotone(l.page, s, left); } else { MulMonotone(l.page, left, s); }
  }

  lemma QuotientPositiveSegment(l: Layout)
    requires l.Valid()
    ensures 1 <= l.segment / l.page
  {
    DivisionFacts(l.segment, l.page);
    if l.segment / l.page <= 0 { MulMonotone(l.page, l.segment / l.page, 0); }
  }

  // The induction: es starts at page `base` of the entry, and `done` pages of its first extent are placed.
  lemma {:induction false} SegmentsTile(l: Layout, pages: seq<int>, size: nat, es: seq<PageExtent>,
                                        base: nat, done: nat)
    requires l.Valid()
    requires base <= |pages| && pages[base..] == Flatten(es)
    requires forall i | 0 <= i < |es| :: es[i].count > 0
    requires if es == [] then done == 0 else done <= es[0].count
    requires (base + done) * l.page <= size
    requires |pages| * l.page - l.page < size <= |pages| * l.page
    ensures Tiles(l, pages, size, SegmentsFrom(l, size, es, done * l.page, (base + done) * l.page), (base + done) * l.page)
    decreases |es|, if es == [] then 0 else es[0].count - done, 1
  {
    var physical, pos := done * l.page, (base + done) * l.page;
    var items := SegmentsFrom(l, size, es, physical, pos);
    if es == [] {
      assert items == [];
    } else {
      var e := es[0];
      assert Flatten(es) == Run(e) + Flatten(es[1..]);
      assert |pages[base..]| == |pages| - base;
      MulMonotone(l.page, done, e.count);
      if done == e.count {
        assert pages[base + done..] == Flatten(es[1..]);
        SegmentsTile(l, pages, size, es[1..], base + done, 0);
      } else {
        StepTiles(l, pages, size, es, base, done);
      }
    }
  }

  lemma StepTiles(l: Layout, pages: seq<int>, size: nat, es: seq<PageExtent>, base: nat, done: nat)
    requires l.Valid()
    requires base <= |pages| && pages[base..] == Flatten(es)
    requires forall i | 0 <= i < |es| :: es[i].count > 0
    requires es != [] && done < es[0].count
    requires (base + done) * l.page <= size
    requires |pages| * l.page - l.page < size <= |pages| * l.page
    ensures Tiles(l, pages, size, SegmentsFrom(l, size, es, done * l.page, (base + done) * l.page), (base + done) * l.page)
    decreases |es|, es[0].count - done, 0
  {
    hide Address, SegmentsFrom, Flatten, Tiles;
    var pos := (base + done) * l.page;
    var n := CommandPages(l, es[0].count - done);
    var item := FirstCommand(l, size, es[0], base, done);
    var rest := SegmentsFrom(l, size, es, (done + n) * l.page, pos + item.logicalLength);
    SplitFirst(l, size, es, base, done);
    FirstRun(pages, es, base);
    FirstPlaced(l, pages, size, es[0], base, done);
    if base + done + n == |pages| {
      NothingLeft(l, size, es, pos + item.logicalLength);
      NoTiles(l, pages, size);
    } else {
      SegmentsTile(l, pages, size, es, base, done + n);
    }
    TilesCons(l, pages, size, item, rest, pos);
  }

  /** How many pages the next command moves when `left` pages of the extent remain. */
  function CommandPages(l: Layout, left: nat): (n: nat)
    requires l.Valid() && left > 0
    ensures 1 <= n <= left && n * l.page == Min(l.segment, left * l.page)
  {
    WholePages(l, left);
    Min(l.segment / l.page, left)
  }

  function FirstCommand(l: Layout, size: nat, e: PageExtent, base: nat, done: nat): (item: IoBatchItem)
    requires l.Valid() && done < e.count && (base + done) * l.page <= size
  {
    var pos, length := (base + done) * l.page, CommandPages(l, e.count - done) * l.page;
    IoBatchItem(pos, Min(length, size - pos), (e.first + done) * l.page, length)
  }

  lemma SplitFirst(l: Layout, size: nat, es: seq<PageExtent>, base: nat, done: nat)
    requires l.Valid() && es != [] && done < es[0].count && (base + done) * l.page <= size
    ensures var pos, n := (base + done) * l.page, CommandPages(l, es[0].count - done);
            var item := FirstCommand(l, size, es[0], base, done);
            SegmentsFrom(l, size, es, done * l.page, pos)
            == [item] + SegmentsFrom(l, size, es, (done + n) * l.page, pos + item.logicalLength)
  {
    var e, n := es[0], CommandPages(l, es[0].count - done);
    MulMonotone(l.page, 1, e.count - done);
    Distribute(e.count - done, done, l.page);
    Distribute(done, n, l.page);
    Distribute(e.first, done, l.page);
  }

  lemma Distribute(a: int, b: int, n: int)
    ensures (a + b) * n == a * n + b * n
  {}

  lemma NothingLeft(l: Layout, size: nat, es: seq<PageExtent>, logical: nat)
    requires l.Valid() && |es| == 1 && 0 <= es[0].count && logical <= size
    ensures SegmentsFrom(l, size, es, es[0].count * l.page, logical) == []
  {
    assert es[1..] == [];
  }

  lemma NoTiles(l: Layout, pages: seq<int>, size: nat)
    requires 0 < l.page
    ensures Tiles(l, pages, size, [], |pages| * l.page)
  {}

  // The next command is well placed, and unless it is the last it carries no padding.
  lemma FirstPlaced(l: Layout, pages: seq<int>, size: nat, e: PageExtent, base: nat, done: nat)
    requires l.Valid() && done < e.count && base + e.count <= |pages|
    requires (base + done) * l.page <= size
    requires |pages| * l.page - l.page < size <= |pages| * l.page
    requires forall p | base <= p < base + e.count :: pages[p] == e.first + (p - base)
    ensures var item, n := FirstCommand(l, size, e, base, done), CommandPages(l, e.count - done);
            && ItemPlaced(l, pages, size, item)
            && item.bufferOffset + item.physicalLength == (base + done + n) * l.page
            && (base + done + n < |pages| ==> item.logicalLength == item.physicalLength)
  {
    hide Address;
    var item, n := FirstCommand(l, size, e, base, done), CommandPages(l, e.count - done);
    MulMonotone(l.page, n, e.count - done);
    MulMonotone(l.page, 1, n);
    RunPlaced(l, pages, e, base, done, item);
    Geo.MultipleHasNoRemainder(n, l.page);
    Geo.MultipleHasNoRemainder(e.first + done, l.page);
    Distribute(base + done, n, l.page);
    var next := base + done + n;
    if next < |pages| {
      MulMonotone(l.page, next + 1, |pages|);
      Distribute(next, 1, l.page);
    } else {
      Distribute(base + done, |pages| - (base + done), l.page);
      MulMonotone(l.page, base + done + 1, |pages|);
      Distribute(base + done, 1, l.page);
    }
  }

  // The pages of the first extent, and the end of the list when it is the last one.
  lemma FirstRun(pages: seq<int>, es: seq<PageExtent>, base: nat)
    requires base <= |pages| && pages[base..] == Flatten(es)
    requires es != [] && forall i | 0 <= i < |es| :: es[i].count > 0
    ensures base + es[0].count <= |pages|
    ensures forall p | base <= p < base + es[0].count :: pages[p] == es[0].first + (p - base)
    ensures base + es[0].count == |pages| ==> es[1..] == []
  {
    var tail := pages[base..];
    assert tail == Run(es[0]) + Flatten(es[1..]);
    forall p | base <= p < base + es[0].count ensures pages[p] == es[0].first + (p - base) {
      assert pages[p] == tail[p - base] == Run(es[0])[p - base];
    }
    if |es| > 1 { assert |Run(es[1])| == es[1].count; }
  }

  lemma TilesCons(l: Layout, pages: seq<int>, size: nat, item: IoBatchItem, rest: seq<IoBatchItem>, pos: int)
    requires 0 < l.page && ItemPlaced(l, pages, size, item) && item.bufferOffset == pos
    requires Tiles(l, pages, size, rest, pos + item.physicalLength)
    ensures Tiles(l, pages, size, [item] + rest, pos)
  {
    var items := [item] + rest;
    forall i | 0 <= i < |items| - 1
      ensures items[i].bufferOffset + items[i].physicalLength == items[i + 1].bufferOffset
    {
      if i > 0 { assert items[i] == rest[i - 1] && items[i + 1] == rest[i]; }
    }
    if rest != [] { assert items[|items| - 1] == rest[|rest| - 1]; }
  }

  // ----- what an allocated entry's segmentation promises -----------------------------------------

  /** validate_item of the I/O context; the null-buffer check has no counterpart here. */
  predicate ValidItem(l: Layout, item: IoBatchItem)
    requires 0 < l.page
  {
    && item.logicalLength != 0
    && item.logicalLength <= item.physicalLength <= l.segment
    && item.byteOffset % l.page == 0 && item.physicalLength % l.page == 0
    && 0 <= item.byteOffset <= l.Capacity() && item.physicalLength <= l.Capacity() - item.byteOffset
  }

  /** Every page of the entry lies on the device. */
  ghost predicate OnDevice(l: Layout, pages: seq<int>) {
    forall i | 0 <= i < |pages| :: 0 <= pages[i] < l.pageCount
  }

  /**
   * For every entry whose extents fit its size, segmentation never throws: its commands tile the
   * caller's bytes and the extents' bytes in order, every command passes validate_item, and only the
   * last one carries padding, of less than one page.
   */
  lemma SegmentsOfTile(l: Layout, entry: Entry)
    requires l.Valid() && Fits(l, entry)
    ensures var items := SegmentsOf(l, entry);
            && Tiles(l, Flatten(entry.extents), entry.logicalSize, items, 0)
            && AllCarryBytes(items) && LogicalTotal(items) == entry.logicalSize
            && items != []
            && (forall i | 0 <= i < |items| - 1 :: items[i].logicalLength == items[i].physicalLength)
            && (var z := items[|items| - 1]; z.physicalLength - z.logicalLength < l.page)
  {
    var pages, items := Flatten(entry.extents), SegmentsOf(l, entry);
    SegmentsTile(l, pages, entry.logicalSize, entry.extents, 0, 0);
    hide Flatten, SegmentsFrom, Address;
    TilingTotal(l, pages, entry.logicalSize, items, 0);
  }

  lemma SegmentsAreValid(l: Layout, pages: seq<int>, size: nat, items: seq<IoBatchItem>, i: nat)
    requires l.Valid() && Tiles(l, pages, size, items, 0) && OnDevice(l, pages) && i < |items|
    ensures ValidItem(l, items[i])
  {
    var item := items[i];
    var last := item.bufferOffset + item.physicalLength - 1;
    assert Address(l, pages, item.bufferOffset) == item.byteOffset;
    assert Address(l, pages, last) == item.byteOffset + item.physicalLength - 1;
    AddressOnDevice(l, pages, item.bufferOffset);
    AddressOnDevice(l, pages, last);
  }

  lemma AddressOnDevice(l: Layout, pages: seq<int>, x: nat)
    requires 0 < l.page && x < |pages| * l.page && OnDevice(l, pages)
    ensures 0 <= Address(l, pages, x) < l.Capacity()
  {
    QuotientBelow(x, l.page, |pages|);
    var p := pages[x / l.page];
    MulMonotone(l.page, 0, p);
    MulMonotone(l.page, p + 1, l.pageCount);
    Distribute(p, 1, l.page);
  }

  lemma {:induction false} TilingTotal(l: Layout, pages: seq<int>, size: nat, items: seq<IoBatchItem>, pos: nat)
    requires 0 < l.page && Tiles(l, pages, size, items, pos)
    requires pos <= size <= |pages| * l.page
    requires items != [] || size == pos
    ensures LogicalTotal(items) == size - pos
    ensures forall i | 0 <= i < |items| - 1 :: items[i].logicalLength == items[i].physicalLength
    ensures items != [] ==> items[|items| - 1].bufferOffset + items[|items| - 1].logicalLength == size
  {
    if |items| == 1 {
      assert items[1..] == [];
    } else if items != [] {
      var rest := items[1..];
      assert items[0].bufferOffset + items[0].physicalLength == items[1].bufferOffset;
      assert ItemPlaced(l, pages, size, items[1]);
      assert Tiles(l, pages, size, rest, pos + items[0].physicalLength) by {
        hide Address;
        forall i | 0 <= i < |rest| - 1
          ensures rest[i].bufferOffset + rest[i].physicalLength == rest[i + 1].bufferOffset
        {
          assert items[i + 1].bufferOffset + items[i + 1].physicalLength == items[i + 2].bufferOffset;
        }
      }
      TilingTotal(l, pages, size, rest, pos + items[0].physicalLength);
    }
  }

  // ----- flattened extents against page sets -----------------------------------------------------

  lemma {:induction false} TotalFromFront(es: seq<PageExtent>, n: nat)
    requires 0 < n <= |es|
    ensures TotalOfFirst(es, n) == es[0].count + TotalOfFirst(es[1..], n - 1)
  {
    if n > 1 { TotalFromFront(es, n - 1); }
  }

  lemma {:induction false} FlattenLength(es: seq<PageExtent>)
    requires forall i | 0 <= i < |es| :: es[i].count > 0
    ensures |Flatten(es)| == Total(es)
  {
    if es == [] {
    } else {
      FlattenLength(es[1..]);
      TotalFromFront(es, |es|);
    }
  }

  ghost predicate StrictlyAscending(s: seq<int>) {
    forall i, j | 0 <= i < j < |s| :: s[i] < s[j]
  }

  // Ascending extents flatten to ascending, hence distinct, pages: the pages of their set.
  lemma {:induction false} FlattenPages(es: seq<PageExtent>)
    requires Ascending(es)
    ensures StrictlyAscending(Flatten(es))
    ensures forall p :: p in Flatten(es) <==> p in PagesInAll(es)
  {
    hide PagesOfFirst, Run;
    if es != [] {
      FlattenPages(es[1..]);
      FirstAndRest(es);
      RunAscends(es[0]);
      forall j | 0 <= j < |Flatten(es[1..])| ensures es[0].first + es[0].count <= Flatten(es[1..])[j] {
        assert Flatten(es[1..])[j] in PagesInAll(es[1..]);
        var e := HoldingExtent(es[1..], |es| - 1, Flatten(es[1..])[j]);
      }
    } else {
      PagesOfNone(es);
    }
  }

  lemma RunAscends(e: PageExtent)
    requires 0 < e.count
    ensures StrictlyAscending(Run(e)) && forall p :: p in Run(e) <==> e.first <= p < e.first + e.count
    ensures forall i | 0 <= i < |Run(e)| :: Run(e)[i] < e.first + e.count
  {
    forall p | e.first <= p < e.first + e.count ensures p in Run(e) { assert Run(e)[p - e.first] == p; }
  }

  // The pages of a list are those of its first extent and those of the others.
  lemma FirstAndRest(es: seq<PageExtent>)
    requires es != []
    ensures forall p :: p in PagesInAll(es) <==> es[0].first <= p < es[0].first + es[0].count || p in PagesInAll(es[1..])
  {
    forall p ensures p in PagesInAll(es) <==> es[0].first <= p < es[0].first + es[0].count || p in PagesInAll(es[1..]) {
      if p in PagesInAll(es[1..]) {
        var i := HoldingExtent(es[1..], |es| - 1, p);
        assert Covers(es[i + 1], p);
      }
      if p in PagesInAll(es) {
        var i := HoldingExtent(es, |es|, p);
        if i > 0 { assert Covers(es[1..][i - 1], p); }
      }
      if es[0].first <= p < es[0].first + es[0].count { assert Covers(es[0], p); }
    }
  }

  // Distinct pages give distinct device addresses, and an address determines its page.
  lemma AddressInjective(l: Layout, pages: seq<int>, pages': seq<int>, x: nat, y: nat)
    requires 0 < l.page && x < |pages| * l.page && y < |pages'| * l.page
    requires Address(l, pages, x) == Address(l, pages', y)
    ensures x / l.page < |pages| && y / l.page < |pages'|
    ensures pages[x / l.page] == pages'[y / l.page] && x % l.page == y % l.page
  {
    QuotientBelow(x, l.page, |pages|);
    QuotientBelow(y, l.page, |pages'|);
    AddMultiple(pages[x / l.page], x % l.page, l.page);
    AddMultiple(pages'[y / l.page], y % l.page, l.page);
    RemainderUnique(x % l.page, l.page, 0, x % l.page);
    RemainderUnique(y % l.page, l.page, 0, y % l.page);
  }
}
