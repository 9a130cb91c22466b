/**
 * Entries on the device: the bytes an entry stands for, and who holds which pages. The connector class
 * and the concurrent system share these definitions.
 */
module Ownership {
  import opened Basics
  import opened FreeMap
  import opened Segments

  type Key = string

  /** Whoever may read, write or free an entry's pages. */
  datatype Holder =
    | Published(key: Key)
    | Reserved(worker: nat, index: nat)
    | Retiring(worker: nat, index: nat)

  type Holdings = map<Holder, Entry>

  /** The published entries as holders of their pages. */
  ghost function Holding(entries: map<Key, Entry>): Holdings {
    map k: Key | k in entries :: Published(k) := entries[k]
  }

  /** held has every published entry, and possibly other holders. */
  ghost predicate Extends(held: Holdings, entries: map<Key, Entry>) {
    forall k | k in entries :: Published(k) in held && held[Published(k)] == entries[k]
  }

  lemma HoldingIsPublished(entries: map<Key, Entry>, h: Holder)
    requires !h.Published?
    ensures h !in Holding(entries)
  {}

  lemma HoldingExtends(entries: map<Key, Entry>, h: Holder, e: Entry)
    requires !h.Published?
    ensures Extends(Holding(entries)[h := e], entries)
  {}

  ghost function Pages(e: Entry): set<int> {
    PagesInAll(e.extents)
  }

  ghost predicate EntryOk(l: Layout, e: Entry) {
    && l.Valid() && Fits(l, e) && Ascending(e.extents)
    && Pages(e) <= Interval(0, l.pageCount)
  }

  ghost predicate IsHeld(held: Holdings, p: int) {
    exists h :: h in held && p in Pages(held[h])
  }

  /** Every page of the device is free or belongs to exactly one holder. */
  ghost predicate OneOwner(l: Layout, held: Holdings, free: set<int>) {
    && free <= Interval(0, l.pageCount)
    && (forall h | h in held :: EntryOk(l, held[h]) && Pages(held[h]) !! free)
    && (forall h, h' | h in held && h' in held && h != h' :: Pages(held[h]) !! Pages(held[h']))
    && (forall p | p in Interval(0, l.pageCount) - free :: IsHeld(held, p))
  }

  lemma HoldersApart(l: Layout, held: Holdings, free: set<int>, h: Holder, h': Holder)
    requires OneOwner(l, held, free) && h in held && h' in held
    ensures EntryOk(l, held[h]) && EntryOk(l, held[h'])
    ensures h != h' ==> Pages(held[h]) !! Pages(held[h'])
  {}

  /** The holders determine the free pages. */
  lemma FreeDetermined(l: Layout, held: Holdings, free: set<int>, free': set<int>)
    requires OneOwner(l, held, free) && OneOwner(l, held, free')
    ensures free == free'
  {
    hide Pages, EntryOk, Interval;
    FreeIncluded(l, held, free, free');
    FreeIncluded(l, held, free', free);
  }

  lemma FreeIncluded(l: Layout, held: Holdings, free: set<int>, free': set<int>)
    requires OneOwner(l, held, free) && OneOwner(l, held, free')
    ensures free <= free'
  {
    hide Pages, EntryOk, Interval;
    forall p | p in free ensures p in free' {
      assert p in free' || IsHeld(held, p);
    }
  }

  lemma TakePages(l: Layout, held: Holdings, free: set<int>, h: Holder, e: Entry)
    requires OneOwner(l, held, free) && h !in held && EntryOk(l, e) && Pages(e) <= free
    ensures OneOwner(l, held[h := e], free - Pages(e))
  {
    hide Pages, EntryOk, Interval;
    var held' := held[h := e];
    forall p | p in Interval(0, l.pageCount) - (free - Pages(e)) ensures IsHeld(held', p) {
      if p in Pages(e) {
        assert h in held' && p in Pages(held'[h]);
      } else {
        assert p in Interval(0, l.pageCount) - free;
        var g :| g in held && p in Pages(held[g]);
        assert g in held' && p in Pages(held'[g]);
      }
    }
  }

  lemma GivePages(l: Layout, held: Holdings, free: set<int>, h: Holder)
    requires OneOwner(l, held, free) && h in held
    ensures OneOwner(l, held - {h}, free + Pages(held[h]))
  {
    hide Pages, EntryOk, Interval;
    EntryOnDevice(l, held[h]);
    var held' := held - {h};
    forall p | p in Interval(0, l.pageCount) - (free + Pages(held[h])) ensures IsHeld(held', p) {
      assert p in Interval(0, l.pageCount) - free;
      var g :| g in held && p in Pages(held[g]);
      assert g in held' && p in Pages(held'[g]);
    }
  }

  lemma EntryOnDevice(l: Layout, e: Entry)
    requires EntryOk(l, e)
    ensures Pages(e) <= Interval(0, l.pageCount)
  {}

  lemma PassPages(l: Layout, held: Holdings, free: set<int>, h: Holder, h': Holder)
    requires OneOwner(l, held, free) && h in held && h' !in held
    ensures OneOwner(l, (held - {h})[h' := held[h]], free)
  {
    hide Pages, EntryOk, Interval;
    var held' := (held - {h})[h' := held[h]];
    forall p | p in Interval(0, l.pageCount) - free ensures IsHeld(held', p) {
      var g :| g in held && p in Pages(held[g]);
      var g' := if g == h then h' else g;
      assert g' in held' && p in Pages(held'[g']);
    }
  }

  /** What the allocator may hand out for a value: enough free pages and no more. */
  ghost predicate Allocatable(l: Layout, free: set<int>, size: nat, e: Entry) {
    EntryOk(l, e) && e.logicalSize == size && Pages(e) <= free
  }

  // The n lowest pages of a set, as extents.
  lemma {:induction false} LowestExtents(free: set<int>, n: nat, hi: nat) returns (es: seq<PageExtent>)
    requires free <= Interval(0, hi) && n <= |free|
    ensures Ascending(es) && PagesInAll(es) <= free && Total(es) == n
    ensures forall i | 0 <= i < |es| :: es[i].first + es[i].count <= hi
  {
    SubsetSize(free, Interval(0, hi));
    IntervalSize(0, hi);
    if n == 0 {
      PagesOfNone([]);
      return [];
    }
    var p := hi - 1;
    if p !in free || n < |free| {
      es := LowestExtents(free - {p}, n, p);
    } else {
      es := LowestExtents(free - {p}, n - 1, p);
      es := AppendPage(es, p);
    }
  }

  lemma AppendPage(es: seq<PageExtent>, p: int) returns (es': seq<PageExtent>)
    requires Ascending(es) && forall i | 0 <= i < |es| :: es[i].first + es[i].count <= p
    ensures Ascending(es') && PagesInAll(es') <= PagesInAll(es) + {p} && Total(es') == Total(es) + 1
    ensures forall i | 0 <= i < |es'| :: es'[i].first + es'[i].count <= p + 1
  {
    hide PagesOfFirst, TotalOfFirst;
    var n := |es|;
    if es != [] && es[n - 1].first + es[n - 1].count == p {
      es' := es[n - 1 := PageExtent(es[n - 1].first, es[n - 1].count + 1)];
      ReplaceLast(es, es', p);
    } else {
      es' := es + [PageExtent(p, 1)];
      AppendLast(es, p);
    }
  }

  lemma ReplaceLast(es: seq<PageExtent>, es': seq<PageExtent>, p: int)
    requires 0 < |es| == |es'| && es'[..|es| - 1] == es[..|es| - 1]
    requires es[|es| - 1].first + es[|es| - 1].count == p
    requires es'[|es| - 1] == PageExtent(es[|es| - 1].first, es[|es| - 1].count + 1)
    ensures PagesInAll(es') <= PagesInAll(es) + {p} && Total(es') == Total(es) + 1
  {
    hide PagesOfFirst;
    var n := |es|;
    SamePrefix(es, es', n - 1);
    PagesOfNext(es, n - 1);
    PagesOfNext(es', n - 1);
  }

  lemma AppendLast(es: seq<PageExtent>, p: int)
    ensures PagesInAll(es + [PageExtent(p, 1)]) <= PagesInAll(es) + {p}
    ensures Total(es + [PageExtent(p, 1)]) == Total(es) + 1
  {
    hide PagesOfFirst;
    var es' := es + [PageExtent(p, 1)];
    SamePrefix(es, es', |es|);
    PagesOfNext(es', |es|);
  }

  lemma {:induction false} SamePrefix(es: seq<PageExtent>, es': seq<PageExtent>, n: nat)
    requires n <= |es| && n <= |es'| && es[..n] == es'[..n]
    ensures TotalOfFirst(es', n) == TotalOfFirst(es, n) && PagesOfFirst(es', n) == PagesOfFirst(es, n)
  {
    if n == 0 {
      PagesOfNone(es);
      PagesOfNone(es');
    } else {
      assert es[n - 1] == es[..n][n - 1] == es'[..n][n - 1] == es'[n - 1];
      assert es[..n - 1] == es[..n][..n - 1] == es'[..n - 1];
      SamePrefix(es, es', n - 1);
      PagesOfNext(es, n - 1);
      PagesOfNext(es', n - 1);
    }
  }

  /** A value can be placed exactly when the free pages have room for its bytes. */
  lemma AllocatableIff(l: Layout, free: set<int>, size: nat)
    requires l.Valid() && free <= Interval(0, l.pageCount) && 0 < size
    ensures (exists e :: Allocatable(l, free, size, e)) <==> size <= |free| * l.page
  {
    hide Allocatable;
    if e :| Allocatable(l, free, size, e) {
      AllocatedFits(l, free, size, e);
    }
    if size <= |free| * l.page {
      var e := PlaceValue(l, free, size);
    }
  }

  lemma AllocatedFits(l: Layout, free: set<int>, size: nat, e: Entry)
    requires Allocatable(l, free, size, e)
    ensures size <= |free| * l.page
  {
    AscendingSize(e.extents, |e.extents|);
    FlattenLength(e.extents);
    SubsetSize(Pages(e), free);
    MulMonotone(l.page, |Flatten(e.extents)|, |free|);
  }

  lemma PlaceValue(l: Layout, free: set<int>, size: nat) returns (e: Entry)
    requires l.Valid() && free <= Interval(0, l.pageCount) && 0 < size <= |free| * l.page
    ensures Allocatable(l, free, size, e)
  {
    hide Interval, PagesOfFirst, TotalOfFirst, Flatten;
    var n := (size + l.page - 1) / l.page;
    CeilingFits(size, l.page, n, |free|);
    var es := LowestExtents(free, n, l.pageCount);
    FlattenLength(es);
    e := Entry(size, es);
  }

  lemma CeilingFits(size: nat, page: nat, n: nat, most: nat)
    requires 0 < page && 0 < size <= most * page && n == (size + page - 1) / page
    ensures n * page - page < size <= n * page && n <= most
  {
    DivisionFacts(size + page - 1, page);
    if most < n { MulMonotone(page, most + 1, n); }
  }

  // ----- an entry's bytes ------------------------------------------------------------------------

  lemma EntryPages(l: Layout, e: Entry)
    requires EntryOk(l, e)
    ensures OnDevice(l, Flatten(e.extents))
    ensures forall p :: p in Flatten(e.extents) <==> p in Pages(e)
    ensures e.logicalSize <= |Flatten(e.extents)| * l.page
  {
    FlattenPages(e.extents);
    var pages := Flatten(e.extents);
    forall i | 0 <= i < |pages| ensures 0 <= pages[i] < l.pageCount {
      assert pages[i] in pages;
      assert pages[i] in Pages(e);
      assert pages[i] in Interval(0, l.pageCount);
    }
  }

  /** The device address of byte x of an entry. */
  ghost function AddressOf(l: Layout, e: Entry, x: nat): (a: nat)
    requires EntryOk(l, e) && x < e.logicalSize
    ensures a < l.Capacity() && a / l.page in Pages(e)
  {
    EntryPages(l, e);
    var pages := Flatten(e.extents);
    AddressOnDevice(l, pages, x);
    AddressInPage(l, pages, x);
    Address(l, pages, x)
  }

  lemma AddressInPage(l: Layout, pages: seq<int>, x: nat)
    requires 0 < l.page && x < |pages| * l.page
    ensures Address(l, pages, x) / l.page in pages
  {
    QuotientBelow(x, l.page, |pages|);
    AddMultiple(pages[x / l.page], x % l.page, l.page);
    RemainderUnique(x % l.page, l.page, 0, x % l.page);
  }

  /** The bytes an entry stands for, whatever commands wrote them. */
  ghost function Value(l: Layout, content: Bytes, e: Entry): (v: Bytes)
    ensures EntryOk(l, e) && |content| == l.Capacity() ==> |v| == e.logicalSize
  {
    if EntryOk(l, e) && |content| == l.Capacity() then
      seq(e.logicalSize, x requires 0 <= x < e.logicalSize => content[AddressOf(l, e, x)])
    else []
  }

  /** What a set of published entries means: the bytes readable under each key. */
  ghost function Store(l: Layout, content: Bytes, entries: map<Key, Entry>): map<Key, Bytes> {
    map k | k in entries :: Value(l, content, entries[k])
  }

  /** content' differs from content inside the given pages at most. */
  ghost predicate OnlyPages(l: Layout, content: Bytes, content': Bytes, touched: set<int>)
    requires 0 < l.page
  {
    && |content'| == |content|
    && forall a | 0 <= a < |content| && content'[a] != content[a] :: a / l.page in touched
  }

  lemma ValueUndisturbed(l: Layout, content: Bytes, content': Bytes, e: Entry, touched: set<int>)
    requires EntryOk(l, e) && |content| == l.Capacity()
    requires OnlyPages(l, content, content', touched) && Pages(e) !! touched
    ensures Value(l, content', e) == Value(l, content, e)
  {
    forall x | 0 <= x < e.logicalSize ensures Value(l, content', e)[x] == Value(l, content, e)[x] {
      var a := AddressOf(l, e, x);
    }
  }

  /** Writing inside one holder's pages leaves every other holder's bytes alone. */
  lemma OthersUndisturbed(l: Layout, held: Holdings, free: set<int>, content: Bytes, content': Bytes, h: Holder)
    requires OneOwner(l, held, free) && h in held && l.Valid() && |content| == l.Capacity()
    requires OnlyPages(l, content, content', Pages(held[h]))
    ensures forall g | g in held && g != h :: Value(l, content', held[g]) == Value(l, content, held[g])
  {
    hide Pages, EntryOk, OnlyPages, Value;
    forall g | g in held && g != h ensures Value(l, content', held[g]) == Value(l, content, held[g]) {
      ValueUndisturbed(l, content, content', held[g], Pages(held[h]));
    }
  }

  lemma StoreUndisturbed(l: Layout, held: Holdings, free: set<int>, content: Bytes, content': Bytes, h: Holder,
                         entries: map<Key, Entry>)
    requires OneOwner(l, held, free) && h in held && l.Valid() && |content| == l.Capacity()
    requires OnlyPages(l, content, content', Pages(held[h])) && !h.Published?
    requires Extends(held, entries)
    ensures Store(l, content', entries) == Store(l, content, entries)
  {
    hide OneOwner, Pages, EntryOk, OnlyPages, Value;
    OthersUndisturbed(l, held, free, content, content', h);
    forall k | k in entries ensures Value(l, content', entries[k]) == Value(l, content, entries[k]) {
      assert Published(k) in held;
    }
  }

  lemma StorePublish(l: Layout, content: Bytes, entries: map<Key, Entry>, key: Key, e: Entry)
    ensures Store(l, content, entries[key := e]) == Store(l, content, entries)[key := Value(l, content, e)]
  {
    hide Value;
  }

  // ----- commands against entries ----------------------------------------------------------------

  /** What a write command puts on the device: the caller's bytes, then zeros up to the page boundary. */
  function Staged(data: Bytes, physicalLength: nat): (s: Bytes)
    requires |data| <= physicalLength
    ensures |s| == physicalLength && s[..|data|] == data
  {
    data + Zeros(physicalLength - |data|)
  }

  /** The caller's bytes of one command. */
  function Slice(buffer: Bytes, item: IoBatchItem): Bytes
    requires item.bufferOffset + item.logicalLength <= |buffer|
  {
    buffer[item.bufferOffset..item.bufferOffset + item.logicalLength]
  }

  function Overwrite(content: Bytes, offset: nat, data: Bytes): (c: Bytes)
    requires offset + |data| <= |content|
    ensures |c| == |content|
    ensures c[offset..offset + |data|] == data
    ensures forall a | 0 <= a < |content| && !(offset <= a < offset + |data|) :: c[a] == content[a]
  {
    content[..offset] + data + content[offset + |data|..]
  }

  predicate Holds(item: IoBatchItem, x: int) {
    item.bufferOffset <= x < item.bufferOffset + item.logicalLength
  }

  /** The device range of a command. */
  predicate Touches(item: IoBatchItem, a: int) {
    item.byteOffset <= a < item.byteOffset + item.physicalLength
  }

  /** Two commands touch disjoint device ranges. */
  predicate RangesApart(a: IoBatchItem, b: IoBatchItem) {
    a.byteOffset + a.physicalLength <= b.byteOffset || b.byteOffset + b.physicalLength <= a.byteOffset
  }

  /** A command of entry e: valid, within e's pages, and where e's bytes live. */
  ghost predicate CommandOf(l: Layout, e: Entry, item: IoBatchItem)
    requires EntryOk(l, e)
  {
    && ValidItem(l, item) && 0 < item.logicalLength
    && item.bufferOffset + item.logicalLength <= e.logicalSize
    && (forall a | Touches(item, a) :: a / l.page in Pages(e))
    && (forall x: nat | Holds(item, x) ::
          AddressOf(l, e, x) == item.byteOffset + (x - item.bufferOffset))
  }

  /** The commands of an entry cover its bytes and touch disjoint ranges, in buffer order. */
  ghost predicate CommandsOf(l: Layout, e: Entry, items: seq<IoBatchItem>)
    requires EntryOk(l, e)
  {
    && items != []
    && (forall i | 0 <= i < |items| :: CommandOf(l, e, items[i]))
    && (forall i, j | 0 <= i < j < |items| :: RangesApart(items[i], items[j]))
    && (forall i | 0 <= i < |items| - 1 ::
          items[i].bufferOffset + items[i].logicalLength == items[i + 1].bufferOffset)
    && items[0].bufferOffset == 0
    && items[|items| - 1].bufferOffset + items[|items| - 1].logicalLength == e.logicalSize
  }

  lemma SegmentsAreCommands(l: Layout, e: Entry)
    requires EntryOk(l, e)
    ensures CommandsOf(l, e, SegmentsOf(l, e))
  {
    var pages, items := Flatten(e.extents), SegmentsOf(l, e);
    EntryPages(l, e);
    FlattenPages(e.extents);
    SegmentsOfTile(l, e);
    TilingTotal(l, pages, e.logicalSize, items, 0);
    forall i | 0 <= i < |items| ensures CommandOf(l, e, items[i]) {
      SegmentsAreValid(l, pages, e.logicalSize, items, i);
      PlacedIsCommand(l, e, items[i]);
    }
    forall i, j | 0 <= i < j < |items| ensures RangesApart(items[i], items[j]) {
      TilesAscend(l, pages, e.logicalSize, items, i, j);
      var last := items[i].bufferOffset + items[i].physicalLength - 1;
      assert Address(l, pages, last) == items[i].byteOffset + items[i].physicalLength - 1;
      assert Address(l, pages, items[j].bufferOffset) == items[j].byteOffset;
      AddressAscends(l, pages, last, items[j].bufferOffset);
    }
  }

  lemma PlacedIsCommand(l: Layout, e: Entry, item: IoBatchItem)
    requires EntryOk(l, e) && ItemPlaced(l, Flatten(e.extents), e.logicalSize, item) && ValidItem(l, item)
    ensures CommandOf(l, e, item)
  {
    var pages := Flatten(e.extents);
    EntryPages(l, e);
    forall a | Touches(item, a) ensures a / l.page in Pages(e) {
      var x := item.bufferOffset + (a - item.byteOffset);
      AddressInPage(l, pages, x);
    }
  }

  lemma TilesAscend(l: Layout, pages: seq<int>, size: nat, items: seq<IoBatchItem>, i: nat, j: nat)
    requires 0 < l.page && Tiles(l, pages, size, items, 0) && i < j < |items|
    ensures items[i].bufferOffset + items[i].physicalLength <= items[j].bufferOffset
  {
    if i + 1 < j {
      TilesAscend(l, pages, size, items, i, j - 1);
      assert ItemPlaced(l, pages, size, items[j - 1]);
    }
  }

  lemma DivisionOrder(x: int, y: int, n: int)
    requires 0 < n && 0 <= x < y
    ensures x / n < y / n || (x / n == y / n && x % n < y % n)
  {
    var a, b := x / n, y / n;
    assert x == n * a + x % n && y == n * b + y % n;
    if b < a { MulMonotone(n, b + 1, a); }
  }

  lemma AddressAscends(l: Layout, pages: seq<int>, x: nat, y: nat)
    requires 0 < l.page && StrictlyAscending(pages) && x < y < |pages| * l.page
    ensures Address(l, pages, x) < Address(l, pages, y)
  {
    QuotientBelow(x, l.page, |pages|);
    QuotientBelow(y, l.page, |pages|);
    DivisionOrder(x, y, l.page);
    var a, b := x / l.page, y / l.page;
    if a < b {
      MulMonotone(l.page, pages[a] + 1, pages[b]);
      Distribute(pages[a], 1, l.page);
    }
  }

  /** Later commands of an entry fill later parts of the buffer. */
  lemma BuffersAscend(l: Layout, e: Entry, items: seq<IoBatchItem>, i: nat, j: nat)
    requires EntryOk(l, e) && CommandsOf(l, e, items) && i < j < |items|
    ensures items[i].bufferOffset + items[i].logicalLength <= items[j].bufferOffset
  {
    if i + 1 < j {
      BuffersAscend(l, e, items, i, j - 1);
      assert CommandOf(l, e, items[j - 1]);
    }
  }

  /** Every byte of the entry belongs to one of its commands. */
  lemma HoldingCommand(l: Layout, e: Entry, items: seq<IoBatchItem>, x: nat, upTo: nat) returns (i: nat)
    requires EntryOk(l, e) && CommandsOf(l, e, items) && upTo < |items|
    requires x < items[upTo].bufferOffset + items[upTo].logicalLength
    ensures i < |items| && Holds(items[i], x)
  {
    if items[upTo].bufferOffset <= x { return upTo; }
    i := HoldingCommand(l, e, items, x, upTo - 1);
  }

  /** The range of a write command that succeeded. */
  ghost predicate Written(content: Bytes, item: IoBatchItem, buffer: Bytes)
    requires item.bufferOffset + item.logicalLength <= |buffer|
    requires item.logicalLength <= item.physicalLength
  {
    && 0 <= item.byteOffset && item.byteOffset + item.physicalLength <= |content|
    && content[item.byteOffset..item.byteOffset + item.physicalLength]
       == Staged(Slice(buffer, item), item.physicalLength)
  }

  lemma WrittenByte(content: Bytes, item: IoBatchItem, buffer: Bytes, x: nat)
    requires item.bufferOffset + item.logicalLength <= |buffer| && item.logicalLength <= item.physicalLength
    requires Written(content, item, buffer) && Holds(item, x)
    ensures content[item.byteOffset + (x - item.bufferOffset)] == buffer[x]
  {
    var k := x - item.bufferOffset;
    var range := content[item.byteOffset..item.byteOffset + item.physicalLength];
    assert range[k] == Staged(Slice(buffer, item), item.physicalLength)[k] == Slice(buffer, item)[k];
  }

  /** When all of an entry's commands have succeeded, in whatever order, the entry holds the buffer. */
  lemma AllWritten(l: Layout, e: Entry, content: Bytes, buffer: Bytes)
    requires EntryOk(l, e) && |content| == l.Capacity() && |buffer| == e.logicalSize
    requires forall i | 0 <= i < |SegmentsOf(l, e)| ::
      var item := SegmentsOf(l, e)[i];
      item.bufferOffset + item.logicalLength <= |buffer| && item.logicalLength <= item.physicalLength
      && Written(content, item, buffer)
    ensures Value(l, content, e) == buffer
  {
    hide SegmentsOf, Written, Staged, Slice;
    var items := SegmentsOf(l, e);
    SegmentsAreCommands(l, e);
    forall x | 0 <= x < e.logicalSize ensures Value(l, content, e)[x] == buffer[x] {
      var i := HoldingCommand(l, e, items, x, |items| - 1);
      assert CommandOf(l, e, items[i]);
      WrittenByte(content, items[i], buffer, x);
    }
  }

  lemma CopiedByte(content: Bytes, item: IoBatchItem, buffer: Bytes, x: nat)
    requires Copied(content, item, buffer) && Holds(item, x)
    ensures content[item.byteOffset + (x - item.bufferOffset)] == buffer[x]
  {
    assert Slice(buffer, item)[x - item.bufferOffset] == buffer[x];
  }

  /** When every command's bytes are copied to their place in the buffer, it holds the entry's bytes. */
  lemma AllCopied(l: Layout, e: Entry, content: Bytes, buffer: Bytes)
    requires EntryOk(l, e) && |content| == l.Capacity() && |buffer| == e.logicalSize
    requires forall i | 0 <= i < |SegmentsOf(l, e)| :: Copied(content, SegmentsOf(l, e)[i], buffer)
    ensures buffer == Value(l, content, e)
  {
    hide SegmentsOf, Copied;
    var items := SegmentsOf(l, e);
    SegmentsAreCommands(l, e);
    forall x | 0 <= x < e.logicalSize ensures buffer[x] == Value(l, content, e)[x] {
      var i := HoldingCommand(l, e, items, x, |items| - 1);
      assert CommandOf(l, e, items[i]) && Copied(content, items[i], buffer);
      CopiedByte(content, items[i], buffer, x);
    }
  }

  /** The logical bytes of a read command have reached the caller's buffer. */
  ghost predicate Copied(content: Bytes, item: IoBatchItem, buffer: Bytes) {
    && 0 <= item.byteOffset && item.byteOffset + item.logicalLength <= |content|
    && item.bufferOffset + item.logicalLength <= |buffer|
    && Slice(buffer, item) == content[item.byteOffset..item.byteOffset + item.logicalLength]
  }
}
