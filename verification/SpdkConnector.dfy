/** The keyed store over one bdev: copy-on-write stores, per-key entries and the page allocator. */
module SpdkConnectors {
  import opened Basics
  import opened FreeMap
  import opened PageExtentAllocators
  import opened Segments
  import opened Ownership
  import opened Bdevs
  import Geo = StorageGeometry

  datatype StoreError =
    | EmptyValue | DuplicateKey | PageCountOverflow | CapacityExhausted
    | DeviceFailed | MissingOrWrongSize

  /** A requested key's new extents, and the entry they are going to replace. */
  datatype Reservation = Reservation(index: nat, entry: Entry, previous: Option<Entry>)

  ghost predicate IsReserved(rs: seq<Reservation>, i: int) {
    exists p :: 0 <= p < |rs| && rs[p].index == i
  }

  class SpdkConnector {
    const l: Layout
    const allocator: PageExtentAllocator
    const bdev: Bdev
    var entries: map<Key, Entry>

    ghost predicate Ready()
      reads allocator, bdev`content
    {
      && l.Valid() && l.pageCount <= U64_MAX && l.page <= U64_MAX
      && allocator.Valid() && allocator.totalPageCount == l.pageCount
      && |bdev.content| == l.Capacity()
    }

    /** The given holders and the free list share the device's pages. */
    ghost predicate Owns(held: Holdings)
      reads allocator, bdev`content
    {
      Ready() && OneOwner(l, held, allocator.Free())
    }

    ghost predicate Valid()
      reads this, allocator, bdev`content
    {
      Owns(Holding(entries))
    }

    /** What the store means: the bytes readable under each key. */
    ghost function Abs(): map<Key, Bytes>
      reads this, bdev`content
    {
      Store(l, bdev.content, entries)
    }

    lemma HeldEntries()
      requires Valid()
      ensures forall k | k in entries :: EntryOk(l, entries[k])
    {
      forall k | k in entries ensures EntryOk(l, entries[k]) {
        assert Published(k) in Holding(entries);
      }
    }

    constructor (layout: Layout)
      requires layout.Valid() && layout.pageCount <= U64_MAX && layout.page <= U64_MAX
      ensures Valid() && l == layout && Abs() == map[]
      ensures fresh(allocator) && fresh(bdev) && allocator.Free() == Interval(0, l.pageCount)
    {
      MulMonotone(layout.page, 0, layout.pageCount);
      l := layout;
      allocator := new PageExtentAllocator(layout.pageCount);
      bdev := new Bdev(layout.Capacity());
      entries := map[];
    }

    method PagesNeeded(length: nat) returns (r: Result<u64, StoreError>)
      requires l.Valid() && l.page <= U64_MAX && length <= U64_MAX
      ensures r.Ok? <==> length + l.page - 1 <= U64_MAX
      ensures r.Ok? ==> r.value * l.page - l.page < length <= r.value * l.page
      ensures r.Err? ==> r.error == PageCountOverflow
      ensures r.Ok? ==> Geo.PagesForBytes(l.page, length) == Result.Ok(r.value)
      ensures r.Err? ==> Geo.PagesForBytes(l.page, length).Err?
    {
      Geo.PagesForBytesIsCeiling(l.page, length);
      var pages := Geo.PagesForBytes(l.page, length);
      return if pages.Ok? then Ok(pages.value) else Err(PageCountOverflow);
    }

    // allocate for `length` bytes on behalf of holder h.
    method AllocateEntry(length: nat, ghost held: Holdings, ghost h: Holder) returns (r: Result<Entry, StoreError>)
      requires Owns(held) && h !in held
      requires 0 < length <= U64_MAX
      modifies allocator
      ensures r.Err? ==> r.error == PageCountOverflow || r.error == CapacityExhausted
      ensures r.Err? ==> Owns(held) && allocator.freeExtents == old(allocator.freeExtents)
      ensures r == Err(CapacityExhausted) <==>
                && Geo.PagesForBytes(l.page, length).Ok?
                && Geo.PagesForBytes(l.page, length).value > old(allocator.freePageCount)
      ensures r.Ok? ==> EntryOk(l, r.value) && r.value.logicalSize == length
      ensures r.Ok? ==> Owns(held[h := r.value])
      ensures r.Ok? ==> Pages(r.value) <= old(allocator.Free())
      ensures r.Ok? ==> allocator.Free() == old(allocator.Free()) - Pages(r.value)
      ensures r == Err(PageCountOverflow) <==> Geo.PagesForBytes(l.page, length).Err?
      ensures r.Ok? ==> allocator.freePageCount == old(allocator.freePageCount) - Geo.PagesForBytes(l.page, length).value
    {
      var pages := PagesNeeded(length);
      if pages.Err? { return Err(pages.error); }
      var extents := allocator.Allocate(pages.value);
      if extents.Err? {
        if pages.value == 0 { assert false; }
        return Err(CapacityExhausted);
      }
      var e := Entry(length, extents.value);
      FlattenLength(extents.value);
      TakePages(l, held, old(allocator.Free()), h, e);
      r := Ok(e);
    }

    // release of an entry's extents: never rejected, because the holder owns the pages.
    method ReleaseEntry(e: Entry, ghost held: Holdings, ghost h: Holder)
      requires Owns(held) && h in held && held[h] == e
      modifies allocator
      ensures Owns(held - {h})
      ensures allocator.Free() == old(allocator.Free()) + Pages(e)
    {
      GivePages(l, held, allocator.Free(), h);
      ExtentsAreWords(l, e);
      assert Returnable(e.extents, l.pageCount, allocator.Free());
      var rejected, done := allocator.Release(e.extents);
    }

    // AppendSegments for an entry the connector allocated: the two throws cannot happen.
    method Commands(e: Entry) returns (items: seq<IoBatchItem>)
      requires Ready() && EntryOk(l, e)
      ensures items == SegmentsOf(l, e) && CommandsOf(l, e, items) && bdev.Accepts(items)
    {
      SegmentsOfTile(l, e);
      SegmentsAreCommands(l, e);
      hide SegmentsFrom, SegmentsOf, Fits, Tiles, EntryOk;
      var r := AppendSegments(l, e);
      if r.Err? { assert false; }
      items := r.value;
      forall i | 0 <= i < |items| ensures CommandOf(l, e, items[i]) {}
    }

    // One batch for the entry's commands; answer is what the device said to it.
    method Write(e: Entry, buffer: Bytes, ghost held: Holdings, ghost h: Holder)
      returns (ok: bool, ghost answer: Option<seq<bool>>)
      requires Owns(held) && h in held && held[h] == e
      requires |buffer| == e.logicalSize
      modifies bdev
      ensures Owns(held) && OnlyPages(l, old(bdev.content), bdev.content, Pages(e))
      ensures ok ==> Value(l, bdev.content, e) == buffer
      ensures bdev.history == old(bdev.history) + [Served(true, SegmentsOf(l, e), answer)]
      ensures ok <==> Granted(answer)
    {
      hide OneOwner, Value, EntryOk, OnlyPages, Pages, SegmentsOf, PageExtentAllocator.Free, PageExtentAllocator.Valid, Staged;
      OwnerOk(l, held, allocator.Free(), h);
      var items := Commands(e);
      var data := Slices(buffer, items, e, l);
      var results := bdev.WriteBatch(items, data);
      answer := results;
      CommandsStayInside(l, e, items, old(bdev.content), bdev.content);
      ok := Granted(results);
      if ok {
        AllWritten(l, e, bdev.content, buffer);
      }
    }

    method Read(e: Entry, buffer: Bytes) returns (ok: bool, filled: Bytes, ghost answer: Option<seq<bool>>)
      requires Ready() && EntryOk(l, e) && |buffer| == e.logicalSize
      modifies bdev`history
      ensures |filled| == |buffer|
      ensures ok ==> filled == Value(l, bdev.content, e)
      ensures bdev.history == old(bdev.history) + [Served(false, SegmentsOf(l, e), answer)]
      ensures ok <==> Granted(answer)
    {
      hide Value, EntryOk;
      var items := Commands(e);
      var results := bdev.ReadBatch(items);
      answer := Flags(results);
      if results.None? { return false, buffer, answer; }
      ok, filled := CopyOut(items, results.value, buffer, e);
      if ok {
        AllCopied(l, e, bdev.content, filled);
      }
    }

    // The completion callbacks copy each successful command's bytes to its place in the buffer.
    method CopyOut(items: seq<IoBatchItem>, results: seq<Option<Bytes>>, buffer: Bytes, e: Entry)
      returns (ok: bool, filled: Bytes)
      requires EntryOk(l, e) && CommandsOf(l, e, items) && bdev.Accepts(items) && |buffer| == e.logicalSize
      requires |results| == |items|
      requires forall i | 0 <= i < |items| && results[i].Some? ::
        results[i].value == bdev.content[items[i].byteOffset..items[i].byteOffset + items[i].logicalLength]
      ensures |filled| == |buffer|
      ensures ok <==> forall i | 0 <= i < |results| :: results[i].Some?
      ensures ok ==> forall i | 0 <= i < |items| :: Copied(bdev.content, items[i], filled)
    {
      hide EntryOk, CommandsOf, Copied;
      CommandsThere(e, items);
      ok, filled := true, buffer;
      for i := 0 to |items|
        invariant |filled| == |buffer|
        invariant ok <==> forall j | 0 <= j < i :: results[j].Some?
        invariant ok ==> forall j | 0 <= j < i :: Copied(bdev.content, items[j], filled)
      {
        assert CommandOf(l, e, items[i]);
        if results[i].None? {
          ok := false;
        } else {
          ghost var before := filled;
          filled := Overwrite(filled, items[i].bufferOffset, results[i].value);
          if ok {
            CopiedNow(bdev.content, items[i], before, results[i].value);
            forall j | 0 <= j < i ensures Copied(bdev.content, items[j], filled) {
              BuffersAscend(l, e, items, j, i);
              CopiedKept(bdev.content, items[j], before, filled);
            }
          }
        }
      }
    }

    lemma CommandsThere(e: Entry, items: seq<IoBatchItem>)
      requires EntryOk(l, e) && CommandsOf(l, e, items)
      ensures forall i | 0 <= i < |items| :: CommandOf(l, e, items[i])
    {}

    // ----- the connector's hooks -----------------------------------------------------------------

    // served lists the batches that the call asked the device for.
    method DoSingleGet(key: Key, buffer: Bytes) returns (r: Result<Bytes, StoreError>, ghost served: seq<Served>)
      requires Valid()
      modifies bdev`history
      ensures bdev.history == old(bdev.history) + served
      ensures key !in Abs() || |buffer| != |Abs()[key]| ==> served == []
      ensures key in Abs() && |buffer| == |Abs()[key]| ==>
                |served| == 1 && r == if Granted(served[0].answer) then Ok(Abs()[key]) else Err(DeviceFailed)
      ensures r.Ok? ==> key in Abs() && |buffer| == |Abs()[key]| && r.value == Abs()[key]
      ensures key !in Abs() || |buffer| != |Abs()[key]| <==> r == Err(MissingOrWrongSize)
      ensures r.Err? ==> r.error == MissingOrWrongSize || r.error == DeviceFailed
    {
      HeldEntries();
      if key !in entries || |buffer| != entries[key].logicalSize { return Err(MissingOrWrongSize), []; }
      ghost var answer;
      var ok, filled;
      ok, filled, answer := Read(entries[key], buffer);
      served := bdev.history[|old(bdev.history)|..];
      r := if ok then Ok(filled) else Err(DeviceFailed);
    }

    method DoSingleExists(key: Key) returns (present: bool)
      requires Valid()
      ensures present <==> key in Abs()
    {
      present := key in entries;
    }

    method DoSingleDelete(key: Key) returns (present: bool)
      requires Valid()
      modifies this, allocator
      ensures Valid()
      ensures present <==> key in old(Abs())
      ensures Abs() == old(Abs()) - {key}
      ensures allocator.Free() == old(allocator.Free() + PagesUnder(key))
    {
      hide OneOwner, Value, EntryOk, Pages, Canonical, PagesOf, PageExtentAllocator.Valid, Layout.Valid;
      if key !in entries { return false; }
      ghost var held := Holding(entries);
      var e := entries[key];
      entries := entries - {key};
      assert Published(key) in held && held[Published(key)] == e;
      ReleaseEntry(e, held, Published(key));
      assert Holding(entries) == held - {Published(key)};
      present := true;
    }

    /** The pages of the entry published under a key. */
    ghost function PagesUnder(key: Key): set<int>
      reads this
    {
      if key in entries then Pages(entries[key]) else {}
    }

    // Publication of a fully written reservation, then release of the entry it replaces.
    method Publish(key: Key, e: Entry)
      requires Owns(Holding(entries)[Reserved(0, 0) := e])
      modifies this, allocator
      ensures Valid() && entries == old(entries)[key := e]
      ensures allocator.Free() == old(allocator.Free() + PagesUnder(key))
    {
      hide OneOwner, Pages, EntryOk, Canonical, PagesOf, PageExtentAllocator.Valid, Layout.Valid;
      ghost var P, R, T := Published(key), Reserved(0, 0), Retiring(0, 0);
      ghost var held := Holding(entries)[R := e];
      var previous := if key in entries then Some(entries[key]) else None;
      if previous.Some? {
        PassPages(l, held, allocator.Free(), P, T);
        held := (held - {P})[T := held[P]];
      }
      PassPages(l, held, allocator.Free(), R, P);
      held := (held - {R})[P := held[R]];
      entries := entries[key := e];
      if previous.Some? {
        ReleaseEntry(previous.value, held, T);
        held := held - {T};
      }
      assert Holding(entries) == held;
    }

    // Copy on write: the new extents are published only after every command has succeeded.
    // served lists the batches that the call asked the device for.
    method DoSingleSet(key: Key, buffer: Bytes) returns (r: Result<(), StoreError>, ghost served: seq<Served>)
      requires Valid() && |buffer| <= U64_MAX
      modifies this, allocator, bdev
      ensures Valid()
      ensures |buffer| == 0 <==> r == Err(EmptyValue)
      ensures r.Err? ==> Abs() == old(Abs()) && allocator.freeExtents == old(allocator.freeExtents)
      ensures r.Ok? ==> Abs() == (if KeepsOld(old(Abs()), key, buffer) then old(Abs()) else old(Abs())[key := buffer])
      ensures |buffer| > 0 && KeepsOld(old(Abs()), key, buffer) ==>
                r.Ok? && allocator.freeExtents == old(allocator.freeExtents)
      ensures r.Ok? && !KeepsOld(old(Abs()), key, buffer) ==>
                allocator.Free() == old(allocator.Free()) - PagesUnder(key) + old(PagesUnder(key))
      ensures bdev.history == old(bdev.history) + served
      ensures |buffer| == 0 || KeepsOld(old(Abs()), key, buffer) ==> served == []
      ensures |buffer| > 0 && !KeepsOld(old(Abs()), key, buffer) ==>
                Replaced(Geo.PagesForBytes(l.page, |buffer|), old(allocator.freePageCount), r, served)
    {
      hide SpdkConnector.Owns, Store, KeepsOld, Replaced, Geo.PagesForBytes, PageExtentAllocator.Free, SpdkConnector.PagesUnder;
      if |buffer| == 0 { return Err(EmptyValue), []; }
      KeepsNow(key, buffer);
      if key in entries && entries[key].logicalSize != |buffer| { return Ok(()), []; }
      r, served := Replace(key, buffer);
    }

    lemma KeepsNow(key: Key, buffer: Bytes)
      requires Valid()
      ensures key in entries && entries[key].logicalSize != |buffer| <==> KeepsOld(Abs(), key, buffer)
    {
      HeldEntries();
    }

    // A value that is not kept is written to new pages and takes the key over.
    method Replace(key: Key, buffer: Bytes) returns (r: Result<(), StoreError>, ghost served: seq<Served>)
      requires Valid() && 0 < |buffer| <= U64_MAX
      modifies this, allocator, bdev
      ensures Valid()
      ensures r.Err? ==> r.error != EmptyValue
      ensures r.Err? ==> Abs() == old(Abs()) && allocator.freeExtents == old(allocator.freeExtents)
      ensures r.Ok? ==> Abs() == old(Abs())[key := buffer]
      ensures r.Ok? ==> allocator.Free() == old(allocator.Free()) - PagesUnder(key) + old(PagesUnder(key))
      ensures bdev.history == old(bdev.history) + served
      ensures Replaced(Geo.PagesForBytes(l.page, |buffer|), old(allocator.freePageCount), r, served)
    {
      hide OneOwner, Value, EntryOk, Pages, Canonical, PagesOf, PageExtentAllocator.Valid, Layout.Valid, Geo.PagesForBytes;
      hide Store, SpdkConnector.Owns, PageExtentAllocator.Free, Holding, Replaced;
      var replacement;
      replacement, served := WriteReplacement(buffer);
      if replacement.Err? { return Err(replacement.error), served; }
      StorePublish(l, bdev.content, entries, key, replacement.value);
      Publish(key, replacement.value);
      r := Ok(());
    }

    // Reserve extents and write them; on failure they go back to the allocator.
    method WriteReplacement(buffer: Bytes) returns (r: Result<Entry, StoreError>, ghost served: seq<Served>)
      requires Valid() && 0 < |buffer| <= U64_MAX
      modifies allocator, bdev
      ensures Abs() == old(Abs())
      ensures r.Err? ==> r.error != EmptyValue
      ensures r.Err? ==> Valid() && allocator.freeExtents == old(allocator.freeExtents)
      ensures r.Ok? ==> Owns(Holding(entries)[Reserved(0, 0) := r.value])
      ensures r.Ok? ==> Value(l, bdev.content, r.value) == buffer
      ensures r.Ok? ==> allocator.Free() == old(allocator.Free()) - Pages(r.value)
      ensures bdev.history == old(bdev.history) + served
      ensures Replaced(Geo.PagesForBytes(l.page, |buffer|), old(allocator.freePageCount), Done(r), served)
    {
      hide SpdkConnector.Owns, SpdkConnector.MapOf, Value, Store, Pages, OnlyPages, Holding, Extends, EntryOk;
      hide PageExtentAllocator.Free, Geo.PagesForBytes;
      MapOfNow();
      HoldingIsPublished(entries, Reserved(0, 0));
      ghost var R := Reserved(0, 0);
      var replacement := AllocateEntry(|buffer|, Holding(entries), R);
      if replacement.Err? { return Err(replacement.error), []; }
      var e := replacement.value;
      ghost var held := Holding(entries)[R := e];
      HoldingExtends(entries, R, e);
      ghost var answer;
      var written;
      written, answer := Write(e, buffer, held, R);
      served := bdev.history[|old(bdev.history)|..];
      Undisturbed(held, R, old(bdev.content));
      if !written {
        ReleaseEntry(e, held, R);
        assert held - {R} == Holding(entries);
        SameFreeMap(old(allocator.freeExtents));
        return Err(DeviceFailed), served;
      }
      r := Ok(e);
    }

    /** runs is the free map that belongs to the published entries. */
    ghost predicate MapOf(runs: Runs)
      reads this
    {
      0 <= l.pageCount <= U64_MAX && Canonical(runs, l.pageCount) && OneOwner(l, Holding(entries), PagesOf(runs))
    }

    lemma MapOfNow()
      requires Valid()
      ensures Owns(Holding(entries)) && MapOf(allocator.freeExtents)
    {}

    lemma Undisturbed(held: Holdings, h: Holder, content: Bytes)
      requires Owns(held) && h in held && !h.Published? && Extends(held, entries)
      requires OnlyPages(l, content, bdev.content, Pages(held[h]))
      ensures Abs() == Store(l, content, entries)
    {
      StoreUndisturbed(l, held, allocator.Free(), content, bdev.content, h, entries);
    }

    lemma Pass(held: Holdings, h: Holder, h': Holder)
      requires Owns(held) && h in held && h' !in held
      ensures Owns((held - {h})[h' := held[h]])
    {
      PassPages(l, held, allocator.Free(), h, h');
    }

    // With the same published entries the free map is the same, whatever happened in between.
    lemma SameFreeMap(runs: Runs)
      requires Owns(Holding(entries)) && MapOf(runs)
      ensures Valid() && allocator.freeExtents == runs
    {
      FreeDetermined(l, Holding(entries), allocator.Free(), PagesOf(runs));
      CanonicalUnique(allocator.freeExtents, runs, l.pageCount);
    }

    // ----- batch load: one read batch for every key whose size matches ---------------------------

    // Keys may repeat; each request has its own destination buffer. served lists the batches asked for.
    method DoBatchGet(keys: seq<Key>, buffers: seq<Bytes>)
      returns (success: seq<bool>, filled: seq<Bytes>, ghost served: seq<Served>)
      requires Valid() && |keys| == |buffers|
      modifies bdev`history
      ensures |success| == |filled| == |keys|
      ensures forall i | 0 <= i < |keys| && success[i] :: keys[i] in Abs() && filled[i] == Abs()[keys[i]]
      ensures forall i | 0 <= i < |keys| :: |filled[i]| == |buffers[i]|
      ensures forall i | 0 <= i < |keys| && (keys[i] !in Abs() || |Abs()[keys[i]]| != |buffers[i]|) :: !success[i]
      ensures bdev.history == old(bdev.history) + served
      ensures LoadedAsServed(l, entries, keys, buffers, success, served)
    {
      hide OneOwner, EntryOk, Value, Gathered, CommandsOf, Pages, PageExtentAllocator.Valid, SegmentsOf, ReadCommandsOf, KeyGranted;
      HeldEntries();
      var items, itemToKey, starts := Gather(keys, buffers);
      var results := Some([]);
      served := [];
      if items != [] {
        results := bdev.ReadBatch(items);
        served := [Served(false, items, Flags(results))];
      }
      if results.None? {
        success, filled := seq(|keys|, i => false), buffers;
        NoneGranted(l, entries, keys, buffers, served);
        return;
      }
      success, filled := Scatter(keys, buffers, items, itemToKey, starts, results.value);
      forall k | 0 <= k < |keys| && Matches(entries, keys[k], buffers[k])
        ensures success[k] <==> KeyGranted(l, entries, keys, buffers, served, k)
      {
        GrantedByItems(l, entries, keys, buffers, items, itemToKey, starts, served, results.value, k);
      }
    }

    // The results of one read batch, command by command: bytes to their buffer, failures to their key.
    method Scatter(keys: seq<Key>, buffers: seq<Bytes>, items: seq<IoBatchItem>, itemToKey: seq<nat>,
                   ghost starts: seq<nat>, results: seq<Option<Bytes>>) returns (success: seq<bool>, filled: seq<Bytes>)
      requires Valid() && |keys| == |buffers| && |itemToKey| == |items| == |results|
      requires Gathered(l, entries, keys, buffers, |keys|, items, itemToKey, starts) && bdev.Accepts(items)
      requires forall i | 0 <= i < |items| && results[i].Some? ::
                 results[i].value == bdev.content[items[i].byteOffset..items[i].byteOffset + items[i].logicalLength]
      ensures |success| == |filled| == |keys|
      ensures forall k | 0 <= k < |keys| :: |filled[k]| == |buffers[k]|
      ensures forall k | 0 <= k < |keys| ::
                success[k] <==> Matches(entries, keys[k], buffers[k]) && AllArrived(itemToKey, results, k, |items|)
      ensures forall k | 0 <= k < |keys| && success[k] :: filled[k] == Value(l, bdev.content, entries[keys[k]])
    {
      hide OneOwner, EntryOk, Value, Gathered, CommandsOf, Pages, PageExtentAllocator.Valid, SegmentsOf, Copied;
      HeldEntries();
      var current := entries;
      success := seq(|keys|, i requires 0 <= i < |keys| => Matches(current, keys[i], buffers[i]));
      filled := buffers;
      forall i | 0 <= i < |items|
        ensures itemToKey[i] < |keys| && items[i].bufferOffset + items[i].logicalLength <= |buffers[itemToKey[i]]|
      {
        GatheredItem(l, entries, keys, buffers, items, itemToKey, starts, i);
      }
      for p := 0 to |items|
        invariant |success| == |filled| == |keys|
        invariant forall k | 0 <= k < |keys| :: |filled[k]| == |buffers[k]|
        invariant forall k | 0 <= k < |keys| ::
                    success[k] <==> Matches(entries, keys[k], buffers[k]) && AllArrived(itemToKey, results, k, p)
        invariant forall i | 0 <= i < p && success[itemToKey[i]] :: Copied(bdev.content, items[i], filled[itemToKey[i]])
      {
        var k := itemToKey[p];
        if results[p].None? {
          success := success[k := false];
        } else {
          var before := filled;
          filled := filled[k := Overwrite(filled[k], items[p].bufferOffset, results[p].value)];
          CopiedNow(bdev.content, items[p], before[k], results[p].value);
          forall i | 0 <= i < p && success[itemToKey[i]]
            ensures Copied(bdev.content, items[i], filled[itemToKey[i]])
          {
            if itemToKey[i] == k {
              GatheredAscend(l, entries, keys, buffers, items, itemToKey, starts, i, p);
              CopiedKept(bdev.content, items[i], before[k], filled[k]);
            }
          }
        }
      }
      forall k | 0 <= k < |keys| && success[k] ensures filled[k] == Value(l, bdev.content, entries[keys[k]]) {
        GatheredCopied(l, entries, keys, buffers, items, itemToKey, starts, k, bdev.content, filled[k]);
      }
    }

    // The commands of every matching request, with the request each one belongs to.
    method Gather(keys: seq<Key>, buffers: seq<Bytes>)
      returns (items: seq<IoBatchItem>, itemToKey: seq<nat>, ghost starts: seq<nat>)
      requires Valid() && |keys| == |buffers|
      ensures Gathered(l, entries, keys, buffers, |keys|, items, itemToKey, starts) && bdev.Accepts(items)
      ensures |itemToKey| == |items| && items == ReadCommandsOf(l, entries, keys, buffers, |keys|)
      ensures |starts| == |keys| && forall k | 0 <= k < |keys| :: starts[k] == |ReadCommandsOf(l, entries, keys, buffers, k)|
    {
      hide OneOwner, EntryOk, Gathered, CommandsOf, Pages, PageExtentAllocator.Valid, PageExtentAllocator.Free, SegmentsOf;
      hide ReadCommandsOf, Holding;
      HeldEntries();
      items, itemToKey, starts := [], [], [];
      NothingRead(l, entries, keys, buffers);
      NothingGathered(l, entries, keys, buffers);
      for i := 0 to |keys|
        invariant Gathered(l, entries, keys, buffers, i, items, itemToKey, starts) && bdev.Accepts(items)
        invariant |itemToKey| == |items| && items == ReadCommandsOf(l, entries, keys, buffers, i)
        invariant |starts| == i && forall k | 0 <= k < i :: starts[k] == |ReadCommandsOf(l, entries, keys, buffers, k)|
      {
        var commands: seq<IoBatchItem> := [];
        if Matches(entries, keys[i], buffers[i]) {
          commands := Commands(entries[keys[i]]);
        }
        GatherNext(l, entries, keys, buffers, i, items, itemToKey, starts, commands);
        ReadNext(l, entries, keys, buffers, i);
        starts := starts + [|items|];
        items, itemToKey := items + commands, itemToKey + Repeat(i, |commands|);
      }
    }

    // ----- batch store: reserve everything, write everything, then publish -----------------------

    // served lists the batches that the call asked the device for.
    method DoBatchSet(keys: seq<Key>, buffers: seq<Bytes>) returns (r: Result<(), StoreError>, ghost served: seq<Served>)
      requires Valid() && |keys| == |buffers| && forall b | b in buffers :: |b| <= U64_MAX
      modifies this, allocator, bdev
      ensures Valid()
      ensures r.Ok? ==> Abs() == AllApplied(old(Abs()), keys, buffers, |keys|)
      ensures r.Err? ==> Abs() == old(Abs()) && allocator.freeExtents == old(allocator.freeExtents)
      ensures r.Ok? ==> WellFormedBatch(keys, buffers, |keys|)
      ensures r == Err(DuplicateKey) || r == Err(EmptyValue) ==> !WellFormedBatch(keys, buffers, |keys|)
      ensures bdev.history == old(bdev.history) + served
      ensures StoredAsServed(l, old(Abs()), keys, buffers, old(allocator.freePageCount), r, served)
      ensures Wordy(l, buffers)
      ensures r.Ok? <==>
                && WellFormedBatch(keys, buffers, |keys|) && Countable(l, old(Abs()), keys, buffers, |keys|)
                && PagesWanted(l, old(Abs()), keys, buffers, |keys|) <= old(allocator.freePageCount)
                && (served == [] || Granted(served[0].answer))
    {
      hide SpdkConnector.Owns, SpdkConnector.MapOf, Value, Store, Outstanding, ReservationsFor, PublishedFirst;
      hide PageExtentAllocator.Free, AllApplied, WellFormedBatch, AllValues, RoomAfter, Countable, PagesWanted, KeepsOld, Skips;
      MapOfNow();
      Words(buffers);
      RoomIff(l, Abs(), keys, buffers, allocator.freePageCount, |keys|);
      var error, rs := ReserveAll(keys, buffers);
      served := [];
      if error.None? {
        BatchIsWellFormed(entries, rs, keys, buffers, |keys|);
        SomethingReserved(entries, rs, keys, buffers);
        var written;
        written, served := WriteAll(rs, keys, buffers);
        if written {
          EntriesOk(rs);
          StoreAllApplied(l, bdev.content, entries, rs, keys, buffers);
          PublishAll(rs, keys, buffers);
          return Ok(()), served;
        }
        error := Some(DeviceFailed);
      }
      Rollback(rs);
      SameFreeMap(old(allocator.freeExtents));
      r := Err(error.value);
    }

    lemma Words(buffers: seq<Bytes>)
      requires Valid() && forall b | b in buffers :: |b| <= U64_MAX
      ensures Wordy(l, buffers) && 0 <= allocator.freePageCount
    {
      forall i | 0 <= i < |buffers| ensures |buffers[i]| <= U64_MAX { assert buffers[i] in buffers; }
    }

    lemma SkipsNow(keys: seq<Key>, buffers: seq<Bytes>)
      requires Valid() && |keys| == |buffers|
      ensures forall i | 0 <= i < |keys| :: Skips(entries, keys[i], buffers[i]) <==> KeepsOld(Abs(), keys[i], buffers[i])
    {
      hide SpdkConnector.Owns, Store, Skips, KeepsOld;
      HeldEntries();
      forall i | 0 <= i < |keys| ensures Skips(entries, keys[i], buffers[i]) <==> KeepsOld(Abs(), keys[i], buffers[i]) {
        SkipsAndKeeps(keys[i], buffers[i]);
      }
    }

    lemma SkipsAndKeeps(key: Key, buffer: Bytes)
      requires Valid()
      ensures Skips(entries, key, buffer) <==> KeepsOld(Abs(), key, buffer)
    {
      KeepsNow(key, buffer);
    }

    method ReserveAll(keys: seq<Key>, buffers: seq<Bytes>) returns (error: Option<StoreError>, rs: seq<Reservation>)
      requires Valid() && |keys| == |buffers| && forall b | b in buffers :: |b| <= U64_MAX
      modifies allocator
      ensures Owns(Outstanding(entries, rs, 0, 0, 0))
      ensures error.None? ==> ReservationsFor(entries, rs, keys, buffers, |keys|)
      ensures error == Some(DuplicateKey) || error == Some(EmptyValue) ==> !WellFormedBatch(keys, buffers, |keys|)
      ensures error != Some(DeviceFailed)
      ensures forall i | 0 <= i < |keys| :: Skips(entries, keys[i], buffers[i]) <==> KeepsOld(Abs(), keys[i], buffers[i])
      ensures Wordy(l, buffers)
      ensures var room := RoomAfter(l, Abs(), keys, buffers, old(allocator.freePageCount), |keys|);
              if error.None? then room.Ok? else room == Err(error.value)
    {
      hide SpdkConnector.Owns, Outstanding, ReservationsFor, EntryOk, Pages, PageExtentAllocator.Free, Geo.PagesForBytes;
      hide RoomAfter, Store, Skips, KeepsOld, Countable, PagesWanted, Fault, PagesTaken, WellFormedBatch, SpdkConnector.MapOf;
      MapOfNow();
      Words(buffers);
      SkipsNow(keys, buffers);
      ghost var store, free := Abs(), allocator.freePageCount;
      NothingOutstanding(entries);
      NothingReserved(entries, keys, buffers);
      RoomAtFirst(l, store, keys, buffers, free);
      var seen: set<Key> := {};
      error, rs := None, [];
      for i := 0 to |keys|
        invariant error.None? && Owns(Outstanding(entries, rs, 0, 0, 0))
        invariant ReservationsFor(entries, rs, keys, buffers, i)
        invariant forall k :: k in seen <==> k in keys[..i]
        invariant RoomAfter(l, store, keys, buffers, free, i) == Ok(allocator.freePageCount)
      {
        RoomNext(l, store, keys, buffers, free, allocator.freePageCount, i);
        FaultIs(l, store, keys, buffers, allocator.freePageCount, i);
        assert keys[..i + 1] == keys[..i] + [keys[i]];
        if keys[i] in seen { return Some(DuplicateKey), rs; }
        seen := seen + {keys[i]};
        if |buffers[i]| == 0 { return Some(EmptyValue), rs; }
        if Skips(entries, keys[i], buffers[i]) {
          SkipNext(entries, rs, keys, buffers, i);
        } else {
          error, rs := ReserveOne(keys, buffers, rs, i);
          if error.Some? { return; }
        }
      }
    }

    // One value's pages and its place among the reservations.
    method ReserveOne(keys: seq<Key>, buffers: seq<Bytes>, rs: seq<Reservation>, i: nat)
      returns (error: Option<StoreError>, next: seq<Reservation>)
      requires Owns(Outstanding(entries, rs, 0, 0, 0)) && i < |keys| == |buffers| && Wordy(l, buffers)
      requires ReservationsFor(entries, rs, keys, buffers, i)
      requires keys[i] !in keys[..i] && |buffers[i]| > 0 && !Skips(entries, keys[i], buffers[i])
      modifies allocator
      ensures Owns(Outstanding(entries, next, 0, 0, 0))
      ensures error.None? ==> ReservationsFor(entries, next, keys, buffers, i + 1)
      ensures error.None? || error == Some(PageCountOverflow) || error == Some(CapacityExhausted)
      ensures var pages := Geo.PagesForBytes(l.page, |buffers[i]|);
              if pages.Err? then error == Some(PageCountOverflow)
              else if pages.value > old(allocator.freePageCount) then error == Some(CapacityExhausted)
              else error.None? && allocator.freePageCount == old(allocator.freePageCount) - pages.value
    {
      hide SpdkConnector.Owns, Outstanding, ReservationsFor, EntryOk, Pages, PageExtentAllocator.Free, Geo.PagesForBytes, Skips;
      FreshReservation(entries, rs);
      var e := AllocateEntry(|buffers[i]|, Outstanding(entries, rs, 0, 0, 0), Reserved(0, |rs|));
      if e.Err? { return Some(e.error), rs; }
      var reservation := Reservation(i, e.value, Find(entries, keys[i]));
      OneMoreReserved(entries, rs, reservation);
      ReserveNext(entries, rs, reservation, keys, buffers, i);
      return None, rs + [reservation];
    }

    // One write batch for the commands of all reservations, none when there is no reservation.
    method WriteAll(rs: seq<Reservation>, keys: seq<Key>, buffers: seq<Bytes>) returns (ok: bool, ghost served: seq<Served>)
      requires |keys| == |buffers| && Owns(Outstanding(entries, rs, 0, 0, 0))
      requires ReservationsFor(entries, rs, keys, buffers, |keys|)
      modifies bdev
      ensures Owns(Outstanding(entries, rs, 0, 0, 0))
      ensures Abs() == old(Abs())
      ensures ok ==> AllValues(l, bdev.content, rs, buffers)
      ensures bdev.history == old(bdev.history) + served
      ensures if rs == [] then ok && served == []
              else |served| == 1 && served[0].writing && (ok <==> Granted(served[0].answer))
    {
      hide Outstanding, EntryOk, Value, Store, Pages, Collected, CommandsOf, AllValues, ReservationsFor;
      hide SpdkConnector.Owns, SegmentsOf, OneOwner, Staged;
      EntriesOk(rs);
      var items, data, tags, starts := CollectAll(rs, keys, buffers);
      CollectedSome(l, rs, buffers, items, data, tags, starts);
      if items == [] {
        NoValues(l, bdev.content, rs, buffers);
        return true, [];
      }
      CommandsApart(rs, buffers, items, data, tags, starts);
      CollectedData(l, rs, buffers, items, data, tags, starts);
      OwnsParts(Outstanding(entries, rs, 0, 0, 0));
      var results := bdev.WriteBatch(items, data);
      served := [Served(true, items, results)];
      OwnsParts(Outstanding(entries, rs, 0, 0, 0));
      ReservationsUndisturbed(rs, buffers, items, data, tags, starts, old(bdev.content));
      ok := Granted(results);
      if ok {
        EntriesOk(rs);
        CollectedWritten(l, rs, keys, entries, buffers, items, data, tags, starts, bdev.content);
      }
    }

    lemma OwnsParts(held: Holdings)
      ensures Owns(held) <==> Ready() && OneOwner(l, held, allocator.Free())
    {}

    // The command list of a batch: every reservation's segments, in order.
    method CollectAll(rs: seq<Reservation>, keys: seq<Key>, buffers: seq<Bytes>)
      returns (items: seq<IoBatchItem>, data: seq<Bytes>, ghost tags: seq<(nat, nat)>, ghost starts: seq<nat>)
      requires |keys| == |buffers| && Owns(Outstanding(entries, rs, 0, 0, 0))
      requires ReservationsFor(entries, rs, keys, buffers, |keys|)
      ensures Ready() && Collected(l, rs, buffers, |rs|, items, data, tags, starts) && bdev.Accepts(items)
    {
      hide Outstanding, EntryOk, Pages, Collected, CommandsOf, SegmentsOf, SpdkConnector.Owns;
      EntriesOk(rs);
      items, data, tags, starts := [], [], [], [];
      NothingCollected(l, rs, buffers);
      for p := 0 to |rs|
        invariant Collected(l, rs, buffers, p, items, data, tags, starts)
        invariant bdev.Accepts(items)
      {
        var e, buffer := rs[p].entry, buffers[rs[p].index];
        var commands := Commands(e);
        var slices := Slices(buffer, commands, e, l);
        CollectNext(l, rs, buffers, p, items, data, tags, starts, commands, slices);
        starts := starts + [|items|];
        tags := tags + TagsOf(p, |commands|);
        items, data := items + commands, data + slices;
      }
    }

    // The catch block: every reservation goes back.
    method Rollback(rs: seq<Reservation>)
      requires Owns(Outstanding(entries, rs, 0, 0, 0))
      modifies allocator
      ensures Owns(Holding(entries))
    {
      hide SpdkConnector.Owns, Outstanding, Pages, PageExtentAllocator.Free;
      for p := 0 to |rs|
        invariant Owns(Outstanding(entries, rs, p, 0, 0))
      {
        OneLess(entries, rs, p, 0, 0, Reserved(0, p));
        ReleaseEntry(rs[p].entry, Outstanding(entries, rs, p, 0, 0), Reserved(0, p));
      }
      NoneLeft(entries, rs, 0, 0);
    }

    // Publication of every reservation, then release of every replaced entry.
    method PublishAll(rs: seq<Reservation>, keys: seq<Key>, buffers: seq<Bytes>)
      requires |keys| == |buffers| && Owns(Outstanding(entries, rs, 0, 0, 0))
      requires ReservationsFor(entries, rs, keys, buffers, |keys|)
      modifies this, allocator
      ensures Valid() && entries == PublishedFirst(old(entries), rs, keys, |rs|)
    {
      hide SpdkConnector.Owns, Outstanding, Pages, PageExtentAllocator.Free;
      for p := 0 to |rs|
        invariant entries == PublishedFirst(old(entries), rs, keys, p)
        invariant Owns(Outstanding(entries, rs, p, 0, p))
        invariant allocator.freeExtents == old(allocator.freeExtents)
      {
        PassOne(old(entries), rs, keys, buffers, p);
        entries := entries[keys[rs[p].index] := rs[p].entry];
      }
      for p := 0 to |rs|
        invariant entries == PublishedFirst(old(entries), rs, keys, |rs|)
        invariant Owns(Outstanding(entries, rs, |rs|, p, |rs|))
      {
        OneLess(entries, rs, |rs|, p, |rs|, Retiring(0, p));
        if rs[p].previous.None? {
          NotHeld(Outstanding(entries, rs, |rs|, p, |rs|), Retiring(0, p));
        } else {
          ReleaseEntry(rs[p].previous.value, Outstanding(entries, rs, |rs|, p, |rs|), Retiring(0, p));
        }
      }
      NoneLeft(entries, rs, |rs|, |rs|);
    }

    // Publishing reservation p passes its pages to the key and the key's old pages to retirement.
    lemma PassOne(before: map<Key, Entry>, rs: seq<Reservation>, keys: seq<Key>, buffers: seq<Bytes>, p: nat)
      requires |keys| == |buffers| && ReservationsFor(before, rs, keys, buffers, |keys|) && p < |rs|
      requires entries == PublishedFirst(before, rs, keys, p)
      requires Owns(Outstanding(entries, rs, p, 0, p))
      ensures Owns(Outstanding(entries[keys[rs[p].index] := rs[p].entry], rs, p + 1, 0, p + 1))
    {
      hide SpdkConnector.Owns, Outstanding, ReservationsFor, PublishedFirst, EntryOk, Pages;
      ReservationIndex(before, rs, keys, buffers, p);
      var k, e := keys[rs[p].index], rs[p].entry;
      var held, P, R, T := Outstanding(entries, rs, p, 0, p), Published(k), Reserved(0, p), Retiring(0, p);
      PublishedOther(before, rs, keys, buffers, p, p);
      forall h: Holder ensures Find(held, h) == HeldBy(entries, rs, p, 0, p, h) {
        OutstandingAt(entries, rs, p, 0, p, h);
      }
      assert Find(held, P) == rs[p].previous && Find(held, R) == Some(e) && Find(held, T) == None;
      ghost var first := held;
      if P in held {
        Pass(held, P, T);
        first := (held - {P})[T := held[P]];
      }
      Pass(first, R, P);
      var second := (first - {R})[P := first[R]];
      var next := entries[k := e];
      forall h: Holder ensures Find(second, h) == Find(Outstanding(next, rs, p + 1, 0, p + 1), h) {
        assert Find(held, h) == HeldBy(entries, rs, p, 0, p, h);
        OutstandingAt(next, rs, p + 1, 0, p + 1, h);
      }
      SameHoldings(second, Outstanding(next, rs, p + 1, 0, p + 1));
    }

    lemma EntriesOk(rs: seq<Reservation>)
      requires Owns(Outstanding(entries, rs, 0, 0, 0))
      ensures Ready()
      ensures forall p | 0 <= p < |rs| :: EntryOk(l, rs[p].entry)
      ensures forall k | k in entries :: EntryOk(l, entries[k])
    {
      hide EntryOk, Pages, Outstanding, OneOwner;
      forall p | 0 <= p < |rs| ensures EntryOk(l, rs[p].entry) { OutstandingOk(rs, Reserved(0, p)); }
      forall k | k in entries ensures EntryOk(l, entries[k]) { OutstandingOk(rs, Published(k)); }
    }

    lemma OutstandingOk(rs: seq<Reservation>, h: Holder)
      requires Owns(Outstanding(entries, rs, 0, 0, 0)) && HeldBy(entries, rs, 0, 0, 0, h).Some?
      ensures EntryOk(l, HeldBy(entries, rs, 0, 0, 0, h).value)
    {
      hide EntryOk, Pages, Outstanding, OneOwner;
      OutstandingAt(entries, rs, 0, 0, 0, h);
      HoldersApart(l, Outstanding(entries, rs, 0, 0, 0), allocator.Free(), h, h);
    }

    lemma OutstandingApart(rs: seq<Reservation>, h: Holder, h': Holder)
      requires Owns(Outstanding(entries, rs, 0, 0, 0)) && h != h'
      requires HeldBy(entries, rs, 0, 0, 0, h).Some? && HeldBy(entries, rs, 0, 0, 0, h').Some?
      ensures Pages(HeldBy(entries, rs, 0, 0, 0, h).value) !! Pages(HeldBy(entries, rs, 0, 0, 0, h').value)
    {
      hide EntryOk, Pages, Outstanding, OneOwner;
      OutstandingAt(entries, rs, 0, 0, 0, h);
      OutstandingAt(entries, rs, 0, 0, 0, h');
      HoldersApart(l, Outstanding(entries, rs, 0, 0, 0), allocator.Free(), h, h');
    }

    // Commands of one entry are apart, and so are those of entries with disjoint pages.
    lemma CommandsApart(rs: seq<Reservation>, buffers: seq<Bytes>, items: seq<IoBatchItem>, data: seq<Bytes>,
                        tags: seq<(nat, nat)>, starts: seq<nat>)
      requires Owns(Outstanding(entries, rs, 0, 0, 0))
      requires Collected(l, rs, buffers, |rs|, items, data, tags, starts)
      ensures forall i, j | 0 <= i < j < |items| :: RangesApart(items[i], items[j])
    {
      hide EntryOk, Pages, Outstanding, SpdkConnector.Owns, Collected, SegmentsOf;
      EntriesOk(rs);
      forall i, j | 0 <= i < j < |items| ensures RangesApart(items[i], items[j]) {
        var p, q := CollectedItem(l, rs, buffers, items, data, tags, starts, i);
        var p', q' := CollectedItem(l, rs, buffers, items, data, tags, starts, j);
        SegmentsAreCommands(l, rs[p].entry);
        SegmentsAreCommands(l, rs[p'].entry);
        if p != p' {
          OutstandingApart(rs, Reserved(0, p), Reserved(0, p'));
          DisjointCommandsApart(l, rs[p].entry, rs[p'].entry, items[i], items[j]);
        }
      }
    }

    lemma ReservationsUndisturbed(rs: seq<Reservation>, buffers: seq<Bytes>, items: seq<IoBatchItem>,
                                  data: seq<Bytes>, tags: seq<(nat, nat)>, starts: seq<nat>, content: Bytes)
      requires Owns(Outstanding(entries, rs, 0, 0, 0)) && |content| == |bdev.content|
      requires Collected(l, rs, buffers, |rs|, items, data, tags, starts)
      requires forall a | 0 <= a < |content| && bdev.content[a] != content[a] ::
                 exists i :: 0 <= i < |items| && Touches(items[i], a)
      ensures Abs() == Store(l, content, entries)
    {
      hide EntryOk, Pages, Value, Outstanding, SpdkConnector.Owns, Collected, SegmentsOf;
      EntriesOk(rs);
      forall k | k in entries ensures Value(l, bdev.content, entries[k]) == Value(l, content, entries[k]) {
        var touched := Interval(0, l.pageCount) - Pages(entries[k]);
        forall a | 0 <= a < |content| && bdev.content[a] != content[a] ensures a / l.page in touched {
          var i :| 0 <= i < |items| && Touches(items[i], a);
          var p, q := CollectedItem(l, rs, buffers, items, data, tags, starts, i);
          SegmentsAreCommands(l, rs[p].entry);
          assert CommandOf(l, rs[p].entry, items[i]);
          OutstandingApart(rs, Reserved(0, p), Published(k));
          PagesOnDevice(l, rs[p].entry);
        }
        ValueUndisturbed(l, content, bdev.content, entries[k], touched);
      }
    }
  }

  /**
   * How a value that is to be stored fares: its page count overflows, its pages are not to be had, or its one
   * write batch decides. Only in the last case is the device asked.
   */
  ghost predicate Replaced(pages: Result<u64, Geo.GeometryError>, free: int, r: Result<(), StoreError>, served: seq<Served>) {
    if pages.Err? then r == Err(PageCountOverflow) && served == []
    else if pages.value > free then r == Err(CapacityExhausted) && served == []
    else |served| == 1 && served[0].writing && r == if Granted(served[0].answer) then Ok(()) else Err(DeviceFailed)
  }

  function Done<T>(r: Result<T, StoreError>): Result<(), StoreError> {
    if r.Ok? then Ok(()) else Err(r.error)
  }

  /** A load whose key is present with the destination's size. */
  predicate Matches(entries: map<Key, Entry>, key: Key, buffer: Bytes) {
    key in entries && |buffer| == entries[key].logicalSize
  }

  /** The commands of the first n requests of a load, missing keys and other sizes left out. */
  function ReadCommandsOf(l: Layout, entries: map<Key, Entry>, keys: seq<Key>, buffers: seq<Bytes>, n: nat): seq<IoBatchItem>
    requires 0 < l.page && 0 < l.segment && n <= |keys| == |buffers|
  {
    if n == 0 then []
    else
      ReadCommandsOf(l, entries, keys, buffers, n - 1)
      + if Matches(entries, keys[n - 1], buffers[n - 1]) then SegmentsOf(l, entries[keys[n - 1]]) else []
  }

  lemma NothingRead(l: Layout, entries: map<Key, Entry>, keys: seq<Key>, buffers: seq<Bytes>)
    requires 0 < l.page && 0 < l.segment && |keys| == |buffers|
    ensures ReadCommandsOf(l, entries, keys, buffers, 0) == []
  {}

  lemma ReadNext(l: Layout, entries: map<Key, Entry>, keys: seq<Key>, buffers: seq<Bytes>, n: nat)
    requires 0 < l.page && 0 < l.segment && n < |keys| == |buffers|
    ensures ReadCommandsOf(l, entries, keys, buffers, n + 1) ==
              ReadCommandsOf(l, entries, keys, buffers, n)
              + if Matches(entries, keys[n], buffers[n]) then SegmentsOf(l, entries[keys[n]]) else []
  {
    hide SegmentsOf;
  }

  /** One batch of exactly these commands, or no batch when there are none. */
  predicate Asked(served: seq<Served>, writing: bool, items: seq<IoBatchItem>) {
    if items == [] then served == [] else |served| == 1 && served[0].writing == writing && served[0].items == items
  }

  /** The device took the batch, and every command of request k in it succeeded. */
  ghost predicate KeyGranted(l: Layout, entries: map<Key, Entry>, keys: seq<Key>, buffers: seq<Bytes>,
                             served: seq<Served>, k: nat)
    requires 0 < l.page && 0 < l.segment && k < |keys| == |buffers| && Matches(entries, keys[k], buffers[k])
  {
    && |served| == 1 && served[0].answer.Some?
    && var at, count := |ReadCommandsOf(l, entries, keys, buffers, k)|, |SegmentsOf(l, entries[keys[k]])|;
       && at + count <= |served[0].answer.value|
       && forall i | at <= i < at + count :: served[0].answer.value[i]
  }

  /**
   * A load asks the device for one batch, of all matching keys' commands in order, and for none when no key
   * matches; a key is reported successful exactly when it matches and every command of its own was granted.
   */
  ghost predicate LoadedAsServed(l: Layout, entries: map<Key, Entry>, keys: seq<Key>, buffers: seq<Bytes>,
                                 success: seq<bool>, served: seq<Served>)
  {
    && 0 < l.page && 0 < l.segment && |success| == |keys| == |buffers|
    && Asked(served, false, ReadCommandsOf(l, entries, keys, buffers, |keys|))
    && forall k: nat | k < |keys| ::
         success[k] <==> Matches(entries, keys[k], buffers[k]) && KeyGranted(l, entries, keys, buffers, served, k)
  }

  /** Every command of request k among the first n results succeeded. */
  predicate AllArrived(itemToKey: seq<nat>, results: seq<Option<Bytes>>, k: nat, n: nat)
    requires n <= |itemToKey| == |results|
  {
    forall i | 0 <= i < n && itemToKey[i] == k :: results[i].Some?
  }

  lemma NoneGranted(l: Layout, entries: map<Key, Entry>, keys: seq<Key>, buffers: seq<Bytes>, served: seq<Served>)
    requires 0 < l.page && 0 < l.segment && |keys| == |buffers| && |served| == 1 && served[0].answer.None?
    ensures forall k: nat | k < |keys| && Matches(entries, keys[k], buffers[k]) ::
              !KeyGranted(l, entries, keys, buffers, served, k)
  {}

  // The commands of request k are the ones from starts[k] on.
  lemma GrantedByItems(l: Layout, entries: map<Key, Entry>, keys: seq<Key>, buffers: seq<Bytes>, items: seq<IoBatchItem>,
                       itemToKey: seq<nat>, starts: seq<nat>, served: seq<Served>, results: seq<Option<Bytes>>, k: nat)
    requires l.Valid() && k < |keys| == |buffers| == |starts| && Matches(entries, keys[k], buffers[k])
    requires EntryOk(l, entries[keys[k]]) && |results| == |items| == |itemToKey|
    requires Gathered(l, entries, keys, buffers, |keys|, items, itemToKey, starts)
    requires starts[k] == |ReadCommandsOf(l, entries, keys, buffers, k)|
    requires if items == [] then served == [] else served == [Served(false, items, Flags(Some(results)))]
    ensures AllArrived(itemToKey, results, k, |items|) <==> KeyGranted(l, entries, keys, buffers, served, k)
  {
    hide EntryOk, SegmentsOf, ReadCommandsOf;
    var at, count := starts[k], |SegmentsOf(l, entries[keys[k]])|;
    SegmentsOfEntry(l, entries[keys[k]]);
    assert IsGathered(itemToKey, starts, k, count - 1);
    forall i | 0 <= i < |items| ensures itemToKey[i] == k <==> at <= i < at + count {
      if at <= i < at + count { assert IsGathered(itemToKey, starts, k, i - at); }
    }
  }

  lemma SegmentsOfEntry(l: Layout, e: Entry)
    requires EntryOk(l, e)
    ensures SegmentsOf(l, e) != []
  {
    SegmentsAreCommands(l, e);
  }

  lemma CopiedNow(content: Bytes, item: IoBatchItem, before: Bytes, bytes: Bytes)
    requires 0 <= item.byteOffset && item.byteOffset + item.logicalLength <= |content|
    requires item.bufferOffset + item.logicalLength <= |before|
    requires bytes == content[item.byteOffset..item.byteOffset + item.logicalLength]
    ensures Copied(content, item, Overwrite(before, item.bufferOffset, bytes))
  {}

  function Repeat(k: nat, count: nat): seq<nat> {
    seq(count, _ => k)
  }

  /** Commands gathered from the first n requests; those of request k start at starts[k]. */
  ghost predicate Gathered(l: Layout, entries: map<Key, Entry>, keys: seq<Key>, buffers: seq<Bytes>, n: nat,
                           items: seq<IoBatchItem>, itemToKey: seq<nat>, starts: seq<nat>)
    requires 0 < l.page && 0 < l.segment
  {
    && n <= |keys| == |buffers| && |starts| == n && |items| == |itemToKey|
    && (forall k | 0 <= k < n :: starts[k] <= |items|)
    && (forall i | 0 <= i < |items| ::
          var k := itemToKey[i];
          && k < n && Matches(entries, keys[k], buffers[k]) && starts[k] <= i
          && i - starts[k] < |SegmentsOf(l, entries[keys[k]])|
          && items[i] == SegmentsOf(l, entries[keys[k]])[i - starts[k]])
    && (forall k | 0 <= k < n && Matches(entries, keys[k], buffers[k]) ::
          forall q | 0 <= q < |SegmentsOf(l, entries[keys[k]])| :: IsGathered(itemToKey, starts, k, q))
  }

  predicate IsGathered(itemToKey: seq<nat>, starts: seq<nat>, k: int, q: int) {
    0 <= k < |starts| && 0 <= q && starts[k] + q < |itemToKey| && itemToKey[starts[k] + q] == k
  }

  lemma NothingGathered(l: Layout, entries: map<Key, Entry>, keys: seq<Key>, buffers: seq<Bytes>)
    requires 0 < l.page && 0 < l.segment && |keys| == |buffers|
    ensures Gathered(l, entries, keys, buffers, 0, [], [], [])
  {}

  lemma GatherNext(l: Layout, entries: map<Key, Entry>, keys: seq<Key>, buffers: seq<Bytes>, n: nat,
                   items: seq<IoBatchItem>, itemToKey: seq<nat>, starts: seq<nat>, commands: seq<IoBatchItem>)
    requires 0 < l.page && 0 < l.segment && n < |keys| == |buffers|
    requires Gathered(l, entries, keys, buffers, n, items, itemToKey, starts)
    requires commands == if Matches(entries, keys[n], buffers[n]) then SegmentsOf(l, entries[keys[n]]) else []
    ensures Gathered(l, entries, keys, buffers, n + 1, items + commands, itemToKey + Repeat(n, |commands|), starts + [|items|])
  {
    hide SegmentsOf;
    var itemToKey', starts' := itemToKey + Repeat(n, |commands|), starts + [|items|];
    forall k | 0 <= k < n + 1 && Matches(entries, keys[k], buffers[k])
      ensures forall q | 0 <= q < |SegmentsOf(l, entries[keys[k]])| :: IsGathered(itemToKey', starts', k, q)
    {
      forall q | 0 <= q < |SegmentsOf(l, entries[keys[k]])| ensures IsGathered(itemToKey', starts', k, q) {
        if k < n { assert IsGathered(itemToKey, starts, k, q); }
      }
    }
  }

  lemma GatheredItem(l: Layout, entries: map<Key, Entry>, keys: seq<Key>, buffers: seq<Bytes>,
                     items: seq<IoBatchItem>, itemToKey: seq<nat>, starts: seq<nat>, i: nat)
    requires l.Valid() && Gathered(l, entries, keys, buffers, |keys|, items, itemToKey, starts) && i < |items|
    requires forall k | k in entries :: EntryOk(l, entries[k])
    ensures itemToKey[i] < |keys| && items[i].bufferOffset + items[i].logicalLength <= |buffers[itemToKey[i]]|
  {
    hide EntryOk, SegmentsOf;
    var e := entries[keys[itemToKey[i]]];
    SegmentsAreCommands(l, e);
    assert CommandOf(l, e, items[i]);
  }

  lemma GatheredAscend(l: Layout, entries: map<Key, Entry>, keys: seq<Key>, buffers: seq<Bytes>,
                       items: seq<IoBatchItem>, itemToKey: seq<nat>, starts: seq<nat>, i: nat, j: nat)
    requires l.Valid() && Gathered(l, entries, keys, buffers, |keys|, items, itemToKey, starts)
    requires forall k | k in entries :: EntryOk(l, entries[k])
    requires i < j < |items| && itemToKey[i] == itemToKey[j]
    ensures items[i].bufferOffset + items[i].logicalLength <= items[j].bufferOffset
  {
    hide EntryOk, SegmentsOf;
    var k := itemToKey[i];
    var e := entries[keys[k]];
    SegmentsAreCommands(l, e);
    BuffersAscend(l, e, SegmentsOf(l, e), i - starts[k], j - starts[k]);
  }

  lemma CopiedKept(content: Bytes, item: IoBatchItem, before: Bytes, after: Bytes)
    requires Copied(content, item, before) && |after| == |before|
    requires forall x | 0 <= x < item.bufferOffset + item.logicalLength :: after[x] == before[x]
    ensures Copied(content, item, after)
  {
    assert Slice(after, item) == Slice(before, item);
  }

  lemma GatheredCopied(l: Layout, entries: map<Key, Entry>, keys: seq<Key>, buffers: seq<Bytes>,
                       items: seq<IoBatchItem>, itemToKey: seq<nat>, starts: seq<nat>, k: nat,
                       content: Bytes, buffer: Bytes)
    requires l.Valid() && |content| == l.Capacity()
    requires Gathered(l, entries, keys, buffers, |keys|, items, itemToKey, starts)
    requires k < |keys| && Matches(entries, keys[k], buffers[k]) && EntryOk(l, entries[keys[k]])
    requires |buffer| == |buffers[k]|
    requires forall i | 0 <= i < |items| && itemToKey[i] == k :: Copied(content, items[i], buffer)
    ensures buffer == Value(l, content, entries[keys[k]])
  {
    hide EntryOk, SegmentsOf, Value, Copied;
    var e := entries[keys[k]];
    forall q | 0 <= q < |SegmentsOf(l, e)| ensures Copied(content, SegmentsOf(l, e)[q], buffer) {
      assert IsGathered(itemToKey, starts, k, q);
      assert items[starts[k] + q] == SegmentsOf(l, e)[q];
    }
    AllCopied(l, e, content, buffer);
  }

  // ----- the bookkeeping of a batch, on values ---------------------------------------------------

  predicate Skips(entries: map<Key, Entry>, key: Key, buffer: Bytes) {
    key in entries && entries[key].logicalSize != |buffer|
  }

  /** No key twice and no empty value among the first n requests. */
  ghost predicate WellFormedBatch(keys: seq<Key>, buffers: seq<Bytes>, n: nat)
    requires n <= |keys| == |buffers|
  {
    && (forall i, j | 0 <= i < j < n :: keys[i] != keys[j])
    && (forall i | 0 <= i < n :: |buffers[i]| > 0)
  }

  /** The store after the first n sets, one after the other. */
  function AllApplied(store: map<Key, Bytes>, keys: seq<Key>, buffers: seq<Bytes>, n: nat): map<Key, Bytes>
    requires n <= |keys| == |buffers|
  {
    if n == 0 then store
    else
      var before := AllApplied(store, keys, buffers, n - 1);
      if KeepsOld(before, keys[n - 1], buffers[n - 1]) then before else before[keys[n - 1] := buffers[n - 1]]
  }

  predicate Wordy(l: Layout, buffers: seq<Bytes>) {
    0 < l.page <= U64_MAX && forall i | 0 <= i < |buffers| :: |buffers[i]| <= U64_MAX
  }

  /** The pages that set i of a batch needs: none for a value that is kept. */
  function PagesTaken(l: Layout, store: map<Key, Bytes>, keys: seq<Key>, buffers: seq<Bytes>, i: nat): Result<int, StoreError>
    requires Wordy(l, buffers) && i < |keys| == |buffers|
  {
    if KeepsOld(store, keys[i], buffers[i]) then Ok(0)
    else
      var pages := Geo.PagesForBytes(l.page, |buffers[i]|);
      if pages.Err? then Err(PageCountOverflow) else Ok(pages.value)
  }

  /** What is wrong with set i of a batch when the sets before it left this many free pages. */
  function Fault(l: Layout, store: map<Key, Bytes>, keys: seq<Key>, buffers: seq<Bytes>, left: int, i: nat): Option<StoreError>
    requires Wordy(l, buffers) && i < |keys| == |buffers|
  {
    if keys[i] in keys[..i] then Some(DuplicateKey)
    else if buffers[i] == [] then Some(EmptyValue)
    else
      match PagesTaken(l, store, keys, buffers, i)
      case Err(e) => Some(e)
      case Ok(pages) => if pages > left && !KeepsOld(store, keys[i], buffers[i]) then Some(CapacityExhausted) else None
  }

  /** The free pages that the first n sets of a batch leave, or the fault of the first one that has any. */
  function RoomAfter(l: Layout, store: map<Key, Bytes>, keys: seq<Key>, buffers: seq<Bytes>, free: int, n: nat)
    : Result<int, StoreError>
    requires Wordy(l, buffers) && n <= |keys| == |buffers|
  {
    if n == 0 then Ok(free)
    else
      match RoomAfter(l, store, keys, buffers, free, n - 1)
      case Err(e) => Err(e)
      case Ok(left) =>
        match Fault(l, store, keys, buffers, left, n - 1)
        case Some(e) => Err(e)
        case None => Ok(left - PagesTaken(l, store, keys, buffers, n - 1).value)
  }

  /** No page count of the first n sets overflows. */
  ghost predicate Countable(l: Layout, store: map<Key, Bytes>, keys: seq<Key>, buffers: seq<Bytes>, n: nat)
    requires Wordy(l, buffers) && n <= |keys| == |buffers|
  {
    forall i: nat | i < n :: PagesTaken(l, store, keys, buffers, i).Ok?
  }

  /** All the pages that the first n sets need. */
  function PagesWanted(l: Layout, store: map<Key, Bytes>, keys: seq<Key>, buffers: seq<Bytes>, n: nat): int
    requires Wordy(l, buffers) && n <= |keys| == |buffers|
  {
    if n == 0 then 0
    else
      var more := PagesTaken(l, store, keys, buffers, n - 1);
      PagesWanted(l, store, keys, buffers, n - 1) + if more.Ok? then more.value else 0
  }

  /** A batch is placed exactly when it is well formed and its values together find room. */
  lemma {:induction false} RoomIff(l: Layout, store: map<Key, Bytes>, keys: seq<Key>, buffers: seq<Bytes>, free: nat, n: nat)
    requires Wordy(l, buffers) && n <= |keys| == |buffers|
    ensures RoomAfter(l, store, keys, buffers, free, n).Ok? <==>
              && WellFormedBatch(keys, buffers, n) && Countable(l, store, keys, buffers, n)
              && PagesWanted(l, store, keys, buffers, n) <= free
    ensures RoomAfter(l, store, keys, buffers, free, n).Ok? ==>
              RoomAfter(l, store, keys, buffers, free, n).value == free - PagesWanted(l, store, keys, buffers, n)
  {
    hide Geo.PagesForBytes, KeepsOld;
    if n == 0 {
    } else {
      RoomIff(l, store, keys, buffers, free, n - 1);
      assert keys[n - 1] in keys[..n - 1] <==> exists i :: 0 <= i < n - 1 && keys[i] == keys[n - 1];
      assert PagesTaken(l, store, keys, buffers, n - 1).Ok? ==> PagesTaken(l, store, keys, buffers, n - 1).value >= 0;
    }
  }

  /** A batch that is not placed reports the fault of its first faulty set. */
  lemma {:induction false} FirstFault(l: Layout, store: map<Key, Bytes>, keys: seq<Key>, buffers: seq<Bytes>, free: nat, n: nat)
    returns (i: nat)
    requires Wordy(l, buffers) && n <= |keys| == |buffers| && RoomAfter(l, store, keys, buffers, free, n).Err?
    ensures i < n && WellFormedBatch(keys, buffers, i) && Countable(l, store, keys, buffers, i)
    ensures var left := free - PagesWanted(l, store, keys, buffers, i);
            left >= 0 && Fault(l, store, keys, buffers, left, i) == Some(RoomAfter(l, store, keys, buffers, free, n).error)
  {
    hide Geo.PagesForBytes, KeepsOld, Fault, WellFormedBatch;
    RoomIff(l, store, keys, buffers, free, n - 1);
    if RoomAfter(l, store, keys, buffers, free, n - 1).Err? {
      i := FirstFault(l, store, keys, buffers, free, n - 1);
    } else {
      i := n - 1;
    }
  }

  /**
   * How a batch store fares: a fault, nothing to write because every value is kept, or one write batch whose
   * answer decides. Only in the last case is the device asked.
   */
  ghost predicate StoredAsServed(l: Layout, store: map<Key, Bytes>, keys: seq<Key>, buffers: seq<Bytes>, free: int,
                                 r: Result<(), StoreError>, served: seq<Served>)
  {
    && Wordy(l, buffers) && |keys| == |buffers|
    && match RoomAfter(l, store, keys, buffers, free, |keys|)
       case Err(e) => r == Err(e) && served == []
       case Ok(_) =>
         if forall i | 0 <= i < |keys| :: KeepsOld(store, keys[i], buffers[i]) then r == Ok(()) && served == []
         else |served| == 1 && served[0].writing && r == if Granted(served[0].answer) then Ok(()) else Err(DeviceFailed)
  }

  /** Published entries, reservations from position a on, and replaced entries in [b, c). */
  ghost function Outstanding(entries: map<Key, Entry>, rs: seq<Reservation>, a: nat, b: nat, c: nat): Holdings
    requires c <= |rs|
  {
    Holding(entries)
    + (map p: nat | a <= p < |rs| :: Reserved(0, p) := rs[p].entry)
    + (map p: nat | b <= p < c && rs[p].previous.Some? :: Retiring(0, p) := rs[p].previous.value)
  }

  /** Reservations are for distinct requested keys, in order, and remember what they will replace. */
  ghost predicate ReservationsFor(entries: map<Key, Entry>, rs: seq<Reservation>, keys: seq<Key>,
                                  buffers: seq<Bytes>, n: nat)
    requires n <= |keys| == |buffers|
  {
    && WellFormedBatch(keys, buffers, n)
    && (forall p | 0 <= p < |rs| ::
          && rs[p].index < n && rs[p].entry.logicalSize == |buffers[rs[p].index]|
          && !Skips(entries, keys[rs[p].index], buffers[rs[p].index])
          && rs[p].previous == Find(entries, keys[rs[p].index]))
    && (forall p, q | 0 <= p < q < |rs| :: rs[p].index < rs[q].index)
    && (forall i | 0 <= i < n && !Skips(entries, keys[i], buffers[i]) :: IsReserved(rs, i))
  }

  lemma NothingOutstanding(entries: map<Key, Entry>)
    ensures Outstanding(entries, [], 0, 0, 0) == Holding(entries)
  {}

  lemma NothingReserved(entries: map<Key, Entry>, keys: seq<Key>, buffers: seq<Bytes>)
    requires |keys| == |buffers|
    ensures ReservationsFor(entries, [], keys, buffers, 0)
  {}

  lemma BatchIsWellFormed(entries: map<Key, Entry>, rs: seq<Reservation>, keys: seq<Key>, buffers: seq<Bytes>, n: nat)
    requires n <= |keys| == |buffers| && ReservationsFor(entries, rs, keys, buffers, n)
    ensures WellFormedBatch(keys, buffers, n)
  {}

  lemma FreshReservation(entries: map<Key, Entry>, rs: seq<Reservation>)
    ensures Reserved(0, |rs|) !in Outstanding(entries, rs, 0, 0, 0)
  {}

  lemma OneMoreReserved(entries: map<Key, Entry>, rs: seq<Reservation>, reservation: Reservation)
    ensures Outstanding(entries, rs + [reservation], 0, 0, 0)
            == Outstanding(entries, rs, 0, 0, 0)[Reserved(0, |rs|) := reservation.entry]
  {
    hide Outstanding;
    var next := rs + [reservation];
    var held := Outstanding(entries, rs, 0, 0, 0)[Reserved(0, |rs|) := reservation.entry];
    forall h: Holder ensures Find(Outstanding(entries, next, 0, 0, 0), h) == Find(held, h) {
      OutstandingAt(entries, rs, 0, 0, 0, h);
      OutstandingAt(entries, next, 0, 0, 0, h);
    }
    SameHoldings(Outstanding(entries, next, 0, 0, 0), held);
  }

  /** What Outstanding says of one holder. */
  ghost function HeldBy(entries: map<Key, Entry>, rs: seq<Reservation>, a: nat, b: nat, c: nat, h: Holder): Option<Entry>
    requires c <= |rs|
  {
    match h
    case Published(k) => Find(entries, k)
    case Reserved(w, p) => if w == 0 && a <= p < |rs| then Some(rs[p].entry) else None
    case Retiring(w, p) => if w == 0 && b <= p < c then rs[p].previous else None
  }

  lemma OutstandingAt(entries: map<Key, Entry>, rs: seq<Reservation>, a: nat, b: nat, c: nat, h: Holder)
    requires c <= |rs|
    ensures Find(Outstanding(entries, rs, a, b, c), h) == HeldBy(entries, rs, a, b, c, h)
  {}

  lemma SameHoldings(held: Holdings, held': Holdings)
    requires forall h: Holder :: Find(held, h) == Find(held', h)
    ensures held == held'
  {
    forall h: Holder ensures h in held <==> h in held' {
      assert Find(held, h) == Find(held', h);
    }
    forall h | h in held ensures held[h] == held'[h] {
      assert Find(held, h) == Find(held', h);
    }
  }

  /** The commands gathered from the first n reservations: tags[i] says which one item i came from. */
  ghost predicate Collected(l: Layout, rs: seq<Reservation>, buffers: seq<Bytes>, n: nat, items: seq<IoBatchItem>,
                            data: seq<Bytes>, tags: seq<(nat, nat)>, starts: seq<nat>)
    requires 0 < l.page && 0 < l.segment
  {
    && n <= |rs| && |starts| == n && |items| == |data| == |tags|
    && (forall i | 0 <= i < |items| ::
          var (p, q) := tags[i];
          && p < n && rs[p].index < |buffers| && i == starts[p] + q
          && q < |SegmentsOf(l, rs[p].entry)| && items[i] == SegmentsOf(l, rs[p].entry)[q]
          && items[i].bufferOffset + items[i].logicalLength <= |buffers[rs[p].index]|
          && data[i] == Slice(buffers[rs[p].index], items[i]) && |data[i]| == items[i].logicalLength)
    && (forall p, q | 0 <= p < n && 0 <= q < |SegmentsOf(l, rs[p].entry)| :: IsTagged(tags, starts, p, q))
  }

  predicate IsTagged(tags: seq<(nat, nat)>, starts: seq<nat>, p: int, q: int) {
    0 <= p < |starts| && 0 <= q && starts[p] + q < |tags| && tags[starts[p] + q] == (p, q)
  }

  function TagsOf(p: nat, count: nat): seq<(nat, nat)> {
    seq(count, q => (p, q))
  }

  lemma CollectedItem(l: Layout, rs: seq<Reservation>, buffers: seq<Bytes>, items: seq<IoBatchItem>,
                      data: seq<Bytes>, tags: seq<(nat, nat)>, starts: seq<nat>, i: nat) returns (p: nat, q: nat)
    requires 0 < l.page && 0 < l.segment && Collected(l, rs, buffers, |rs|, items, data, tags, starts)
    requires i < |items|
    ensures p < |rs| && p < |starts| && i == starts[p] + q
    ensures q < |SegmentsOf(l, rs[p].entry)| && items[i] == SegmentsOf(l, rs[p].entry)[q]
  {
    p, q := tags[i].0, tags[i].1;
  }

  lemma PagesOnDevice(l: Layout, e: Entry)
    requires EntryOk(l, e)
    ensures Pages(e) <= Interval(0, l.pageCount)
  {}

  lemma NothingCollected(l: Layout, rs: seq<Reservation>, buffers: seq<Bytes>)
    requires 0 < l.page && 0 < l.segment
    ensures Collected(l, rs, buffers, 0, [], [], [], [])
  {}

  lemma CollectedData(l: Layout, rs: seq<Reservation>, buffers: seq<Bytes>, items: seq<IoBatchItem>,
                      data: seq<Bytes>, tags: seq<(nat, nat)>, starts: seq<nat>)
    requires 0 < l.page && 0 < l.segment && Collected(l, rs, buffers, |rs|, items, data, tags, starts)
    ensures |data| == |items| && forall i | 0 <= i < |items| :: |data[i]| == items[i].logicalLength
  {}

  // When every command of the batch succeeded, every reservation holds its buffer.
  lemma CollectedWritten(l: Layout, rs: seq<Reservation>, keys: seq<Key>, entries: map<Key, Entry>, buffers: seq<Bytes>,
                         items: seq<IoBatchItem>, data: seq<Bytes>, tags: seq<(nat, nat)>, starts: seq<nat>, content: Bytes)
    requires |keys| == |buffers| && ReservationsFor(entries, rs, keys, buffers, |keys|)
    requires l.Valid() && |content| == l.Capacity()
    requires forall p | 0 <= p < |rs| :: EntryOk(l, rs[p].entry)
    requires Collected(l, rs, buffers, |rs|, items, data, tags, starts)
    requires forall i | 0 <= i < |items| ::
      && |data[i]| <= items[i].physicalLength
      && 0 <= items[i].byteOffset && items[i].byteOffset + items[i].physicalLength <= |content|
      && content[items[i].byteOffset..items[i].byteOffset + items[i].physicalLength]
         == Staged(data[i], items[i].physicalLength)
    ensures AllValues(l, content, rs, buffers)
  {
    hide EntryOk, Value, SegmentsOf;
    forall p | 0 <= p < |rs| ensures Value(l, content, rs[p].entry) == buffers[rs[p].index] {
      var commands, buffer := SegmentsOf(l, rs[p].entry), buffers[rs[p].index];
      forall q | 0 <= q < |commands| ensures
        && commands[q].bufferOffset + commands[q].logicalLength <= |buffer|
        && commands[q].logicalLength <= commands[q].physicalLength
        && Written(content, commands[q], buffer)
      {
        assert IsTagged(tags, starts, p, q);
        assert items[starts[p] + q] == commands[q];
      }
      AllWritten(l, rs[p].entry, content, buffer);
    }
  }

  lemma CollectNext(l: Layout, rs: seq<Reservation>, buffers: seq<Bytes>, n: nat, items: seq<IoBatchItem>,
                    data: seq<Bytes>, tags: seq<(nat, nat)>, starts: seq<nat>,
                    commands: seq<IoBatchItem>, slices: seq<Bytes>)
    requires 0 < l.page && 0 < l.segment && Collected(l, rs, buffers, n, items, data, tags, starts)
    requires n < |rs| && rs[n].index < |buffers| && commands == SegmentsOf(l, rs[n].entry)
    requires |slices| == |commands|
    requires forall q | 0 <= q < |commands| ::
               && commands[q].bufferOffset + commands[q].logicalLength <= |buffers[rs[n].index]|
               && slices[q] == Slice(buffers[rs[n].index], commands[q]) && |slices[q]| == commands[q].logicalLength
    ensures Collected(l, rs, buffers, n + 1, items + commands, data + slices,
                      tags + TagsOf(n, |commands|), starts + [|items|])
  {
    hide SegmentsOf;
    var tags' := tags + TagsOf(n, |commands|);
    var starts' := starts + [|items|];
    forall p, q | 0 <= p < n + 1 && 0 <= q < |SegmentsOf(l, rs[p].entry)|
      ensures IsTagged(tags', starts', p, q)
    {
      if p < n { assert IsTagged(tags, starts, p, q); }
    }
  }

  lemma DisjointCommandsApart(l: Layout, e: Entry, e': Entry, item: IoBatchItem, item': IoBatchItem)
    requires EntryOk(l, e) && EntryOk(l, e') && Pages(e) !! Pages(e')
    requires CommandOf(l, e, item) && CommandOf(l, e', item')
    ensures RangesApart(item, item')
  {
    hide Pages, EntryOk;
    var a := if item.byteOffset <= item'.byteOffset then item'.byteOffset else item.byteOffset;
    assert Touches(item, a) ==> a / l.page in Pages(e);
    assert Touches(item', a) ==> a / l.page in Pages(e');
  }

  /** Each reservation's pages hold the bytes of its request. */
  ghost predicate AllValues(l: Layout, content: Bytes, rs: seq<Reservation>, buffers: seq<Bytes>) {
    forall p | 0 <= p < |rs| :: rs[p].index < |buffers| && Value(l, content, rs[p].entry) == buffers[rs[p].index]
  }

  lemma ReservationIndex(entries: map<Key, Entry>, rs: seq<Reservation>, keys: seq<Key>, buffers: seq<Bytes>, p: nat)
    requires |keys| == |buffers| && ReservationsFor(entries, rs, keys, buffers, |keys|) && p < |rs|
    ensures rs[p].index < |keys|
  {}

  lemma NotHeld(held: Holdings, h: Holder)
    requires Find(held, h) == None
    ensures held - {h} == held
  {}

  // Releasing one holder of a batch.
  lemma OneLess(entries: map<Key, Entry>, rs: seq<Reservation>, a: nat, b: nat, c: nat, h: Holder)
    requires c <= |rs|
    requires (h == Reserved(0, a) && a < |rs|) || (h == Retiring(0, b) && b < c)
    ensures var held := Outstanding(entries, rs, a, b, c);
            && Find(held, h) == HeldBy(entries, rs, a, b, c, h)
            && held - {h} == (if h.Reserved? then Outstanding(entries, rs, a + 1, b, c)
                              else Outstanding(entries, rs, a, b + 1, c))
  {
    hide Outstanding;
    var held := Outstanding(entries, rs, a, b, c);
    var (a', b') := if h.Reserved? then (a + 1, b) else (a, b + 1);
    forall g: Holder ensures Find(held - {h}, g) == Find(Outstanding(entries, rs, a', b', c), g) {
      OutstandingAt(entries, rs, a, b, c, g);
      OutstandingAt(entries, rs, a', b', c, g);
    }
    OutstandingAt(entries, rs, a, b, c, h);
    SameHoldings(held - {h}, Outstanding(entries, rs, a', b', c));
  }

  lemma NoneLeft(entries: map<Key, Entry>, rs: seq<Reservation>, b: nat, c: nat)
    requires c <= b && c <= |rs|
    ensures Outstanding(entries, rs, |rs|, b, c) == Holding(entries)
  {}

  /** The entries after the first m reservations are published. */
  function PublishedFirst(entries: map<Key, Entry>, rs: seq<Reservation>, keys: seq<Key>, m: nat): map<Key, Entry>
    requires m <= |rs| && forall p | 0 <= p < |rs| :: rs[p].index < |keys|
  {
    if m == 0 then entries
    else PublishedFirst(entries, rs, keys, m - 1)[keys[rs[m - 1].index] := rs[m - 1].entry]
  }

  // Publishing earlier reservations leaves the keys of later ones alone.
  lemma {:induction false} PublishedOther(entries: map<Key, Entry>, rs: seq<Reservation>, keys: seq<Key>,
                                          buffers: seq<Bytes>, m: nat, p: nat)
    requires |keys| == |buffers| && ReservationsFor(entries, rs, keys, buffers, |keys|) && m <= p < |rs|
    ensures Find(PublishedFirst(entries, rs, keys, m), keys[rs[p].index]) == rs[p].previous
  {
    if m == 0 {
    } else {
      PublishedOther(entries, rs, keys, buffers, m - 1, p);
      assert rs[m - 1].index < rs[p].index;
    }
  }

  lemma ReserveNext(entries: map<Key, Entry>, rs: seq<Reservation>, reservation: Reservation,
                    keys: seq<Key>, buffers: seq<Bytes>, i: nat)
    requires i < |keys| == |buffers| && ReservationsFor(entries, rs, keys, buffers, i)
    requires keys[i] !in keys[..i] && |buffers[i]| > 0 && !Skips(entries, keys[i], buffers[i])
    requires reservation.index == i && reservation.entry.logicalSize == |buffers[i]|
    requires reservation.previous == Find(entries, keys[i])
    ensures ReservationsFor(entries, rs + [reservation], keys, buffers, i + 1)
  {
    var next := rs + [reservation];
    forall j | 0 <= j < i + 1 && !Skips(entries, keys[j], buffers[j]) ensures IsReserved(next, j) {
      if j < i {
        var p :| 0 <= p < |rs| && rs[p].index == j;
        assert next[p].index == j;
      } else {
        assert next[|rs|].index == j;
      }
    }
  }

  lemma SkipNext(entries: map<Key, Entry>, rs: seq<Reservation>, keys: seq<Key>, buffers: seq<Bytes>, i: nat)
    requires i < |keys| == |buffers| && ReservationsFor(entries, rs, keys, buffers, i)
    requires keys[i] !in keys[..i] && |buffers[i]| > 0 && Skips(entries, keys[i], buffers[i])
    ensures ReservationsFor(entries, rs, keys, buffers, i + 1)
  {
  }

  lemma SomethingReserved(entries: map<Key, Entry>, rs: seq<Reservation>, keys: seq<Key>, buffers: seq<Bytes>)
    requires |keys| == |buffers| && ReservationsFor(entries, rs, keys, buffers, |keys|)
    ensures rs == [] <==> forall i | 0 <= i < |keys| :: Skips(entries, keys[i], buffers[i])
  {
    if rs != [] { assert !Skips(entries, keys[rs[0].index], buffers[rs[0].index]); }
  }

  lemma CollectedSome(l: Layout, rs: seq<Reservation>, buffers: seq<Bytes>, items: seq<IoBatchItem>,
                      data: seq<Bytes>, tags: seq<(nat, nat)>, starts: seq<nat>)
    requires l.Valid() && Collected(l, rs, buffers, |rs|, items, data, tags, starts)
    requires forall p | 0 <= p < |rs| :: EntryOk(l, rs[p].entry)
    ensures items == [] <==> rs == []
  {
    hide EntryOk, SegmentsOf;
    if rs != [] {
      SegmentsOfEntry(l, rs[0].entry);
      assert |SegmentsOf(l, rs[0].entry)| > 0 && IsTagged(tags, starts, 0, 0);
    }
    if items != [] {
      assert tags[0].0 < |rs|;
    }
  }

  lemma NoValues(l: Layout, content: Bytes, rs: seq<Reservation>, buffers: seq<Bytes>)
    requires rs == [] && l.Valid() && |content| == l.Capacity()
    ensures AllValues(l, content, rs, buffers)
  {}

  lemma FaultIs(l: Layout, store: map<Key, Bytes>, keys: seq<Key>, buffers: seq<Bytes>, left: int, i: nat)
    requires Wordy(l, buffers) && i < |keys| == |buffers|
    ensures var fault, pages := Fault(l, store, keys, buffers, left, i), Geo.PagesForBytes(l.page, |buffers[i]|);
            if keys[i] in keys[..i] then fault == Some(DuplicateKey)
            else if |buffers[i]| == 0 then fault == Some(EmptyValue)
            else if KeepsOld(store, keys[i], buffers[i]) then
              fault.None? && PagesTaken(l, store, keys, buffers, i) == Ok(0)
            else if pages.Err? then fault == Some(PageCountOverflow)
            else if pages.value > left then fault == Some(CapacityExhausted)
            else fault.None? && PagesTaken(l, store, keys, buffers, i) == Ok(pages.value)
    ensures keys[i] in keys[..i] || |buffers[i]| == 0 ==> !WellFormedBatch(keys, buffers, |keys|)
  {
    hide Geo.PagesForBytes, KeepsOld;
  }

  lemma RoomAtFirst(l: Layout, store: map<Key, Bytes>, keys: seq<Key>, buffers: seq<Bytes>, free: int)
    requires Wordy(l, buffers) && |keys| == |buffers|
    ensures RoomAfter(l, store, keys, buffers, free, 0) == Ok(free)
  {}

  lemma RoomNext(l: Layout, store: map<Key, Bytes>, keys: seq<Key>, buffers: seq<Bytes>, free: int, left: int, i: nat)
    requires Wordy(l, buffers) && i < |keys| == |buffers| && RoomAfter(l, store, keys, buffers, free, i) == Ok(left)
    ensures var fault := Fault(l, store, keys, buffers, left, i);
            if fault.Some? then RoomAfter(l, store, keys, buffers, free, |keys|) == Err(fault.value)
            else RoomAfter(l, store, keys, buffers, free, i + 1) == Ok(left - PagesTaken(l, store, keys, buffers, i).value)
  {
    hide Fault;
    if Fault(l, store, keys, buffers, left, i).Some? {
      FaultStays(l, store, keys, buffers, free, i + 1, |keys|);
    }
  }

  lemma {:induction false} FaultStays(l: Layout, store: map<Key, Bytes>, keys: seq<Key>, buffers: seq<Bytes>, free: int, n: nat,
                                      m: nat)
    requires Wordy(l, buffers) && n <= m <= |keys| == |buffers| && RoomAfter(l, store, keys, buffers, free, n).Err?
    ensures RoomAfter(l, store, keys, buffers, free, m) == RoomAfter(l, store, keys, buffers, free, n)
  {
    hide Fault;
    if n == m {
    } else {
      FaultStays(l, store, keys, buffers, free, n, m - 1);
    }
  }

  // ----- the published batch is the sets applied one after the other -----------------------------

  lemma {:induction false} AppliedElsewhere(store: map<Key, Bytes>, keys: seq<Key>, buffers: seq<Bytes>, n: nat, k: Key)
    requires n <= |keys| == |buffers| && k !in keys[..n]
    ensures Find(AllApplied(store, keys, buffers, n), k) == Find(store, k)
  {
    if n == 0 {
    } else {
      assert keys[..n][n - 1] == keys[n - 1];
      assert k !in keys[..n - 1] by { assert keys[..n - 1] == keys[..n][..n - 1]; }
      AppliedElsewhere(store, keys, buffers, n - 1, k);
    }
  }

  lemma {:induction false} AppliedTo(store: map<Key, Bytes>, keys: seq<Key>, buffers: seq<Bytes>, n: nat, i: nat)
    requires i < n <= |keys| == |buffers| && WellFormedBatch(keys, buffers, n)
    ensures Find(AllApplied(store, keys, buffers, n), keys[i])
            == if KeepsOld(store, keys[i], buffers[i]) then Find(store, keys[i]) else Some(buffers[i])
  {
    if i == n - 1 {
      AppliedElsewhere(store, keys, buffers, n - 1, keys[i]);
    } else {
      AppliedTo(store, keys, buffers, n - 1, i);
    }
  }

  lemma {:induction false} PublishedElsewhere(entries: map<Key, Entry>, rs: seq<Reservation>, keys: seq<Key>, m: nat, k: Key)
    requires m <= |rs| && forall p | 0 <= p < |rs| :: rs[p].index < |keys|
    requires forall p | 0 <= p < m :: keys[rs[p].index] != k
    ensures Find(PublishedFirst(entries, rs, keys, m), k) == Find(entries, k)
  {
    if m == 0 {
    } else {
      PublishedElsewhere(entries, rs, keys, m - 1, k);
    }
  }

  lemma {:induction false} PublishedTo(entries: map<Key, Entry>, rs: seq<Reservation>, keys: seq<Key>, m: nat, p: nat)
    requires p < m <= |rs| && forall p | 0 <= p < |rs| :: rs[p].index < |keys|
    requires forall q | p < q < m :: keys[rs[q].index] != keys[rs[p].index]
    ensures Find(PublishedFirst(entries, rs, keys, m), keys[rs[p].index]) == Some(rs[p].entry)
  {
    if p < m - 1 { PublishedTo(entries, rs, keys, m - 1, p); }
  }

  lemma StoreAllApplied(l: Layout, content: Bytes, entries: map<Key, Entry>, rs: seq<Reservation>,
                        keys: seq<Key>, buffers: seq<Bytes>)
    requires |keys| == |buffers| && ReservationsFor(entries, rs, keys, buffers, |keys|)
    requires AllValues(l, content, rs, buffers)
    requires |content| == l.Capacity() && forall k | k in entries :: EntryOk(l, entries[k])
    ensures Store(l, content, PublishedFirst(entries, rs, keys, |rs|))
            == AllApplied(Store(l, content, entries), keys, buffers, |keys|)
  {
    var left := Store(l, content, PublishedFirst(entries, rs, keys, |rs|));
    var right := AllApplied(Store(l, content, entries), keys, buffers, |keys|);
    forall k ensures Find(left, k) == Find(right, k) {
      StoreAllAppliedAt(l, content, entries, rs, keys, buffers, k);
    }
    SameStore(left, right);
  }

  lemma SameStore(left: map<Key, Bytes>, right: map<Key, Bytes>)
    requires forall k :: Find(left, k) == Find(right, k)
    ensures left == right
  {
    forall k ensures k in left <==> k in right {
      assert Find(left, k) == Find(right, k);
    }
    forall k | k in left ensures left[k] == right[k] {
      assert Find(left, k) == Find(right, k);
    }
  }

  lemma StoreAllAppliedAt(l: Layout, content: Bytes, entries: map<Key, Entry>, rs: seq<Reservation>,
                          keys: seq<Key>, buffers: seq<Bytes>, k: Key)
    requires |keys| == |buffers| && ReservationsFor(entries, rs, keys, buffers, |keys|)
    requires AllValues(l, content, rs, buffers)
    requires |content| == l.Capacity() && forall k | k in entries :: EntryOk(l, entries[k])
    ensures Find(Store(l, content, PublishedFirst(entries, rs, keys, |rs|)), k)
            == Find(AllApplied(Store(l, content, entries), keys, buffers, |keys|), k)
  {
    hide Value, EntryOk;
    var n, store := |keys|, Store(l, content, entries);
    if k in keys {
      var i :| 0 <= i < n && keys[i] == k;
      StoreAppliedToKey(l, content, entries, rs, keys, buffers, i);
    } else {
      assert keys[..n] == keys;
      AppliedElsewhere(store, keys, buffers, n, k);
      PublishedElsewhere(entries, rs, keys, |rs|, k);
    }
  }

  lemma StoreAppliedToKey(l: Layout, content: Bytes, entries: map<Key, Entry>, rs: seq<Reservation>,
                          keys: seq<Key>, buffers: seq<Bytes>, i: nat)
    requires |keys| == |buffers| && ReservationsFor(entries, rs, keys, buffers, |keys|) && i < |keys|
    requires AllValues(l, content, rs, buffers)
    requires |content| == l.Capacity() && forall k | k in entries :: EntryOk(l, entries[k])
    ensures Find(Store(l, content, PublishedFirst(entries, rs, keys, |rs|)), keys[i])
            == Find(AllApplied(Store(l, content, entries), keys, buffers, |keys|), keys[i])
  {
    hide Value, EntryOk, PublishedFirst, AllApplied, Store, KeepsOld;
    var n, store, k := |keys|, Store(l, content, entries), keys[i];
    FindStored(l, content, entries, k);
    FindStored(l, content, PublishedFirst(entries, rs, keys, |rs|), k);
    AppliedTo(store, keys, buffers, n, i);
    SkipsIsKeepsOld(l, content, entries, k, buffers[i]);
    if Skips(entries, k, buffers[i]) {
      PublishedElsewhere(entries, rs, keys, |rs|, k);
    } else {
      assert IsReserved(rs, i);
      var p :| 0 <= p < |rs| && rs[p].index == i;
      PublishedTo(entries, rs, keys, |rs|, p);
    }
  }

  lemma FindStored(l: Layout, content: Bytes, entries: map<Key, Entry>, k: Key)
    ensures Find(Store(l, content, entries), k) == if k in entries then Some(Value(l, content, entries[k])) else None
  {
    hide Value;
  }

  lemma SkipsIsKeepsOld(l: Layout, content: Bytes, entries: map<Key, Entry>, k: Key, buffer: Bytes)
    requires |content| == l.Capacity() && forall k | k in entries :: EntryOk(l, entries[k])
    ensures Skips(entries, k, buffer) <==> KeepsOld(Store(l, content, entries), k, buffer)
  {}

  /** A set of another size than the stored value is silently ignored. */
  predicate KeepsOld(store: map<Key, Bytes>, key: Key, buffer: Bytes) {
    key in store && |store[key]| != |buffer|
  }

  lemma OwnerOk(l: Layout, held: Holdings, free: set<int>, h: Holder)
    requires OneOwner(l, held, free) && h in held
    ensures EntryOk(l, held[h])
  {}

  /** The caller's bytes of each command. */
  function Slices(buffer: Bytes, items: seq<IoBatchItem>, ghost e: Entry, ghost l: Layout): (data: seq<Bytes>)
    requires EntryOk(l, e) && CommandsOf(l, e, items) && |buffer| == e.logicalSize
    ensures |data| == |items|
    ensures forall i | 0 <= i < |items| ::
              && items[i].bufferOffset + items[i].logicalLength <= |buffer|
              && data[i] == Slice(buffer, items[i]) && |data[i]| == items[i].logicalLength
  {
    assert forall i | 0 <= i < |items| :: CommandOf(l, e, items[i]);
    seq(|items|, i requires 0 <= i < |items| => Slice(buffer, items[i]))
  }

  // Commands of an entry change bytes of its own pages only.
  lemma CommandsStayInside(l: Layout, e: Entry, items: seq<IoBatchItem>, content: Bytes, content': Bytes)
    requires EntryOk(l, e) && CommandsOf(l, e, items) && |content'| == |content|
    requires forall a | 0 <= a < |content| && content'[a] != content[a] ::
               exists i :: 0 <= i < |items| && Touches(items[i], a)
    ensures OnlyPages(l, content, content', Pages(e))
  {
    forall a | 0 <= a < |content| && content'[a] != content[a] ensures a / l.page in Pages(e) {
      var i :| 0 <= i < |items| && Touches(items[i], a);
      assert CommandOf(l, e, items[i]);
    }
  }

  lemma ExtentsAreWords(l: Layout, e: Entry)
    requires EntryOk(l, e) && l.pageCount <= U64_MAX
    ensures forall x | x in e.extents :: IsWord(x)
  {
    forall i | 0 <= i < |e.extents| ensures IsWord(e.extents[i]) {
      var x := e.extents[i];
      assert Covers(x, x.first) && Covers(x, x.first + x.count - 1);
      assert x.first in Pages(e) && x.first + x.count - 1 in Pages(e);
    }
  }
}
