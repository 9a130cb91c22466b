/** One worker's fixed set of DMA buffers, leased by index from a stack of free indexes. */
module SpdkBufferPools {
  import opened Basics
  import Geo = StorageGeometry

  datatype PoolError =
    | AlreadyInitialized | EmptyBuffer | BadAlignment | NoBuffers | TooLarge
    | OutOfMemory(granted: nat)
    | NotInitialized | NotLeased

  /** The pool's tables: which indexes are leased, and the stack of free ones. */
  datatype Pool = Pool(initialized: bool, inUse: seq<bool>, free: seq<nat>) {

    /** The free stack lists exactly the indexes not in use, each once. */
    ghost predicate Sound() {
      && (!initialized ==> inUse == [] && free == [])
      && (forall i | 0 <= i < |free| :: free[i] < |inUse|)
      && (forall i, j | 0 <= i < j < |free| :: free[i] != free[j])
      && (forall b | 0 <= b < |inUse| :: inUse[b] <==> b !in free)
    }

    predicate IsLeased(b: nat) {
      b < |inUse| && inUse[b]
    }

    function Leased(): int {
      |inUse| - |free|
    }
  }

  const EMPTY := Pool(false, [], [])

  /** The lease that try_acquire grants: the top of the stack. */
  function Top(p: Pool): nat
    requires p.free != []
  {
    p.free[|p.free| - 1]
  }

  function Grant(p: Pool): Pool
    requires p.free != [] && Top(p) < |p.inUse|
  {
    Pool(p.initialized, p.inUse[Top(p) := true], p.free[..|p.free| - 1])
  }

  function GiveBack(p: Pool, b: nat): Pool
    requires p.IsLeased(b)
  {
    Pool(p.initialized, p.inUse[b := false], p.free + [b])
  }

  /** A lease is never granted twice, and leases are counted. */
  lemma GrantSound(p: Pool)
    requires p.Sound() && p.free != []
    ensures !p.IsLeased(Top(p)) && Top(p) < |p.inUse|
    ensures Grant(p).Sound() && Grant(p).Leased() == p.Leased() + 1
    ensures forall b :: Grant(p).IsLeased(b) <==> b == Top(p) || p.IsLeased(b)
  {
    var top, rest := Top(p), p.free[..|p.free| - 1];
    assert top in p.free;
    forall b ensures b in p.free <==> b == top || b in rest {
      if b in p.free && b != top {
        var i :| 0 <= i < |p.free| && p.free[i] == b;
        assert rest[i] == b;
      }
    }
  }

  lemma GiveBackSound(p: Pool, b: nat)
    requires p.Sound() && p.IsLeased(b)
    ensures GiveBack(p, b).Sound() && GiveBack(p, b).Leased() == p.Leased() - 1
    ensures forall b' :: GiveBack(p, b).IsLeased(b') <==> b' != b && p.IsLeased(b')
  {
    forall b' ensures b' in p.free + [b] <==> b' == b || b' in p.free {}
  }

  /** Giving back the buffer just granted restores the pool exactly. */
  lemma GrantThenGiveBack(p: Pool)
    requires p.Sound() && p.free != []
    ensures Top(p) < |p.inUse| && Grant(p).IsLeased(Top(p)) && GiveBack(Grant(p), Top(p)) == p
  {
    assert Top(p) in p.free;
    assert p.free[..|p.free| - 1] + [Top(p)] == p.free;
    assert p.inUse[Top(p) := true][Top(p) := false] == p.inUse;
  }

  /** The buffer released last is granted first. */
  lemma LastReleasedFirstGranted(p: Pool, b: nat)
    requires p.Sound() && p.IsLeased(b)
    ensures Top(GiveBack(p, b)) == b && Grant(GiveBack(p, b)) == p
  {
    assert (p.free + [b])[..|p.free|] == p.free;
    assert p.inUse[b := false][b := true] == p.inUse;
  }

  /** The number of leases lies between nothing and everything, and is everything exactly when none is available. */
  lemma LeaseBounds(p: Pool)
    requires p.Sound()
    ensures 0 <= p.Leased() <= |p.inUse|
    ensures p.free == [] <==> p.Leased() == |p.inUse|
    ensures p.free == [] ==> forall b | 0 <= b < |p.inUse| :: p.inUse[b]
  {
    hide MembersOf, Range;
    var indexes := MembersOf(p.free, |p.free|);
    DistinctSize(p.free, |p.free|);
    MembersInRange(p);
    RangeSize(0, |p.inUse|);
    assert Range(0, |p.inUse|) == indexes + (Range(0, |p.inUse|) - indexes);
  }

  lemma MembersInRange(p: Pool)
    requires p.Sound()
    ensures MembersOf(p.free, |p.free|) <= Range(0, |p.inUse|)
  {
    forall b | b in MembersOf(p.free, |p.free|) ensures b in Range(0, |p.inUse|) { assert InRange(0, |p.inUse|, b); }
  }

  /** What spdk_dma_zmalloc answers to the k-th request. */
  type DmaAllocator = nat -> Option<nat>

  /** The stack after initialisation grants index 0 first. */
  function Descending(n: nat): (s: seq<nat>)
    ensures |s| == n && forall i | 0 <= i < n :: s[i] == n - 1 - i
  {
    seq(n, i requires 0 <= i < n => n - 1 - i)
  }

  lemma FreshSound(n: nat)
    ensures Pool(true, seq(n, _ => false), Descending(n)).Sound()
  {
    forall b | 0 <= b < n ensures b in Descending(n) {
      assert Descending(n)[n - 1 - b] == b;
    }
  }

  class SpdkBufferPool {
    var bufferSize: u64
    var buffers: seq<nat>
    var inUse: seq<bool>
    var freeIndexes: seq<nat>
    var initialized: bool

    function View(): Pool
      reads this
    {
      Pool(initialized, inUse, freeIndexes)
    }

    ghost predicate Valid()
      reads this
    {
      View().Sound() && |buffers| == |inUse|
    }

    constructor ()
      ensures Valid() && View() == EMPTY
    {
      bufferSize := 0;
      buffers, inUse, freeIndexes, initialized := [], [], [], false;
    }

    /** All buffers or none: a refused allocation gives back those already granted. */
    method Initialize(size: u64, alignment: bv64, count: u64, dma: DmaAllocator) returns (r: Option<PoolError>)
      requires Valid()
      modifies this
      ensures Valid()
      ensures r.None? <==>
              && !old(initialized) && 0 < size && Geo.IsPowerOfTwo(alignment) && 0 < count
              && count * size < TWO_TO_64 && forall k | 0 <= k < count :: dma(k).Some?
      ensures r.None? ==>
                && initialized && bufferSize == size && |buffers| == count == |freeIndexes|
                && View() == Pool(true, seq(count, _ => false), Descending(count))
                && forall k | 0 <= k < count :: buffers[k] == dma(k).value
      ensures r.Some? && !r.value.OutOfMemory? ==> unchanged(this)
      ensures r.Some? && r.value.OutOfMemory? ==>
                && View() == EMPTY && r.value.granted < count && dma(r.value.granted).None?
                && forall k | 0 <= k < r.value.granted :: dma(k).Some?
    {
      if initialized || buffers != [] { return Some(AlreadyInitialized); }
      if size == 0 { return Some(EmptyBuffer); }
      if !Geo.IsPowerOfTwo(alignment) { return Some(BadAlignment); }
      if count == 0 { return Some(NoBuffers); }
      ProductFits(count, size);
      if count > (TWO_TO_64 - 1) / size { return Some(TooLarge); }
      bufferSize := size;
      inUse := seq(count, _ => false);
      var index := 0;
      while index < count
        invariant 0 <= index <= count && |buffers| == index
        invariant forall k | 0 <= k < index :: dma(k).Some? && buffers[k] == dma(k).value
        invariant inUse == seq(count, _ => false) && freeIndexes == [] && !initialized
        invariant bufferSize == size
      {
        var buffer := dma(index);
        if buffer.None? {
          var granted := |buffers|;
          ReleaseAll();
          return Some(OutOfMemory(granted));
        }
        buffers := buffers + [buffer.value];
        index := index + 1;
      }
      while index > 0
        invariant 0 <= index <= count && |freeIndexes| == count - index
        invariant forall i | 0 <= i < |freeIndexes| :: freeIndexes[i] == count - 1 - i
        invariant |buffers| == count && forall k | 0 <= k < count :: dma(k).Some? && buffers[k] == dma(k).value
        invariant inUse == seq(count, _ => false) && bufferSize == size
      {
        freeIndexes := freeIndexes + [index - 1];
        index := index - 1;
      }
      assert freeIndexes == Descending(count);
      FreshSound(count);
      initialized := true;
      return None;
    }

    method ReleaseAll()
      modifies this
      ensures Valid() && View() == EMPTY
    {
      buffers, inUse, freeIndexes := [], [], [];
      bufferSize := 0;
      initialized := false;
    }

    method TryAcquire() returns (r: Result<Option<nat>, PoolError>)
      requires Valid()
      modifies this
      ensures Valid() && buffers == old(buffers)
      ensures !old(initialized) ==> r == Err(NotInitialized) && View() == old(View())
      ensures old(initialized) && old(freeIndexes) == [] ==> r == Ok(None) && View() == old(View())
      ensures old(initialized) && old(freeIndexes) != [] ==>
                && r == Ok(Some(Top(old(View())))) && !old(View()).IsLeased(r.value.value)
                && View() == Grant(old(View()))
    {
      if !initialized { return Err(NotInitialized); }
      if freeIndexes == [] { return Ok(None); }
      GrantSound(View());
      var index := freeIndexes[|freeIndexes| - 1];
      freeIndexes := freeIndexes[..|freeIndexes| - 1];
      inUse := inUse[index := true];
      return Ok(Some(index));
    }

    function Available(): nat
      reads this
    {
      |freeIndexes|
    }

    method Data(index: nat) returns (r: Result<nat, PoolError>)
      requires Valid()
      ensures r.Ok? <==> initialized && View().IsLeased(index)
      ensures r.Ok? ==> index < |buffers| && r.value == buffers[index]
      ensures r == Err(NotInitialized) <==> !initialized
    {
      if !initialized { return Err(NotInitialized); }
      if index >= |buffers| || !inUse[index] { return Err(NotLeased); }
      return Ok(buffers[index]);
    }

    method Release(index: nat) returns (r: Option<PoolError>)
      requires Valid()
      modifies this
      ensures Valid() && buffers == old(buffers)
      ensures r.None? <==> old(initialized) && old(View()).IsLeased(index)
      ensures r.None? ==> View() == GiveBack(old(View()), index)
      ensures r.Some? ==> View() == old(View())
    {
      if !initialized { return Some(NotInitialized); }
      if index >= |buffers| || !inUse[index] { return Some(NotLeased); }
      GiveBackSound(View(), index);
      inUse := inUse[index := false];
      freeIndexes := freeIndexes + [index];
      return None;
    }
  }

  lemma ProductFits(count: nat, size: nat)
    requires 0 < size
    ensures count > (TWO_TO_64 - 1) / size <==> count * size >= TWO_TO_64
  {
    var q := (TWO_TO_64 - 1) / size;
    DivisionFacts(TWO_TO_64 - 1, size);
    if count <= q { MulMonotone(size, count, q); } else { MulMonotone(size, q + 1, count); }
  }
}
