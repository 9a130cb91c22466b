/** Page and command sizes derived from one opened bdev, in 64-bit arithmetic. */
module StorageGeometry {
  import opened Basics

  datatype GeometryError =
    | ZeroDimension | BadAlignment | ZeroBuffers | Overflow | BadSegment | NoPages

  datatype Geometry = Geometry(
    capacityBytes: u64, usableCapacityBytes: u64, pageSize: u64, pageCount: u64,
    ioSegmentSize: u64, bdevMaxRwSizeBytes: u64, blockSize: u32, writeUnitBlocks: u32,
    bufferAlignment: bv64, spdkBufferCount: u64)

  function CheckedMultiply(left: u64, right: u64): (r: Result<u64, GeometryError>)
    ensures r == if left * right <= U64_MAX then Ok(left * right) else Err(Overflow)
  {
    if left != 0 && right > U64_MAX / left then
      MultiplyOverflows(left, right);
      Err(Overflow)
    else
      MultiplyFits(left, right);
      Ok(left * right)
  }

  lemma MultiplyOverflows(left: u64, right: u64)
    requires left != 0 && right > U64_MAX / left
    ensures left * right > U64_MAX
  {
    assert left * (U64_MAX / left + 1) > U64_MAX;
    assert left * right >= left * (U64_MAX / left + 1);
  }

  lemma MultiplyFits(left: u64, right: u64)
    requires left == 0 || right <= U64_MAX / left
    ensures 0 <= left * right <= U64_MAX
  {
    if left != 0 {
      assert left * right <= left * (U64_MAX / left) <= U64_MAX;
    }
  }

  predicate IsPowerOfTwo(value: bv64) {
    value != 0 && value & (value - 1) == 0
  }

  function BuildStorageGeometry(
    numBlocks: u64, blockSize: u32, writeUnitBlocks: u32, bufferAlignment: bv64,
    ioSegmentSize: u64, bdevMaxRwSizeBlocks: u32, spdkBufferCount: u64)
    : (r: Result<Geometry, GeometryError>)
  {
    if numBlocks == 0 || blockSize == 0 || writeUnitBlocks == 0 then Err(ZeroDimension)
    else if !IsPowerOfTwo(bufferAlignment) then Err(BadAlignment)
    else if spdkBufferCount == 0 then Err(ZeroBuffers)
    else
      var capacity := CheckedMultiply(numBlocks, blockSize);
      if capacity.Err? then Err(capacity.error) else
      var pageSize := CheckedMultiply(blockSize, writeUnitBlocks);
      ProductPositive(blockSize, writeUnitBlocks);
      if pageSize.Err? then Err(pageSize.error) else
      var maxRw := if bdevMaxRwSizeBlocks == 0 then Ok(0) else CheckedMultiply(bdevMaxRwSizeBlocks, blockSize);
      if maxRw.Err? then Err(maxRw.error) else
      var page := pageSize.value;
      DivisionFacts(maxRw.value, page);
      var maxAligned: u64 := maxRw.value / page * page;
      var segment: u64 := if maxRw.value == 0 then ioSegmentSize else Min(ioSegmentSize, maxAligned);
      if segment < page || segment % page != 0 then Err(BadSegment) else
      DivisionFacts(capacity.value, page);
      var pageCount: u64 := capacity.value / page;
      if pageCount == 0 then Err(NoPages) else
      var usable := CheckedMultiply(pageCount, page);
      if usable.Err? then Err(usable.error) else
      Ok(Geometry(capacity.value, usable.value, page, pageCount, segment, maxRw.value,
                  blockSize, writeUnitBlocks, bufferAlignment, spdkBufferCount))
  }

  /** What every later use of a geometry relies on. */
  ghost predicate Sound(g: Geometry) {
    && 0 < g.pageSize && 0 < g.pageCount
    && g.usableCapacityBytes == g.pageCount * g.pageSize <= g.capacityBytes
    && g.pageSize <= g.ioSegmentSize && g.ioSegmentSize % g.pageSize == 0
    && 0 < g.spdkBufferCount
  }

  /**
   * An accepted geometry: usable capacity is the largest page multiple within the device, and the
   * segment is a positive page multiple that is the largest one allowed by the device limit when the
   * device caps the request, and the request itself otherwise.
   */
  lemma AcceptedGeometry(
    numBlocks: u64, blockSize: u32, writeUnitBlocks: u32, bufferAlignment: bv64,
    ioSegmentSize: u64, maxBlocks: u32, bufferCount: u64)
    requires BuildStorageGeometry(numBlocks, blockSize, writeUnitBlocks, bufferAlignment,
                                  ioSegmentSize, maxBlocks, bufferCount).Ok?
    ensures var g := BuildStorageGeometry(numBlocks, blockSize, writeUnitBlocks, bufferAlignment,
                                          ioSegmentSize, maxBlocks, bufferCount).value;
            && Sound(g)
            && g.pageSize == blockSize * writeUnitBlocks
            && g.usableCapacityBytes <= numBlocks * blockSize < g.usableCapacityBytes + g.pageSize
            && g.ioSegmentSize <= ioSegmentSize
            && (maxBlocks != 0 ==> g.ioSegmentSize <= maxBlocks * blockSize)
            && (g.ioSegmentSize < ioSegmentSize ==>
                  maxBlocks != 0 && maxBlocks * blockSize < g.ioSegmentSize + g.pageSize)
  {
    var g := BuildStorageGeometry(numBlocks, blockSize, writeUnitBlocks, bufferAlignment,
                                  ioSegmentSize, maxBlocks, bufferCount).value;
    DivisionFacts(g.capacityBytes, g.pageSize);
    DivisionFacts(g.bdevMaxRwSizeBytes, g.pageSize);
    ProductPositive(maxBlocks, blockSize);
  }

  /** Exactly which inputs are accepted. */
  lemma AcceptedIff(
    numBlocks: u64, blockSize: u32, writeUnitBlocks: u32, bufferAlignment: bv64,
    ioSegmentSize: u64, maxBlocks: u32, bufferCount: u64)
    ensures var page := blockSize * writeUnitBlocks;
            var limit := maxBlocks * blockSize;
            BuildStorageGeometry(numBlocks, blockSize, writeUnitBlocks, bufferAlignment,
                                 ioSegmentSize, maxBlocks, bufferCount).Ok?
            <==> && 0 < page <= numBlocks * blockSize <= U64_MAX
                 && IsPowerOfTwo(bufferAlignment) && bufferCount != 0
                 && page <= ioSegmentSize && (maxBlocks != 0 ==> page <= limit)
                 && (ioSegmentSize % page == 0 || (maxBlocks != 0 && limit / page * page < ioSegmentSize))
  {
    WordsFit(blockSize, writeUnitBlocks);
    WordsFit(maxBlocks, blockSize);
    ProductPositive(blockSize, writeUnitBlocks);
    ProductPositive(numBlocks, blockSize);
    ProductPositive(maxBlocks, blockSize);
    if 0 < blockSize && 0 < writeUnitBlocks && numBlocks * blockSize <= U64_MAX {
      var page := blockSize * writeUnitBlocks;
      DivisionFacts(numBlocks * blockSize, page);
      DivisionFacts(maxBlocks * blockSize, page);
      MultipleHasNoRemainder(maxBlocks * blockSize / page, page);
      QuotientPositive(numBlocks * blockSize, page);
      QuotientPositive(maxBlocks * blockSize, page);
    }
  }

  lemma MultipleHasNoRemainder(q: int, page: int)
    requires 0 < page
    ensures q * page % page == 0
  {
    RemainderUnique(q * page, page, q, 0);
  }

  lemma QuotientPositive(value: int, page: int)
    requires 0 <= value && 0 < page
    ensures value / page == 0 <==> value < page
    ensures page <= value ==> page <= value / page * page
  {
    var q := value / page;
    assert value == page * q + value % page;
    if q >= 1 { MulMonotone(page, 1, q); }
  }

  lemma ProductPositive(a: int, b: int)
    requires 0 <= a && 0 <= b
    ensures 0 <= a * b && (a * b == 0 <==> a == 0 || b == 0)
  {
  }

  /**
   * Overflow is reported for one reason only: the byte capacity does not fit 64 bits. The three later
   * checked multiplications never fire.
   */
  lemma OverflowIsCapacityOverflow(
    numBlocks: u64, blockSize: u32, writeUnitBlocks: u32, bufferAlignment: bv64,
    ioSegmentSize: u64, maxBlocks: u32, bufferCount: u64)
    ensures BuildStorageGeometry(numBlocks, blockSize, writeUnitBlocks, bufferAlignment,
                                 ioSegmentSize, maxBlocks, bufferCount) == Err(Overflow)
            <==> && numBlocks * blockSize > U64_MAX && writeUnitBlocks != 0
                 && IsPowerOfTwo(bufferAlignment) && bufferCount != 0
  {
    WordsFit(blockSize, writeUnitBlocks);
    WordsFit(maxBlocks, blockSize);
    ProductPositive(blockSize, writeUnitBlocks);
    ProductPositive(numBlocks, blockSize);
    if 0 < blockSize && 0 < writeUnitBlocks && numBlocks * blockSize <= U64_MAX {
      DivisionFacts(numBlocks * blockSize, blockSize * writeUnitBlocks);
    }
  }

  lemma WordsFit(a: u32, b: u32)
    ensures 0 <= a * b <= U64_MAX
  {
    ProductBound(a, b, 0xFFFF_FFFF);
  }

  lemma ProductBound(a: int, b: int, n: int)
    requires 0 <= a <= n && 0 <= b <= n
    ensures 0 <= a * b <= n * n
  {
    MulMonotone(a, 0, b);
    MulMonotone(a, b, n);
    MulMonotone(n, a, n);
  }

  /** No byte of an in-range page run lies beyond 64-bit offsets or the usable capacity. */
  lemma PageOffsetsNeverWrap(g: Geometry, firstPage: int, pageCount: int, within: int)
    requires Sound(g) && 0 <= firstPage && 0 <= pageCount && firstPage + pageCount <= g.pageCount
    requires 0 <= within <= pageCount * g.pageSize
    ensures 0 <= firstPage * g.pageSize + within <= g.usableCapacityBytes <= U64_MAX
  {
    assert (firstPage + pageCount) * g.pageSize == firstPage * g.pageSize + pageCount * g.pageSize;
    assert (firstPage + pageCount) * g.pageSize <= g.pageCount * g.pageSize;
  }

  // ----- PagesForBytes ---------------------------------------------------------------------------

  /** 64-bit wrap-around addition and subtraction. */
  function WrapAdd(a: u64, b: u64): u64 {
    (a + b) % TWO_TO_64
  }

  function WrapSub(a: u64, b: u64): u64 {
    (a - b) % TWO_TO_64
  }

  /** value + page - 1 is evaluated left to right, and value + page may wrap to zero. */
  function PagesForBytes(pageSize: u64, value: u64): (r: Result<u64, GeometryError>)
    requires 0 < pageSize
  {
    if value > U64_MAX - (pageSize - 1) then Err(Overflow)
    else Ok(QuotientIsWord(WrapSub(WrapAdd(value, pageSize), 1), pageSize))
  }

  function QuotientIsWord(a: u64, b: u64): u64
    requires 0 < b
  {
    DivisionFacts(a, b);
    a / b
  }

  /** The result is the ceiling of value / pageSize although the intermediate sum can wrap. */
  lemma PagesForBytesIsCeiling(pageSize: u64, value: u64)
    requires 0 < pageSize
    ensures PagesForBytes(pageSize, value).Ok? <==> value + pageSize - 1 <= U64_MAX
    ensures PagesForBytes(pageSize, value).Ok? ==>
              var n := PagesForBytes(pageSize, value).value;
              n * pageSize - pageSize < value <= n * pageSize
  {
    if value + pageSize - 1 <= U64_MAX {
      assert WrapSub(WrapAdd(value, pageSize), 1) == value + pageSize - 1;
      DivisionFacts(value + pageSize - 1, pageSize);
    }
  }
}
