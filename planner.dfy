/**
 * The chunk planner of `extractLogsForDate`: the file of `fileSize` bytes is cut
 * into `ceil(fileSize / chunkSize)` consecutive half-open ranges
 * [chunkStart, chunkEnd), each at most `chunkSize` long.
 */
module Planner {

  /** The chunk size the extractor is configured with: 10 MiB. */
  const ChunkSize: nat := 10 * 1024 * 1024

  /** A half-open range [start, end) of file offsets. */
  datatype ByteRange = ByteRange(start: nat, end: nat)
  {
    function Length(): int { end - start }
    predicate Contains(offset: nat) { start <= offset < end }
  }

  function Min(a: nat, b: nat): nat { if a <= b then a else b }

  /** `Math.ceil(fileSize / chunkSize)` on exact integers. */
  function CeilDiv(fileSize: nat, chunkSize: nat): nat
    requires chunkSize > 0
  {
    (fileSize + chunkSize - 1) / chunkSize
  }

  /** The offset k whole chunks into the file, built up one chunk at a time. */
  function ChunkOffset(chunkSize: nat, k: nat): nat
  {
    if k == 0 then 0 else ChunkOffset(chunkSize, k - 1) + chunkSize
  }

  /** k whole chunks span k * chunkSize offsets. */
  lemma {:induction false} ChunkOffsetIsProduct(chunkSize: nat, k: nat)
    ensures ChunkOffset(chunkSize, k) == k * chunkSize
  {
    if k > 0 {
      ChunkOffsetIsProduct(chunkSize, k - 1);
      assert (k - 1) * chunkSize + chunkSize == k * chunkSize;
    }
  }

  /** More chunks reach at least as far. */
  lemma {:induction false} ChunkOffsetMono(chunkSize: nat, a: nat, b: nat)
    requires a <= b
    ensures ChunkOffset(chunkSize, a) <= ChunkOffset(chunkSize, b)
  {
    if a < b {
      ChunkOffsetMono(chunkSize, a, b - 1);
    }
  }

  /**
   * `CeilDiv` is the ceiling of the quotient: that many chunks reach `fileSize`,
   * and one fewer do not.
   */
  lemma CeilDivIsCeiling(fileSize: nat, chunkSize: nat)
    requires chunkSize > 0
    ensures ChunkOffset(chunkSize, CeilDiv(fileSize, chunkSize)) >= fileSize
    ensures CeilDiv(fileSize, chunkSize) == 0 || ChunkOffset(chunkSize, CeilDiv(fileSize, chunkSize) - 1) < fileSize
  {
    var n := CeilDiv(fileSize, chunkSize);
    var r := (fileSize + chunkSize - 1) % chunkSize;
    assert n * chunkSize + r == fileSize + chunkSize - 1 && r < chunkSize;
    ChunkOffsetIsProduct(chunkSize, n);
    if n > 0 {
      ChunkOffsetIsProduct(chunkSize, n - 1);
      assert (n - 1) * chunkSize + chunkSize == n * chunkSize;
    }
  }

  /** An empty file needs no chunk; a non-empty file no longer than one chunk needs exactly one. */
  lemma CeilDivSmall(fileSize: nat, chunkSize: nat)
    requires chunkSize > 0 && fileSize <= chunkSize
    ensures CeilDiv(fileSize, chunkSize) == if fileSize == 0 then 0 else 1
  {
    CeilDivIsCeiling(fileSize, chunkSize);
  }

  /** The k-th planned range, in closed form. */
  function NthRange(fileSize: nat, chunkSize: nat, k: nat): ByteRange
  {
    var start := ChunkOffset(chunkSize, k);
    ByteRange(Min(start, fileSize), Min(start + chunkSize, fileSize))
  }

  /** The planned ranges in order: the specification of the planning loop. */
  function Plan(fileSize: nat, chunkSize: nat): seq<ByteRange>
    requires chunkSize > 0
  {
    var n := CeilDiv(fileSize, chunkSize);
    seq(n, k requires 0 <= k < n => NthRange(fileSize, chunkSize, k))
  }

  /** The ranges are contiguous and cover [0, fileSize) from its first offset to its last. */
  predicate Tiles(ranges: seq<ByteRange>, fileSize: nat)
  {
    (|ranges| == 0 <==> fileSize == 0) &&
    (|ranges| > 0 ==> ranges[0].start == 0 && ranges[|ranges| - 1].end == fileSize) &&
    (forall k :: 0 <= k < |ranges| - 1 ==> ranges[k].end == ranges[k + 1].start)
  }

  /** Every planned chunk starts inside the file. */
  lemma StartInside(fileSize: nat, chunkSize: nat, k: nat)
    requires chunkSize > 0 && k < CeilDiv(fileSize, chunkSize)
    ensures ChunkOffset(chunkSize, k) < fileSize
  {
    CeilDivIsCeiling(fileSize, chunkSize);
    ChunkOffsetMono(chunkSize, k, CeilDiv(fileSize, chunkSize) - 1);
  }

  /**
   * The k-th planned range starts k chunks in, is non-empty and at most
   * `chunkSize` long, is full and ends where the next one starts unless it is
   * the last, and the last ends at `fileSize`.
   */
  lemma NthRangeShape(fileSize: nat, chunkSize: nat, k: nat)
    requires chunkSize > 0 && k < CeilDiv(fileSize, chunkSize)
    ensures NthRange(fileSize, chunkSize, k).start == ChunkOffset(chunkSize, k)
    ensures 0 < NthRange(fileSize, chunkSize, k).Length() <= chunkSize
    ensures k + 1 < CeilDiv(fileSize, chunkSize) ==>
              NthRange(fileSize, chunkSize, k).Length() == chunkSize &&
              NthRange(fileSize, chunkSize, k).end == NthRange(fileSize, chunkSize, k + 1).start
    ensures k + 1 == CeilDiv(fileSize, chunkSize) ==> NthRange(fileSize, chunkSize, k).end == fileSize
  {
    StartInside(fileSize, chunkSize, k);
    if k + 1 < CeilDiv(fileSize, chunkSize) {
      StartInside(fileSize, chunkSize, k + 1);
    } else {
      CeilDivIsCeiling(fileSize, chunkSize);
    }
  }

  /**
   * Any list whose k-th element is the k-th planned range has the plan's shape:
   * contiguous ranges, each non-empty and at most `chunkSize` long, all full
   * but the last.
   */
  lemma RangesContiguous(ranges: seq<ByteRange>, fileSize: nat, chunkSize: nat)
    requires chunkSize > 0 && |ranges| == CeilDiv(fileSize, chunkSize)
    requires forall k :: 0 <= k < |ranges| ==> ranges[k] == NthRange(fileSize, chunkSize, k)
    ensures forall k :: 0 <= k < |ranges| ==> 0 < ranges[k].Length() <= chunkSize
    ensures forall k :: 0 <= k < |ranges| - 1 ==>
              ranges[k].Length() == chunkSize && ranges[k].end == ranges[k + 1].start
  {
    forall k | 0 <= k < |ranges|
      ensures 0 < ranges[k].Length() <= chunkSize
    {
      NthRangeShape(fileSize, chunkSize, k);
    }
    forall k | 0 <= k < |ranges| - 1
      ensures ranges[k].Length() == chunkSize && ranges[k].end == ranges[k + 1].start
    {
      NthRangeShape(fileSize, chunkSize, k);
    }
  }

  /** The plan's first range starts at 0 and its last ends at `fileSize`; an empty file has none. */
  lemma PlanEnds(fileSize: nat, chunkSize: nat)
    requires chunkSize > 0
    ensures |Plan(fileSize, chunkSize)| == 0 <==> fileSize == 0
    ensures |Plan(fileSize, chunkSize)| > 0 ==>
              Plan(fileSize, chunkSize)[0].start == 0 &&
              Plan(fileSize, chunkSize)[|Plan(fileSize, chunkSize)| - 1].end == fileSize
  {
    var n := CeilDiv(fileSize, chunkSize);
    if fileSize == 0 {
      CeilDivSmall(0, chunkSize);
    } else {
      CeilDivIsCeiling(fileSize, chunkSize);
      NthRangeShape(fileSize, chunkSize, 0);
      NthRangeShape(fileSize, chunkSize, n - 1);
    }
  }

  /**
   * The plan tiles the file, every range is non-empty and at most `chunkSize`
   * long, and only the last may be shorter than `chunkSize`.
   */
  lemma PlanShape(fileSize: nat, chunkSize: nat)
    requires chunkSize > 0
    ensures Tiles(Plan(fileSize, chunkSize), fileSize)
    ensures forall k :: 0 <= k < |Plan(fileSize, chunkSize)| ==>
              0 < Plan(fileSize, chunkSize)[k].Length() <= chunkSize
    ensures forall k :: 0 <= k < |Plan(fileSize, chunkSize)| - 1 ==>
              Plan(fileSize, chunkSize)[k].Length() == chunkSize
  {
    RangesContiguous(Plan(fileSize, chunkSize), fileSize, chunkSize);
    PlanEnds(fileSize, chunkSize);
  }

  /**
   * The planning loop: `chunkEnd = min(chunkStart + chunkSize, fileSize)` and
   * `chunkStart` advances to `chunkEnd`, `ceil(fileSize / chunkSize)` times.
   */
  method PlanChunks(fileSize: nat, chunkSize: nat) returns (ranges: seq<ByteRange>)
    requires chunkSize > 0
    ensures ranges == Plan(fileSize, chunkSize)
    ensures |ranges| == CeilDiv(fileSize, chunkSize)
    ensures Tiles(ranges, fileSize)
    ensures forall k :: 0 <= k < |ranges| ==> 0 < ranges[k].Length() <= chunkSize
    ensures forall k :: 0 <= k < |ranges| - 1 ==> ranges[k].Length() == chunkSize
  {
    var chunkCount := CeilDiv(fileSize, chunkSize);
    ranges := [];
    var chunkStart: nat := 0;
    for i := 0 to chunkCount
      invariant |ranges| == i
      invariant i < chunkCount ==> chunkStart == ChunkOffset(chunkSize, i)
      invariant forall k :: 0 <= k < i ==> ranges[k] == NthRange(fileSize, chunkSize, k)
    {
      var chunkEnd := Min(chunkStart + chunkSize, fileSize);
      assert ByteRange(chunkStart, chunkEnd) == NthRange(fileSize, chunkSize, i) by {
        StartInside(fileSize, chunkSize, i);
      }
      ranges := ranges + [ByteRange(chunkStart, chunkEnd)];
      if i + 1 < chunkCount {
        assert chunkEnd == ChunkOffset(chunkSize, i + 1) by {
          StartInside(fileSize, chunkSize, i + 1);
        }
      }
      chunkStart := chunkEnd;
    }
    RangesContiguous(ranges, fileSize, chunkSize);
    PlanEnds(fileSize, chunkSize);
  }

  /**
   * Every offset of the file lies in exactly one planned range, the one at
   * position `offset / chunkSize`, and no offset past the end lies in any.
   */
  lemma CoveredExactlyOnce(fileSize: nat, chunkSize: nat, k: nat, offset: nat)
    requires chunkSize > 0
    ensures NthRange(fileSize, chunkSize, k).Contains(offset) <==> offset < fileSize && k == offset / chunkSize
  {
    var q, r := offset / chunkSize, offset % chunkSize;
    assert offset == q * chunkSize + r && r < chunkSize;
    ChunkOffsetIsProduct(chunkSize, q);
    if k < q {
      ChunkOffsetMono(chunkSize, k + 1, q);
    } else if q < k {
      ChunkOffsetMono(chunkSize, q + 1, k);
    }
  }

  /** Adding whole chunks does not change the remainder. */
  lemma ModAfterChunks(m: nat, chunkSize: nat, len: nat)
    requires chunkSize > 0 && len < chunkSize
    ensures (ChunkOffset(chunkSize, m) + len) % chunkSize == len
  {
    var x := ChunkOffset(chunkSize, m) + len;
    var q, r := x / chunkSize, x % chunkSize;
    assert x == q * chunkSize + r && r < chunkSize;
    ChunkOffsetIsProduct(chunkSize, q);
    if q < m {
      ChunkOffsetMono(chunkSize, q + 1, m);
    } else if q > m {
      ChunkOffsetMono(chunkSize, m + 1, q);
    }
  }

  /**
   * Only the last range can be short; its length is `fileSize % chunkSize`, or a
   * full `chunkSize` when that remainder is zero.
   */
  lemma LastRangeLength(fileSize: nat, chunkSize: nat)
    requires chunkSize > 0 && fileSize > 0
    ensures CeilDiv(fileSize, chunkSize) > 0
    ensures var last := NthRange(fileSize, chunkSize, CeilDiv(fileSize, chunkSize) - 1);
            last.Length() == if fileSize % chunkSize == 0 then chunkSize else fileSize % chunkSize
  {
    CeilDivIsCeiling(fileSize, chunkSize);
    var n := CeilDiv(fileSize, chunkSize);
    NthRangeShape(fileSize, chunkSize, n - 1);
    var len := NthRange(fileSize, chunkSize, n - 1).Length();
    assert fileSize == ChunkOffset(chunkSize, n - 1) + len;
    if len == chunkSize {
      assert fileSize == ChunkOffset(chunkSize, n) + 0;
      ModAfterChunks(n, chunkSize, 0);
    } else {
      ModAfterChunks(n - 1, chunkSize, len);
    }
  }
}
