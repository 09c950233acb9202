/**
 * Address arithmetic: where segments, page headers and blocks lie, and how `free` finds its way back
 * from a block pointer to the header of the page that owns it.
 */
module Layout {
  import opened MachineWord
  import opened WordBits

  const INTPTR_SIZE: nat := 8
  const SLICE_SIZE: nat := 65536
  const SEGMENT_SIZE: nat := 33554432
  const SLICES_PER_SEGMENT: nat := 512
  const SIZEOF_SEGMENT_HEADER: nat := 264
  const SIZEOF_PAGE_HEADER: nat := 80
  const MAX_ALIGN_GUARANTEE: nat := 128
  const SEGMENT_MASK: bv64 := 0x1FF_FFFF

  // ---- Where things are ----

  function SegmentStart(seg: nat): nat { seg * SEGMENT_SIZE }

  function PageHeaderStart(seg: nat, idx: nat): nat {
    SegmentStart(seg) + SIZEOF_SEGMENT_HEADER + idx * SIZEOF_PAGE_HEADER
  }

  function StartOffset(bsize: nat): nat {
    if INTPTR_SIZE <= bsize <= 1024 then 3 * MAX_ALIGN_GUARANTEE else 0
  }

  /** The address of block `i` of the page that starts at slice `page`. */
  function BlockStartAt(seg: nat, page: nat, bsize: nat, i: nat): nat {
    SegmentStart(seg) + SLICE_SIZE * page + StartOffset(bsize) + i * bsize
  }

  /** The slice in which block `i` of the page starts. */
  function SliceIdx(page: nat, bsize: nat, i: nat): nat {
    page + (StartOffset(bsize) + i * bsize) / SLICE_SIZE
  }

  /** What the header of slice `slice` stores about the page it belongs to. */
  function StoredOffset(page: nat, slice: nat): nat
    requires page <= slice
  {
    (slice - page) * SIZEOF_PAGE_HEADER
  }

  /** A block pointer lies above the start of its segment and up to and including its end. */
  predicate InSegment(seg: nat, a: nat) {
    SegmentStart(seg) < a <= SegmentStart(seg) + SEGMENT_SIZE
  }

  // ---- The calculations of `free` ----

  function SegmentPtrFromBlock(ptr: bv64): bv64 { (ptr - 1) & !SEGMENT_MASK }

  function SlicePagePtrFromBlock(block: nat, segment: nat): nat
    requires segment <= block
  {
    segment + SIZEOF_SEGMENT_HEADER + (block - segment) / SLICE_SIZE * SIZEOF_PAGE_HEADER
  }

  function PagePtrSubtractOffset(page: nat, offset: nat): int { page - offset }

  lemma SegmentMask()
    ensures IsMask(SEGMENT_MASK, 25) && Pow2(25) == SEGMENT_SIZE
  {
    EightMore(0xFF, 0);
    EightMore(0xFFFF, 8);
    EightMore(0xFF_FFFF, 16);
    assert Half(SEGMENT_MASK) == 0xFF_FFFF && Bit0(SEGMENT_MASK) == 1;
    PowersOfTwo();
  }

  lemma PowersOfTwo()
    ensures Pow2(25) == SEGMENT_SIZE && Pow2(16) == SLICE_SIZE
  {
    assert Pow2(8) == 256;
    assert Pow2(16) == 65536;
    assert Pow2(24) == 16777216;
  }

  /** Rounding `a - 1` down to a segment boundary gives the segment whose half-open range, open at its
      start and closed at its end, holds `a`. */
  lemma RoundDownSegment(a: nat, seg: nat)
    requires a > 0
    ensures (a - 1) - (a - 1) % SEGMENT_SIZE == SegmentStart(seg) <==> InSegment(seg, a)
  {
    var x := a - 1;
    var q, r := x / SEGMENT_SIZE, x % SEGMENT_SIZE;
    assert x == SEGMENT_SIZE * q + r;
    if InSegment(seg, a) {
      Remainder(x, SEGMENT_SIZE, seg, x - SegmentStart(seg));
    }
  }

  /** The mask-down of `ptr - 1` finds a segment exactly when the pointer is in that segment's range. */
  lemma SegmentPtrIs(ptr: bv64, seg: nat)
    requires ptr != 0
    ensures Val(SegmentPtrFromBlock(ptr)) == SegmentStart(seg) <==> InSegment(seg, Val(ptr))
  {
    ZeroVal(ptr);
    ValDecrement(ptr);
    SegmentMask();
    ValClear(ptr - 1, SEGMENT_MASK, 25);
    RoundDownSegment(Val(ptr), seg);
  }

  /** Dividing the distance from the segment start by the slice size finds the slice. */
  lemma SlicePagePtrIs(seg: nat, page: nat, bsize: nat, i: nat)
    ensures SlicePagePtrFromBlock(BlockStartAt(seg, page, bsize, i), SegmentStart(seg))
            == PageHeaderStart(seg, SliceIdx(page, bsize, i))
  {
    var x := StartOffset(bsize) + i * bsize;
    SliceDivision(page, x);
  }

  lemma SliceDivision(page: nat, x: nat)
    ensures (SLICE_SIZE * page + x) / SLICE_SIZE == page + x / SLICE_SIZE
  {
    var q, r := x / SLICE_SIZE, x % SLICE_SIZE;
    Remainder(SLICE_SIZE * page + x, SLICE_SIZE, page + q, r);
  }

  lemma SubtractOffsetIs(seg: nat, page: nat, slice: nat)
    requires page <= slice
    ensures PagePtrSubtractOffset(PageHeaderStart(seg, slice), StoredOffset(page, slice)) == PageHeaderStart(seg, page)
  {
  }

  /** Pointer recovery.  From the pointer to any block of any page, including one that starts exactly at
      the end of the segment, `free` computes the block's own segment, the header of the slice the block
      starts in, and, with the offset stored there, the header of the page that owns it. */
  lemma PointerRecovery(seg: nat, page: nat, bsize: nat, i: nat, ptr: bv64)
    requires Val(ptr) == BlockStartAt(seg, page, bsize, i) && InSegment(seg, Val(ptr))
    ensures var segment := Val(SegmentPtrFromBlock(ptr));
            var slice := SliceIdx(page, bsize, i);
            && segment == SegmentStart(seg) && segment <= Val(ptr)
            && SlicePagePtrFromBlock(Val(ptr), segment) == PageHeaderStart(seg, slice)
            && PagePtrSubtractOffset(SlicePagePtrFromBlock(Val(ptr), segment), StoredOffset(page, slice))
               == PageHeaderStart(seg, page)
  {
    ZeroVal(ptr);
    SegmentPtrIs(ptr, seg);
    SlicePagePtrIs(seg, page, bsize, i);
    SubtractOffsetIs(seg, page, SliceIdx(page, bsize, i));
  }

  /** The slice found is one the segment has a header for: index 512, the one past the last slice, only
      for a block at the very end. */
  lemma SliceInSegment(seg: nat, page: nat, bsize: nat, i: nat)
    requires InSegment(seg, BlockStartAt(seg, page, bsize, i))
    ensures SliceIdx(page, bsize, i) <= SLICES_PER_SEGMENT
    ensures SliceIdx(page, bsize, i) == SLICES_PER_SEGMENT <==>
              BlockStartAt(seg, page, bsize, i) == SegmentStart(seg) + SEGMENT_SIZE
  {
    SliceDivision(page, StartOffset(bsize) + i * bsize);
  }

  /** Headers of different slices, of the same or of different segments, are different addresses, so the
      page that recovery finds is the only one it could have found. */
  lemma HeadersDistinct(seg: nat, idx: nat, seg': nat, idx': nat)
    requires idx <= SLICES_PER_SEGMENT && idx' <= SLICES_PER_SEGMENT
    requires PageHeaderStart(seg, idx) == PageHeaderStart(seg', idx')
    ensures seg == seg' && idx == idx'
  {
    Remainder(PageHeaderStart(seg, idx), SEGMENT_SIZE, seg, SIZEOF_SEGMENT_HEADER + idx * SIZEOF_PAGE_HEADER);
    Remainder(PageHeaderStart(seg', idx'), SEGMENT_SIZE, seg', SIZEOF_SEGMENT_HEADER + idx' * SIZEOF_PAGE_HEADER);
  }

  // ---- Back from a page header to its first block ----

  function SegmentPageStartFromSlice(segment: nat, slice: nat, xblockSize: nat): nat
    requires segment + SIZEOF_SEGMENT_HEADER <= slice
  {
    var idx := (slice - (segment + SIZEOF_SEGMENT_HEADER)) / SIZEOF_PAGE_HEADER;
    segment + idx * SLICE_SIZE + (if INTPTR_SIZE <= xblockSize <= 1024 then 3 * MAX_ALIGN_GUARANTEE else 0)
  }

  lemma PageStartIs(seg: nat, page: nat, bsize: nat)
    ensures SegmentPageStartFromSlice(SegmentStart(seg), PageHeaderStart(seg, page), bsize)
            == BlockStartAt(seg, page, bsize, 0)
  {
    Remainder(page * SIZEOF_PAGE_HEADER, SIZEOF_PAGE_HEADER, page, 0);
  }

  // ---- Alignment ----

  function AlignDown(x: nat, y: nat): (r: nat)
    requires y > 0
    ensures r <= x < r + y && r % y == 0
  {
    RoundDown(x, y);
    x / y * y
  }

  function AlignUp(x: nat, y: nat): (r: nat)
    requires y > 0
    ensures x <= r < x + y && r % y == 0
  {
    RoundDown(x + y - 1, y);
    (x + y - 1) / y * y
  }

  lemma RoundDown(x: nat, y: nat)
    requires y > 0
    ensures x / y * y == x - x % y && (x / y * y) % y == 0
  {
    assert x == y * (x / y) + x % y;
    Remainder(x / y * y, y, x / y, 0);
  }

  /** A multiple of `y` is at most `AlignDown(x, y)` exactly when it is at most `x`, and at least
      `AlignUp(x, y)` exactly when it is at least `x`: both roundings are the best possible. */
  lemma AlignOptimal(x: nat, y: nat, k: nat)
    requires y > 0
    ensures k * y <= AlignDown(x, y) <==> k * y <= x
    ensures AlignUp(x, y) <= k * y <==> x <= k * y
  {
    BestDown(x, y, x / y, k);
    BestUp(x, y, (x + y - 1) / y, k);
  }

  lemma BestDown(x: nat, y: nat, d: nat, k: nat)
    requires d * y <= x < d * y + y
    ensures k * y <= d * y <==> k * y <= x
  {
    Steps(k, d, y);
  }

  lemma BestUp(x: nat, y: nat, u: nat, k: nat)
    requires x <= u * y < x + y
    ensures u * y <= k * y <==> x <= k * y
  {
    Steps(u, k, y);
  }

  lemma Steps(k: nat, d: nat, y: nat)
    requires y > 0
    ensures k <= d ==> k * y <= d * y
    ensures k > d ==> k * y >= d * y + y
  {
    if k <= d {
      assert (d - k) * y >= 0;
    } else {
      assert (k - d - 1) * y >= 0;
    }
  }

  // The same on machine words, as the program computes it.

  /** What both roundings end with: a power of two is recognised by `y & (y - 1)` and handled by masking,
      any other `y` by division. */
  ghost function RoundWord(x: bv64, y: bv64): bv64
    requires Val(y) > 0
  {
    var mask := y - 1;
    QuotientFits(x, y);
    if y & mask == 0 then x & !mask else Times(DividedBy(x, y), y)
  }

  ghost function AlignDownWord(x: bv64, y: bv64): bv64
    requires Val(y) > 0
  {
    RoundWord(x, y)
  }

  ghost function AlignUpWord(x: bv64, y: bv64): bv64
    requires Val(y) > 0 && Val(x) + Val(y - 1) < Pow2(64)
  {
    RoundWord(Plus(x, y - 1), y)
  }

  /** For a power of two, masking is the same as rounding down by division. */
  lemma MaskedIsRounded(x: bv64, y: bv64)
    requires Val(y) > 0 && y & (y - 1) == 0
    ensures Val(x & !(y - 1)) == AlignDown(Val(x), Val(y))
  {
    ZeroVal(y);
    PowerOfTwoTest(y);
    var k: nat :| IsPower(y, k);
    ValClear(x, y - 1, k);
    RoundDown(Val(x), Val(y));
  }

  /** Rounding down on machine words, in both branches. */
  lemma AlignDownWordIs(x: bv64, y: bv64)
    requires Val(y) > 0
    ensures Val(AlignDownWord(x, y)) == AlignDown(Val(x), Val(y))
  {
    QuotientFits(x, y);
    if y & (y - 1) == 0 {
      MaskedIsRounded(x, y);
    }
  }

  /** Rounding up on machine words, in both branches, whenever the sum does not overflow. */
  lemma AlignUpWordIs(x: bv64, y: bv64)
    requires Val(y) > 0 && Val(x) + Val(y) - 1 < Pow2(64)
    ensures Val(y - 1) == Val(y) - 1 && Val(AlignUpWord(x, y)) == AlignUp(Val(x), Val(y))
  {
    ZeroVal(y);
    ValDecrement(y);
    AlignDownWordIs(Plus(x, y - 1), y);
  }
}
