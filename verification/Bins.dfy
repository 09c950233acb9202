/**
 * Size classes: the logarithmic bin functions for blocks and for slices, by arithmetic on the
 * leading-bit formula.
 */
module Bins {
  import opened MachineWord

  const BIN_HUGE: nat := 73
  const MAX_WORDS: nat := 524288
  const SEGMENT_BIN_MAX: nat := 31
  const SLICES: nat := 512
  const WORD_BYTES: nat := 8
  const SMALL_SIZE_MAX: nat := 1024
  const PAGES_DIRECT: nat := 129

  function LeadingZeros(w: nat): int {
    if w == 0 then 64 else LeadingZeros(w / 2) - 1
  }

  /** The position of the leading bit of a 64-bit word. */
  function LeadingBit(w: nat): int { 63 - LeadingZeros(w) }

  // ---- The functions of the program ----

  function WordSize(size: nat): nat { (size + WORD_BYTES - 1) / WORD_BYTES }

  /** Four times the leading bit position, plus the two bits that follow the leading bit. */
  function Class(w: nat): int
    requires w >= 4
  {
    LeadingBitBounds(w);
    var b := LeadingBit(w);
    4 * b + (w / Pow2(b - 2)) % 4
  }

  function Bin(size: nat): int {
    var wsize := WordSize(size);
    if wsize <= 1 then 1
    else if wsize <= 8 then wsize
    else if wsize > MAX_WORDS then BIN_HUGE
    else Class(wsize - 1) - 3
  }

  function SizeOfBin(j: nat): nat
    requires 1 <= j <= BIN_HUGE
  {
    if j <= 8 then WORD_BYTES * j
    else if j == BIN_HUGE then WORD_BYTES * (MAX_WORDS + 1)
    else WORD_BYTES * ((j - 9) % 4 + 5) * Pow2((j - 9) / 4 + 1)
  }

  function PfdLower(j: nat): nat
    requires 1 <= j <= BIN_HUGE
  {
    if j == 1 then 0 else SizeOfBin(j - 1) / WORD_BYTES + 1
  }

  function PfdUpper(j: nat): nat
    requires 1 <= j <= BIN_HUGE
  {
    SizeOfBin(j) / WORD_BYTES
  }

  function SliceBin(n: nat): int {
    if n <= 8 then n else Class(n - 1) - 4
  }

  function SizeOfSliceBin(s: nat): nat
    requires s <= SEGMENT_BIN_MAX
  {
    if s <= 7 then s
    else if s == 8 then 10
    else ((s - 8) % 4 + 5) * Pow2((s - 8) / 4 + 1)
  }

  // ---- The leading bit ----

  lemma {:induction false} LeadingBitBounds(w: nat)
    requires w >= 1
    ensures LeadingBit(w) >= 0 && Pow2(LeadingBit(w)) <= w < 2 * Pow2(LeadingBit(w))
    ensures w >= 4 ==> LeadingBit(w) >= 2
  {
    if w == 1 {
      assert LeadingZeros(1) == 63;
    } else {
      LeadingBitBounds(w / 2);
      assert LeadingBit(w) == LeadingBit(w / 2) + 1;
      if 4 <= w < 8 { LeadingBitBounds(w / 2); }
    }
  }

  lemma {:induction false} Pow2Grows(i: nat, j: nat)
    requires i < j
    ensures 0 < 2 * Pow2(i) <= Pow2(j)
    decreases j
  {
    if i + 1 < j { Pow2Grows(i, j - 1); } else { Pow2Positive(i); }
  }

  /** `w` in terms of its class: between `q` and `q + 1` quarters of its leading power of two. */
  lemma ClassParts(w: nat, b: nat, q: nat, u: nat)
    requires w >= 4 && b == LeadingBit(w) && b >= 2 && u == Pow2(b - 2) && u > 0 && q == w / u
    ensures 4 <= q < 8 && q * u <= w < q * u + u && Class(w) == 4 * b + (q - 4)
  {
    LeadingBitBounds(w);
    assert Pow2(b) == 2 * Pow2(b - 1) && Pow2(b - 1) == 2 * u;
    Quotient(w, u, q);
  }

  lemma Quotient(w: nat, u: nat, q: nat)
    requires u > 0 && q == w / u && 4 * u <= w < 8 * u
    ensures 4 <= q < 8 && q * u <= w < q * u + u
  {
    assert w == u * q + w % u;
    if q < 4 { MultipleAtLeast(u, 4 - q); }
    if q >= 8 { MultipleAtLeast(u, q - 7); }
  }

  /** The number just above the largest member of a class. */
  function ClassBound(c: nat): nat
    requires c >= 8
  {
    (c % 4 + 5) * Pow2(c / 4 - 2)
  }

  /** Membership in classes is a threshold. */
  lemma ClassGalois(w: nat, c: nat)
    requires w >= 4 && c >= 8
    ensures Class(w) <= c <==> w < ClassBound(c)
  {
    LeadingBitBounds(w);
    var b := LeadingBit(w);
    var u := Pow2(b - 2);
    Pow2Positive(b - 2);
    var q := w / u;
    ClassParts(w, b, q, u);
    var b', q' := c / 4, c % 4 + 4;
    var u' := Pow2(b' - 2);
    if b < b' {
      Pow2Grows(b - 2, b' - 2);
      LowerLeadingBit(w, u, q, u', q');
    } else if b == b' {
      Thresholds(w, u, q, q');
    } else {
      Pow2Grows(b' - 2, b - 2);
      HigherLeadingBit(w, u, q, u', q');
    }
  }

  lemma LowerLeadingBit(w: nat, u: nat, q: nat, u': nat, q': nat)
    requires 2 * u <= u' && q < 8 && q' >= 4 && w < q * u + u
    ensures w < (q' + 1) * u'
  {
    assert q * u + u <= 8 * u by { MultipleAtLeast(u, 8 - q); }
    assert (q' + 1) * u' >= 4 * u' by { MultipleAtLeast(u', q' - 3); }
  }

  lemma HigherLeadingBit(w: nat, u: nat, q: nat, u': nat, q': nat)
    requires 2 * u' <= u && q >= 4 && q' < 8 && q * u <= w
    ensures w >= (q' + 1) * u'
  {
    assert q * u >= 4 * u by { if q > 4 { MultipleAtLeast(u, q - 4); } }
    assert (q' + 1) * u' <= 8 * u' by { if q' < 7 { MultipleAtLeast(u', 7 - q'); } }
  }

  lemma Thresholds(w: nat, u: nat, q: nat, q': nat)
    requires u > 0 && q * u <= w < q * u + u
    ensures q <= q' <==> w < (q' + 1) * u
  {
    assert (q' + 1) * u - q * u == u * (q' + 1 - q);
    MultipleAtLeast(u, q' + 1 - q);
    if q' + 1 - q >= 1 {
      assert w < (q' + 1) * u;
    } else {
      assert u * (q' + 1 - q) <= 0;
    }
  }

  // ---- Block bins ----

  lemma SizeIsBound(j: nat)
    requires 9 <= j < BIN_HUGE
    ensures SizeOfBin(j) == WORD_BYTES * ClassBound(j + 3)
  {
    assert (j + 3) / 4 - 2 == (j - 9) / 4 + 1 && (j + 3) % 4 == (j - 9) % 4;
  }

  lemma SmallBounds(j: nat)
    requires 9 <= j < BIN_HUGE
    ensures ClassBound(j + 3) >= 10
  {
    var k := (j + 3) / 4 - 2;
    if k > 1 { Pow2Grows(1, k); }
    MultipleAtLeast(Pow2(k), (j + 3) % 4 + 5);
    assert Pow2(1) == 2;
    assert ((j + 3) % 4 + 5) * Pow2(k) >= 5 * 2;
  }

  /** The same in words. */
  lemma WordGalois(wsize: nat, j: nat)
    requires wsize <= MAX_WORDS && 1 <= j < BIN_HUGE
    ensures Bin(WORD_BYTES * wsize) <= j <==> WORD_BYTES * wsize <= SizeOfBin(j)
  {
    assert WordSize(WORD_BYTES * wsize) == wsize;
    if j <= 8 {
      if wsize > 8 {
        SmallBounds(9);
        ClassGalois(wsize - 1, 11);
        assert ClassBound(11) == 8;
      }
    } else {
      SizeIsBound(j);
      SmallBounds(j);
      if wsize > 8 { ClassGalois(wsize - 1, j + 3); }
    }
  }

  /** A size and its rounding up to words have the same bin and fit the same bins. */
  lemma WordRounding(size: nat, j: nat)
    requires 1 <= j <= BIN_HUGE
    ensures Bin(size) == Bin(WORD_BYTES * WordSize(size))
    ensures size <= SizeOfBin(j) <==> WORD_BYTES * WordSize(size) <= SizeOfBin(j)
  {
    RoundedWords(size);
    SizeInWords(j);
    FitsInWords(size, SizeOfBin(j));
  }

  lemma RoundedWords(size: nat)
    ensures WordSize(WORD_BYTES * WordSize(size)) == WordSize(size)
  {
  }

  lemma FitsInWords(size: nat, room: nat)
    requires room % WORD_BYTES == 0
    ensures size <= room <==> WORD_BYTES * WordSize(size) <= room
  {
  }

  lemma SizeInWords(j: nat)
    requires 1 <= j <= BIN_HUGE
    ensures SizeOfBin(j) % WORD_BYTES == 0
  {
    if 9 <= j < BIN_HUGE {
      SizeIsBound(j);
      WholeWords(ClassBound(j + 3), SizeOfBin(j));
    }
  }

  lemma WholeWords(x: nat, y: nat)
    requires y == WORD_BYTES * x
    ensures y % WORD_BYTES == 0 && y / WORD_BYTES == x
  {
    Remainder(y, WORD_BYTES, x, 0);
  }

  /** Bins form a Galois connection: for every size that is not huge and every bin, the size's bin is at
      most that bin exactly when the size fits it. */
  lemma BinGalois(size: nat, j: nat)
    requires WordSize(size) <= MAX_WORDS && 1 <= j < BIN_HUGE
    ensures Bin(size) <= j <==> size <= SizeOfBin(j)
  {
    WordRounding(size, j);
    WordGalois(WordSize(size), j);
  }

  lemma LargestBin()
    ensures SizeOfBin(72) == WORD_BYTES * MAX_WORDS
  {
    assert Pow2(8) == 256;
    assert Pow2(16) == 65536;
  }

  /** Every size up to the largest class has a bin that holds it, and no smaller bin does; larger sizes have
      the huge bin. */
  lemma BinFits(size: nat)
    ensures 1 <= Bin(size) <= BIN_HUGE
    ensures Bin(size) == BIN_HUGE <==> WordSize(size) > MAX_WORDS
    ensures Bin(size) < BIN_HUGE ==> size <= SizeOfBin(Bin(size))
    ensures 1 < Bin(size) < BIN_HUGE ==> SizeOfBin(Bin(size) - 1) < size
  {
    if WordSize(size) <= MAX_WORDS {
      LargestBin();
      BinGalois(size, 72);
      if WordSize(size) > 8 {
        BinGalois(size, 8);
      }
      BinGalois(size, Bin(size));
      if Bin(size) > 1 { BinGalois(size, Bin(size) - 1); }
    }
  }

  /** A larger size never has a smaller bin. */
  lemma BinMonotone(size: nat, size': nat)
    requires size <= size'
    ensures Bin(size) <= Bin(size')
  {
    BinFits(size);
    BinFits(size');
    if Bin(size') < BIN_HUGE { BinGalois(size, Bin(size')); }
  }

  /** Sizes of bins grow strictly. */
  lemma {:induction false} SizesGrow(i: nat, j: nat)
    requires 1 <= i < j <= BIN_HUGE
    ensures SizeOfBin(i) < SizeOfBin(j)
    decreases j
  {
    SizeStep(j - 1);
    if i < j - 1 { SizesGrow(i, j - 1); }
  }

  lemma SizeStep(j: nat)
    requires 1 <= j < BIN_HUGE
    ensures SizeOfBin(j) < SizeOfBin(j + 1)
  {
    if j == 72 {
      LargestBin();
    } else if j == 8 {
      assert Pow2(1) == 2;
    } else if j > 8 {
      SizeIsBound(j);
      SizeIsBound(j + 1);
      BoundStep(j + 3);
    }
  }

  lemma BoundStep(c: nat)
    requires c >= 8
    ensures ClassBound(c) < ClassBound(c + 1)
  {
    var u := Pow2(c / 4 - 2);
    Pow2Positive(c / 4 - 2);
    if c % 4 == 3 {
      assert Pow2(c / 4 - 1) == 2 * u;
    }
  }

  /** Every bin is the bin of its own size. */
  lemma BinInvertsSize(j: nat)
    requires 1 <= j < BIN_HUGE
    ensures Bin(SizeOfBin(j)) == j
  {
    LargestBin();
    if j < 72 { SizesGrow(j, 72); }
    SizeInWords(j);
    BinGalois(SizeOfBin(j), j);
    BinFits(SizeOfBin(j));
    if j > 1 {
      SizesGrow(j - 1, j);
      BinGalois(SizeOfBin(j), j - 1);
    }
  }

  /** The word sizes of a bin are exactly those from `PfdLower` to `PfdUpper`. */
  lemma BinRange(j: nat, wsize: nat)
    requires 1 <= j < BIN_HUGE && wsize <= MAX_WORDS
    ensures Bin(WORD_BYTES * wsize) == j <==> PfdLower(j) <= wsize <= PfdUpper(j)
  {
    assert WordSize(WORD_BYTES * wsize) == wsize;
    BinFits(WORD_BYTES * wsize);
    SizeInWords(j);
    WordGalois(wsize, j);
    if j > 1 {
      SizeInWords(j - 1);
      WordGalois(wsize, j - 1);
    }
  }

  /** The upper bound given for the huge bin is nominal: the range is right exactly up to it. */
  lemma HugeBinRange(wsize: nat)
    ensures (Bin(WORD_BYTES * wsize) == BIN_HUGE <==> PfdLower(BIN_HUGE) <= wsize <= PfdUpper(BIN_HUGE))
            <==> wsize <= MAX_WORDS + 1
  {
    LargestBin();
    BinFits(WORD_BYTES * wsize);
    assert WordSize(WORD_BYTES * wsize) == wsize;
  }

  /** A block of more than 8 words is less than a quarter larger than the request in words. */
  lemma BinWaste(size: nat)
    requires 8 < WordSize(size) <= MAX_WORDS
    ensures 1 <= Bin(size) <= BIN_HUGE && 4 * SizeOfBin(Bin(size)) < 5 * (WORD_BYTES * WordSize(size))
  {
    var w := WordSize(size) - 1;
    BinFits(size);
    BinGalois(size, 8);
    SizeIsBound(Bin(size));
    assert Bin(size) + 3 == Class(w);
    ClassQuarter(w);
  }

  /** The bound of a class is at most a quarter above each of its members. */
  lemma ClassQuarter(w: nat)
    requires w >= 4
    ensures Class(w) >= 8 && 4 * ClassBound(Class(w)) <= 5 * w
  {
    LeadingBitBounds(w);
    var b := LeadingBit(w);
    var u := Pow2(b - 2);
    Pow2Positive(b - 2);
    ClassParts(w, b, w / u, u);
    BoundOfClass(b, w / u, u, Class(w));
    QuarterMore(w, u, w / u);
  }

  lemma BoundOfClass(b: nat, q: nat, u: nat, c: nat)
    requires b >= 2 && u == Pow2(b - 2) && 4 <= q < 8 && c == 4 * b + (q - 4)
    ensures ClassBound(c) == (q + 1) * u
  {
    assert c / 4 == b && c % 4 == q - 4;
  }

  lemma QuarterMore(w: nat, u: nat, q: nat)
    requires q >= 4 && q * u <= w
    ensures 4 * ((q + 1) * u) <= 5 * w
  {
    assert 5 * (q * u) - 4 * ((q + 1) * u) == u * (q - 4);
    if q > 4 { MultipleAtLeast(u, q - 4); }
  }

  // ---- The direct table ----

  /** The slot of the direct table for a small size is its word size, and a page whose bin covers that
      slot has blocks large enough. */
  lemma DirectIndex(size: nat, j: nat)
    requires size <= SMALL_SIZE_MAX && 1 <= j < BIN_HUGE
    ensures (size + 7) / 8 == WordSize(size) < PAGES_DIRECT
    ensures PfdLower(j) <= (size + 7) / 8 <= PfdUpper(j) <==> Bin(size) == j
    ensures PfdLower(j) <= (size + 7) / 8 <= PfdUpper(j) ==> size <= SizeOfBin(j)
  {
    BinRange(j, WordSize(size));
    WordRounding(size, j);
    BinGalois(size, j);
  }

  // ---- Slice bins ----

  lemma SliceSizeIsBound(s: nat)
    requires 8 <= s <= SEGMENT_BIN_MAX
    ensures SizeOfSliceBin(s) == ClassBound(s + 4)
  {
    assert (s + 4) / 4 - 2 == (s - 8) / 4 + 1 && (s + 4) % 4 == (s - 8) % 4;
    assert Pow2(1) == 2;
  }

  /** The same connection for slices. */
  lemma SliceBinGalois(n: nat, s: nat)
    requires s <= SEGMENT_BIN_MAX
    ensures SliceBin(n) <= s <==> n <= SizeOfSliceBin(s)
  {
    if s >= 8 {
      SliceSizeIsBound(s);
      SmallBounds(s + 1);
      if n > 8 { ClassGalois(n - 1, s + 4); }
    } else if n > 8 {
      ClassGalois(n - 1, 11);
      assert ClassBound(11) == 8;
    }
  }

  lemma LargestSliceBin()
    ensures SizeOfSliceBin(SEGMENT_BIN_MAX) == SLICES
  {
    assert Pow2(6) == 64;
  }

  /** Every slice count up to a whole segment has a bin that holds it, and no smaller bin does. */
  lemma SliceBinFits(n: nat)
    ensures 0 <= SliceBin(n)
    ensures SliceBin(n) <= SEGMENT_BIN_MAX <==> n <= SLICES
    ensures n <= SLICES ==> n <= SizeOfSliceBin(SliceBin(n))
    ensures n <= SLICES && SliceBin(n) > 0 ==> SizeOfSliceBin(SliceBin(n) - 1) < n
  {
    LargestSliceBin();
    SliceBinGalois(n, SEGMENT_BIN_MAX);
    if n > 8 { SliceBinGalois(n, 0); }
    if n <= SLICES {
      SliceBinGalois(n, SliceBin(n));
      if SliceBin(n) > 0 { SliceBinGalois(n, SliceBin(n) - 1); }
    }
  }

  lemma SliceBinMonotone(n: nat, n': nat)
    requires n <= n' <= SLICES
    ensures SliceBin(n) <= SliceBin(n')
  {
    SliceBinFits(n');
    SliceBinGalois(n, SliceBin(n'));
  }

  lemma SliceSizeStep(s: nat)
    requires s < SEGMENT_BIN_MAX
    ensures SizeOfSliceBin(s) < SizeOfSliceBin(s + 1)
  {
    if s >= 8 {
      SliceSizeIsBound(s);
      SliceSizeIsBound(s + 1);
      BoundStep(s + 4);
    }
  }

  lemma SliceBinInvertsSize(s: nat)
    requires s <= SEGMENT_BIN_MAX
    ensures SliceBin(SizeOfSliceBin(s)) == s
  {
    SliceBinGalois(SizeOfSliceBin(s), s);
    SliceBinFits(SizeOfSliceBin(s));
    if s > 0 {
      SliceSizeStep(s - 1);
      SliceBinGalois(SizeOfSliceBin(s), s - 1);
    }
  }
}
