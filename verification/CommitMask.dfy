/**
 * The commit mask: a bitmap of 512 bits in 8 words that stands for a set of chunk indices.
 */
module CommitMasks {
  import opened MachineWord
  import opened WordBits

  const BITS: nat := 512
  const FIELDS: nat := 8
  const WORD: nat := 64

  /** Chunk `k` is in the bitmap. */
  predicate Has(words: seq<bv64>, k: nat)
    requires |words| == FIELDS
  {
    k < BITS && Bit(words[k / WORD], k % WORD)
  }

  ghost function BitSet(words: seq<bv64>): set<nat>
    requires |words| == FIELDS
  {
    set k: nat | k < BITS && Has(words, k)
  }

  /** The chunk indices from `lo` up to `hi`. */
  ghost function Range(lo: nat, hi: nat): set<nat> {
    set k: nat | k < hi && Within(lo, hi, k)
  }

  ghost predicate Within(lo: nat, hi: nat, k: nat) { lo <= k < hi }

  // The operations on one word.

  function And(u: bv64, v: bv64): bv64 { u & v }
  function Or(u: bv64, v: bv64): bv64 { u | v }
  function Without(u: bv64, v: bv64): bv64 { u & !v }
  predicate Covers(u: bv64, v: bv64) { u & v == v }

  // ---- What the words of a bitmap say about the set ----

  lemma InWord(words: seq<bv64>, j: nat, b: nat)
    requires |words| == FIELDS && j < FIELDS && b < WORD
    ensures Has(words, j * WORD + b) <==> Bit(words[j], b)
  {
    assert (j * WORD + b) / WORD == j && (j * WORD + b) % WORD == b;
  }

  lemma UnionWords(a: seq<bv64>, b: seq<bv64>, r: seq<bv64>)
    requires |a| == |b| == |r| == FIELDS && forall j :: 0 <= j < FIELDS ==> r[j] == Or(a[j], b[j])
    ensures BitSet(r) == BitSet(a) + BitSet(b)
  {
    forall k: nat | k < BITS ensures Has(r, k) <==> Has(a, k) || Has(b, k) {
      BitOr(a[k / WORD], b[k / WORD], r[k / WORD], k % WORD);
    }
  }

  lemma DifferenceWords(a: seq<bv64>, b: seq<bv64>, r: seq<bv64>)
    requires |a| == |b| == |r| == FIELDS && forall j :: 0 <= j < FIELDS ==> r[j] == Without(a[j], b[j])
    ensures BitSet(r) == BitSet(a) - BitSet(b)
  {
    forall k: nat | k < BITS ensures Has(r, k) <==> Has(a, k) && !Has(b, k) {
      BitAndNot(a[k / WORD], b[k / WORD], r[k / WORD], k % WORD);
    }
  }

  lemma IntersectionWords(a: seq<bv64>, b: seq<bv64>, r: seq<bv64>)
    requires |a| == |b| == |r| == FIELDS && forall j :: 0 <= j < FIELDS ==> r[j] == And(a[j], b[j])
    ensures BitSet(r) == BitSet(a) * BitSet(b)
  {
    forall k: nat | k < BITS ensures Has(r, k) <==> Has(a, k) && Has(b, k) {
      BitAnd(a[k / WORD], b[k / WORD], r[k / WORD], k % WORD);
    }
  }

  lemma EmptyWords(a: seq<bv64>)
    requires |a| == FIELDS && forall j :: 0 <= j < FIELDS ==> a[j] == 0
    ensures BitSet(a) == {}
  {
    forall k: nat | k < BITS ensures !Has(a, k) { NoBits(k % WORD); }
  }

  lemma NonzeroWord(a: seq<bv64>, j: nat) returns (k: nat)
    requires |a| == FIELDS && j < FIELDS && a[j] != 0
    ensures k in BitSet(a) && k / WORD == j
  {
    ShrAll(a[j]);
    var b := FindBit(a[j], WORD);
    InWord(a, j, b);
    k := j * WORD + b;
  }

  lemma FullWords(a: seq<bv64>)
    requires |a| == FIELDS && forall j :: 0 <= j < FIELDS ==> a[j] == ONES
    ensures BitSet(a) == Range(0, BITS)
  {
    AllOnes();
    forall k: nat | k < BITS ensures Has(a, k) { MaskBit(ONES, WORD, k % WORD); }
  }

  lemma NotFullWord(a: seq<bv64>, j: nat)
    requires |a| == FIELDS && j < FIELDS && a[j] != ONES
    ensures BitSet(a) != Range(0, BITS)
  {
    if forall b :: 0 <= b < WORD ==> Bit(a[j], b) {
      AllOnes();
      forall b | 0 <= b < WORD ensures Bit(a[j], b) == Bit(ONES, b) { MaskBit(ONES, WORD, b); }
      SameBits(a[j], ONES);
    } else {
      var b :| 0 <= b < WORD && !Bit(a[j], b);
      InWord(a, j, b);
      assert j * WORD + b in Range(0, BITS);
    }
  }

  /** A bit of `other` that is missing in `a`, in word `j`. */
  lemma MissingBit(a: seq<bv64>, other: seq<bv64>, j: nat)
    requires |a| == |other| == FIELDS && j < FIELDS && !Covers(a[j], other[j])
    ensures !(BitSet(other) <= BitSet(a))
  {
    var b := NotCovered(a[j], other[j]);
    InWord(a, j, b);
    InWord(other, j, b);
    assert j * WORD + b in BitSet(other);
  }

  lemma NotCovered(u: bv64, v: bv64) returns (b: nat)
    requires !Covers(u, v)
    ensures b < WORD && Bit(v, b) && !Bit(u, b)
  {
    var r := v & !u;
    assert r != 0;
    ShrAll(r);
    b := FindBit(r, WORD);
    BitAndNot(v, u, r, b);
  }

  lemma SubsetWords(a: seq<bv64>, other: seq<bv64>)
    requires |a| == |other| == FIELDS && forall j :: 0 <= j < FIELDS ==> Covers(a[j], other[j])
    ensures BitSet(other) <= BitSet(a)
  {
    forall k: nat | k < BITS && Has(other, k) ensures Has(a, k) {
      BitAnd(a[k / WORD], other[k / WORD], other[k / WORD], k % WORD);
    }
  }

  /** Word `j` of the range `idx`, ..., `idx + count` has bits `lo` up to `hi`. */
  lemma RangeInWord(words: seq<bv64>, words': seq<bv64>, j: nat, ofs: nat, c: nat, start: nat)
    requires |words| == |words'| == FIELDS && j < FIELDS && ofs + c <= WORD
    requires words' == words[j := RangeWord(ofs, c)] && words[j] == 0
    requires start <= j * WORD + ofs && BitSet(words) == Range(start, j * WORD + ofs)
    requires start == j * WORD + ofs || ofs == 0
    ensures BitSet(words') == Range(start, j * WORD + ofs + c)
  {
    forall k: nat | k < BITS ensures Has(words', k) <==> start <= k < j * WORD + ofs + c {
      if k / WORD == j {
        RangeWordBit(ofs, c, k % WORD);
        assert k == j * WORD + k % WORD;
        NoBits(k % WORD);
      } else {
        assert Has(words', k) == Has(words, k);
        assert k in BitSet(words) <==> k in Range(start, j * WORD + ofs);
      }
    }
  }

  class CommitMask {
    const mask: array<bv64>

    ghost predicate Valid() { mask.Length == FIELDS }

    /** The set of chunks the mask stands for. */
    ghost function View(): set<nat>
      requires Valid()
      reads mask
    {
      BitSet(mask[..])
    }

    constructor ()
      ensures Valid() && fresh(mask) && View() == {}
    {
      mask := new bv64[FIELDS](_ => 0);
      new;
      EmptyWords(mask[..]);
    }

    method AllSet(other: CommitMask) returns (res: bool)
      requires Valid() && other.Valid()
      ensures res <==> other.View() <= View()
    {
      var i := 0;
      while i < FIELDS
        invariant i <= FIELDS
        invariant forall j :: 0 <= j < i ==> Covers(mask[j], other.mask[j])
      {
        if !Covers(mask[i], other.mask[i]) {
          MissingBit(mask[..], other.mask[..], i);
          return false;
        }
        i := i + 1;
      }
      SubsetWords(mask[..], other.mask[..]);
      return true;
    }

    method AnySet(other: CommitMask) returns (res: bool)
      requires Valid() && other.Valid()
      ensures res <==> View() * other.View() != {}
    {
      ghost var both := seq(FIELDS, j requires 0 <= j < FIELDS reads mask, other.mask => And(mask[j], other.mask[j]));
      IntersectionWords(mask[..], other.mask[..], both);
      var i := 0;
      while i < FIELDS
        invariant i <= FIELDS
        invariant forall j :: 0 <= j < i ==> both[j] == 0
      {
        if And(mask[i], other.mask[i]) != 0 {
          var _ := NonzeroWord(both, i);
          return true;
        }
        i := i + 1;
      }
      EmptyWords(both);
      return false;
    }

    /** Make `res` the intersection of this mask and `other`. */
    method CreateIntersect(other: CommitMask, res: CommitMask)
      requires Valid() && other.Valid() && res.Valid() && res.mask != mask && res.mask != other.mask
      modifies res.mask
      ensures res.View() == View() * other.View()
    {
      var i := 0;
      while i < FIELDS
        invariant i <= FIELDS
        invariant forall j :: 0 <= j < i ==> res.mask[j] == And(mask[j], other.mask[j])
      {
        res.mask[i] := And(mask[i], other.mask[i]);
        i := i + 1;
      }
      IntersectionWords(mask[..], other.mask[..], res.mask[..]);
    }

    method Clear(other: CommitMask)
      requires Valid() && other.Valid() && other.mask != mask
      modifies mask
      ensures View() == old(View()) - other.View()
    {
      ghost var was := mask[..];
      var i := 0;
      while i < FIELDS
        invariant i <= FIELDS
        invariant forall j :: 0 <= j < i ==> mask[j] == Without(was[j], other.mask[j])
        invariant forall j :: i <= j < FIELDS ==> mask[j] == was[j]
      {
        mask[i] := Without(mask[i], other.mask[i]);
        i := i + 1;
      }
      DifferenceWords(was, other.mask[..], mask[..]);
    }

    method Set(other: CommitMask)
      requires Valid() && other.Valid() && other.mask != mask
      modifies mask
      ensures View() == old(View()) + other.View()
    {
      ghost var was := mask[..];
      var i := 0;
      while i < FIELDS
        invariant i <= FIELDS
        invariant forall j :: 0 <= j < i ==> mask[j] == Or(was[j], other.mask[j])
        invariant forall j :: i <= j < FIELDS ==> mask[j] == was[j]
      {
        mask[i] := Or(mask[i], other.mask[i]);
        i := i + 1;
      }
      UnionWords(was, other.mask[..], mask[..]);
    }

    /** Fill an empty mask with `count` chunks from `idx`, across word boundaries. */
    method Create(idx: nat, count: nat)
      requires Valid() && (forall j :: 0 <= j < FIELDS ==> mask[j] == 0)
      requires count <= BITS && (count < BITS ==> idx + count <= BITS)
      modifies mask
      ensures count == BITS ==> View() == Range(0, BITS)
      ensures count < BITS ==> View() == Range(idx, idx + count)
    {
      EmptyWords(mask[..]);
      if count == BITS {
        CreateFull();
      } else if count == 0 {
        assert Range(idx, idx + count) == {};
      } else {
        var i := idx / WORD;
        var ofs := idx % WORD;
        var bitcount := count;
        assert Range(idx, idx) == {};
        while bitcount > 0
          invariant 0 <= bitcount <= count && 0 <= i
          invariant bitcount > 0 ==> i < FIELDS && 0 <= ofs < WORD && i * WORD + ofs == idx + (count - bitcount)
          invariant bitcount > 0 ==> (bitcount == count || ofs == 0)
          invariant View() == Range(idx, idx + (count - bitcount))
          invariant forall j :: i <= j < FIELDS ==> mask[j] == 0
        {
          var avail := WORD - ofs;
          var c := if bitcount > avail then avail else bitcount;
          ghost var was := mask[..];
          mask[i] := RangeWord(ofs, c);
          assert mask[..] == was[i := RangeWord(ofs, c)];
          RangeInWord(was, mask[..], i, ofs, c, idx);
          bitcount := bitcount - c;
          ofs := 0;
          i := i + 1;
        }
      }
    }

    method CreateEmpty()
      requires Valid()
      modifies mask
      ensures View() == {} && forall j :: 0 <= j < FIELDS ==> mask[j] == 0
    {
      var i := 0;
      while i < FIELDS
        invariant i <= FIELDS
        invariant forall j :: 0 <= j < i ==> mask[j] == 0
      {
        mask[i] := 0;
        i := i + 1;
      }
      EmptyWords(mask[..]);
    }

    method CreateFull()
      requires Valid()
      modifies mask
      ensures View() == Range(0, BITS)
    {
      var i := 0;
      while i < FIELDS
        invariant i <= FIELDS
        invariant forall j :: 0 <= j < i ==> mask[j] == ONES
      {
        mask[i] := ONES;
        i := i + 1;
      }
      FullWords(mask[..]);
    }

    method IsEmpty() returns (b: bool)
      requires Valid()
      ensures b <==> View() == {}
    {
      var i := 0;
      while i < FIELDS
        invariant i <= FIELDS
        invariant forall j :: 0 <= j < i ==> mask[j] == 0
      {
        if mask[i] != 0 {
          var _ := NonzeroWord(mask[..], i);
          return false;
        }
        i := i + 1;
      }
      EmptyWords(mask[..]);
      return true;
    }

    method IsFull() returns (b: bool)
      requires Valid()
      ensures b <==> View() == Range(0, BITS)
    {
      var i := 0;
      while i < FIELDS
        invariant i <= FIELDS
        invariant forall j :: 0 <= j < i ==> mask[j] == ONES
      {
        if mask[i] != ONES {
          NotFullWord(mask[..], i);
          return false;
        }
        i := i + 1;
      }
      FullWords(mask[..]);
      return true;
    }

    /** The first maximal run of set bits at or after `idx`. */
    method NextRun(idx: nat) returns (start: nat, count: nat)
      requires Valid()
      ensures IsNextRun(mask[..], idx, start, count)
    {
      var i, ofs, m := ScanToBit(idx);
      if i >= FIELDS {
        return BITS, 0;
      }
      start := i * WORD + ofs;
      count := CountRun(i, ofs, m);
    }

    /** The first half of `next_run`: scan to the first set bit at or after `idx`. */
    method ScanToBit(idx: nat) returns (i: nat, ofs: nat, m: bv64)
      requires Valid()
      ensures ofs < WORD && idx <= i * WORD + ofs && NoneIn(mask[..], idx, i * WORD + ofs)
      ensures i < FIELDS ==> m == Shr(mask[i], ofs) && Bit0(m) == 1
    {
      ghost var words := mask[..];
      i := idx / WORD;
      ofs := idx % WORD;
      m := 0;
      while i < FIELDS
        invariant ofs < WORD && idx <= i * WORD + ofs
        invariant NoneIn(words, idx, i * WORD + ofs)
        decreases FIELDS - i
      {
        m := Shr(mask[i], ofs);
        if m != 0 {
          while Bit0(m) == 0
            invariant ofs < WORD && idx <= i * WORD + ofs
            invariant m != 0 && m == Shr(words[i], ofs)
            invariant NoneIn(words, idx, i * WORD + ofs)
            decreases WORD - ofs
          {
            SkipBit(words, i, ofs, m);
            m := Half(m);
            ofs := ofs + 1;
          }
          break;
        }
        EmptyRest(words, i, ofs);
        i := i + 1;
        ofs := 0;
      }
    }

    /** The second half: count the set bits from bit `ofs` of word `w`, across word boundaries. */
    method CountRun(w: nat, ofs: nat, first: bv64) returns (count: nat)
      requires Valid() && w < FIELDS && ofs < WORD && first == Shr(mask[w], ofs) && Bit0(first) == 1
      ensures count > 0 && w * WORD + ofs + count <= BITS
      ensures AllIn(mask[..], w * WORD + ofs, w * WORD + ofs + count) && !Has(mask[..], w * WORD + ofs + count)
    {
      ghost var words := mask[..];
      var i, m := w, first;
      var start := w * WORD + ofs;
      ghost var b: nat := ofs;
      count := 0;
      while true
        invariant i < FIELDS && b < WORD && start + count == i * WORD + b
        invariant m == Shr(words[i], b) && Bit0(m) == 1
        invariant AllIn(words, start, start + count)
        decreases BITS - (start + count)
      {
        count, m := CountInWord(i, b, m, start, count);
        b := start + count - i * WORD;
        AtBoundary(start + count, i, b);
        if (start + count) % WORD == 0 {
          i, b := i + 1, 0;
          if i >= FIELDS {
            break;
          }
          m := mask[i];
        }
        AtBit(words, i, b, m);
        if Bit0(m) != 1 {
          break;
        }
      }
    }

    /** The inner loop of the count: the set bits from bit `b` of word `i` to the first clear bit or the
        end of the word. */
    method CountInWord(i: nat, ghost b: nat, first: bv64, start: nat, sofar: nat) returns (count: nat, m: bv64)
      requires Valid() && i < FIELDS && b < WORD && first == Shr(mask[i], b) && Bit0(first) == 1
      requires start + sofar == i * WORD + b && AllIn(mask[..], start, start + sofar)
      ensures sofar < count && start + count <= (i + 1) * WORD
      ensures AllIn(mask[..], start, start + count)
      ensures m == Shr(mask[i], start + count - i * WORD) && Bit0(m) != 1
    {
      ghost var words := mask[..];
      ghost var c := b;
      count, m := sofar, first;
      while true
        invariant b <= c < WORD && sofar <= count && start + count == i * WORD + c
        invariant m == Shr(words[i], c) && Bit0(m) == 1
        invariant AllIn(words, start, start + count)
        decreases WORD - c
      {
        AtBit(words, i, c, m);
        ShrNext(words[i], c);
        count := count + 1;
        c := c + 1;
        m := Half(m);
        if Bit0(m) != 1 {
          break;
        }
        InWordStill(words[i], c, m);
      }
    }
  }

  ghost predicate NoneIn(words: seq<bv64>, lo: nat, hi: nat)
    requires |words| == FIELDS
  {
    forall k: nat :: lo <= k < hi ==> !Has(words, k)
  }

  ghost predicate AllIn(words: seq<bv64>, lo: nat, hi: nat)
    requires |words| == FIELDS
  {
    forall k: nat :: lo <= k < hi ==> Has(words, k)
  }

  /** `count` chunks from `start` are the first maximal run at or after `idx`; `(512, 0)` if none is left. */
  ghost predicate IsNextRun(words: seq<bv64>, idx: nat, start: nat, count: nat)
    requires |words| == FIELDS
  {
    && start + count <= BITS
    && NoneIn(words, idx, start)
    && (count == 0 ==> start == BITS)
    && (count > 0 ==> idx <= start && AllIn(words, start, start + count) && !Has(words, start + count))
  }

  /** The next run is determined by the set and the index. */
  lemma NextRunUnique(words: seq<bv64>, idx: nat, s: nat, c: nat, s': nat, c': nat)
    requires |words| == FIELDS && IsNextRun(words, idx, s, c) && IsNextRun(words, idx, s', c')
    ensures s == s' && c == c'
  {
    assert c > 0 ==> Has(words, s);
    assert c' > 0 ==> Has(words, s');
  }

  /** `(512, 0)` comes back exactly when no bit is left. */
  lemma NextRunEnds(words: seq<bv64>, idx: nat, s: nat, c: nat)
    requires |words| == FIELDS && IsNextRun(words, idx, s, c)
    ensures c == 0 <==> NoneIn(words, idx, BITS)
  {
    assert c > 0 ==> Has(words, s);
  }

  lemma AtBoundary(pos: nat, i: nat, b: nat)
    requires pos == i * WORD + b && 0 < b <= WORD
    ensures pos % WORD == 0 <==> b == WORD
    ensures b == WORD ==> pos == (i + 1) * WORD
  {
  }

  lemma AtBit(words: seq<bv64>, i: nat, ofs: nat, m: bv64)
    requires |words| == FIELDS && i < FIELDS && ofs < WORD && m == Shr(words[i], ofs)
    ensures Has(words, i * WORD + ofs) <==> Bit0(m) == 1
  {
    InWord(words, i, ofs);
    ShrBit(words[i], ofs, 0);
  }

  lemma SkipBit(words: seq<bv64>, i: nat, ofs: nat, m: bv64)
    requires |words| == FIELDS && i < FIELDS && ofs < WORD && m == Shr(words[i], ofs)
    requires m != 0 && Bit0(m) == 0
    ensures ofs + 1 < WORD && Half(m) != 0 && Half(m) == Shr(words[i], ofs + 1)
    ensures !Has(words, i * WORD + ofs)
  {
    AtBit(words, i, ofs, m);
    HalfNonzero(m);
    ShrNext(words[i], ofs);
    if ofs + 1 == WORD { ShrAll(words[i]); }
  }

  lemma EmptyRest(words: seq<bv64>, i: nat, ofs: nat)
    requires |words| == FIELDS && i < FIELDS && ofs < WORD && Shr(words[i], ofs) == 0
    ensures NoneIn(words, i * WORD + ofs, (i + 1) * WORD)
  {
    forall k: nat | i * WORD + ofs <= k < (i + 1) * WORD ensures !Has(words, k) {
      var b := k - i * WORD;
      InWord(words, i, b);
      ShrBit(words[i], ofs, b - ofs);
      NoBits(b - ofs);
    }
  }

  /** A shifted word that is odd has not been shifted out. */
  lemma InWordStill(w: bv64, k: nat, m: bv64)
    requires k <= WORD && m == Shr(w, k) && Bit0(m) == 1
    ensures k < WORD
  {
    if k == WORD { ShrAll(w); }
  }
}
