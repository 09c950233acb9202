/**
 * The segment and its two masks, updated in place; each operation is proved against its
 * specification in `CommitSpec`.
 */
module CommitSegment {
  import opened Layout
  import opened CommitMasks
  import opened CommitSpec

  // ---- segment_commit_mask ----

  /** The chunk range `[start, end)` of a request relative to the segment start, before it is clipped. */
  lemma RoundedRange(pstart: nat, size: nat, conservative: bool, start: nat, end: nat, k: nat)
    requires conservative ==> start == AlignUp(pstart, COMMIT_SIZE) && end == AlignDown(pstart + size, COMMIT_SIZE)
    requires !conservative ==> start == AlignDown(pstart, COMMIT_SIZE) && end == AlignUp(pstart + size, COMMIT_SIZE)
    ensures (start <= k * COMMIT_SIZE && (k + 1) * COMMIT_SIZE <= end) <==>
              if conservative then Inside(0, pstart, size, k) else Meets(0, pstart, size, k)
  {
    if conservative {
      AlignOptimal(pstart, COMMIT_SIZE, k);
      AlignOptimal(pstart + size, COMMIT_SIZE, k + 1);
    } else {
      OutwardStart(pstart, k);
      OutwardEnd(pstart + size, k);
    }
  }

  lemma OutwardStart(x: nat, k: nat)
    ensures AlignDown(x, COMMIT_SIZE) <= k * COMMIT_SIZE <==> x < (k + 1) * COMMIT_SIZE
  {
  }

  lemma OutwardEnd(x: nat, k: nat)
    ensures (k + 1) * COMMIT_SIZE <= AlignUp(x, COMMIT_SIZE) <==> k * COMMIT_SIZE < x
  {
  }

  /** Clipping to the segment keeps the chunks of the segment. */
  lemma ChunkRange(seg: nat, conservative: bool, p: nat, size: nat, start: nat, end: nat)
    requires seg <= p && 0 < size <= SEGMENT_SIZE && p < seg + SEGMENT_SIZE
    requires conservative ==> start == AlignUp(p - seg, COMMIT_SIZE) && end == AlignDown(p - seg + size, COMMIT_SIZE)
    requires !conservative ==> start == AlignDown(p - seg, COMMIT_SIZE) && end == AlignUp(p - seg + size, COMMIT_SIZE)
    ensures var end' := if end > SEGMENT_SIZE then SEGMENT_SIZE else end;
            && start <= SEGMENT_SIZE
            && (end' <= start ==> Requested(seg, conservative, p, size) == {})
            && (start < end' ==>
                  Requested(seg, conservative, p, size) == Range(start / COMMIT_SIZE, end' / COMMIT_SIZE))
  {
    var end' := if end > SEGMENT_SIZE then SEGMENT_SIZE else end;
    forall k: nat | k < BITS
      ensures IsRequested(seg, conservative, p, size, k) <==> start <= k * COMMIT_SIZE && (k + 1) * COMMIT_SIZE <= end'
    {
      RoundedRange(p - seg, size, conservative, start, end, k);
    }
    assert start % COMMIT_SIZE == 0 && end' % COMMIT_SIZE == 0;
    forall k: nat
      ensures k in Requested(seg, conservative, p, size) <==>
                start / COMMIT_SIZE <= k < end' / COMMIT_SIZE && start < end'
    {
    }
  }

  /** Fill the empty mask `cm` with the chunks of a request. */
  method SegmentCommitMask(seg: nat, conservative: bool, p: nat, size: nat, cm: CommitMask)
    returns (startP: nat, fullSize: nat)
    requires cm.Valid() && forall j :: 0 <= j < FIELDS ==> cm.mask[j] == 0
    requires 0 < size <= SEGMENT_SIZE ==> seg <= p
    modifies cm.mask
    ensures cm.View() == Requested(seg, conservative, p, size)
    ensures fullSize == 0 <==> cm.View() == {}
    ensures fullSize > 0 ==>
              && seg <= startP && startP + fullSize <= seg + SEGMENT_SIZE
              && (forall a: nat :: startP <= a < startP + fullSize <==> ByteIn(seg, cm.View(), a))
  {
    EmptyWords(cm.mask[..]);
    if size == 0 || size > SEGMENT_SIZE {
      return 0, 0;
    }
    var segstart := SLICE_SIZE;
    var segsize := SEGMENT_SIZE;
    if p >= seg + segsize {
      OutsideSegment(seg, conservative, p, size);
      return 0, 0;
    }
    var pstart := p - seg;
    var start: nat;
    var end: nat;
    if conservative {
      start := AlignUp(pstart, COMMIT_SIZE);
      end := AlignDown(pstart + size, COMMIT_SIZE);
    } else {
      start := AlignDown(pstart, COMMIT_SIZE);
      end := AlignUp(pstart + size, COMMIT_SIZE);
    }
    ChunkRange(seg, conservative, p, size, start, end);
    if pstart >= segstart && start < segstart {
      start := segstart;
    }
    if end > segsize {
      end := segsize;
    }
    startP := seg + start;
    fullSize := if end > start then end - start else 0;
    if fullSize == 0 {
      return;
    }
    var bitidx := start / COMMIT_SIZE;
    var bitcount := fullSize / COMMIT_SIZE;
    RangeBytes(seg, start, end);
    cm.Create(bitidx, bitcount);
  }

  lemma OutsideSegment(seg: nat, conservative: bool, p: nat, size: nat)
    requires p >= seg + SEGMENT_SIZE
    ensures Requested(seg, conservative, p, size) == {}
  {
  }

  lemma RangeBytes(seg: nat, start: nat, end: nat)
    requires start % COMMIT_SIZE == 0 && end % COMMIT_SIZE == 0 && start < end <= SEGMENT_SIZE
    ensures var lo, hi := start / COMMIT_SIZE, end / COMMIT_SIZE;
            && lo + (end - start) / COMMIT_SIZE == hi <= BITS && lo < hi
            && (hi - lo == BITS ==> lo == 0)
            && Range(lo, hi) != {}
            && (forall a: nat :: seg + start <= a < seg + end <==> ByteIn(seg, Range(lo, hi), a))
  {
    var lo, hi := start / COMMIT_SIZE, end / COMMIT_SIZE;
    assert lo in Range(lo, hi);
    forall a: nat ensures seg + start <= a < seg + end <==> ByteIn(seg, Range(lo, hi), a) {
      if seg <= a { ChunkBounds(seg, a, ChunkOf(seg, a)); }
    }
  }

  // ---- The segment ----

  class Segment {
    const start: nat
    const allowDecommit: bool
    const commitMask: CommitMask
    const decommitMask: CommitMask
    var decommitExpire: int
    /** What the operating system and the pages of the segment do. */
    ghost var rw: iset<nat>
    ghost var inUse: iset<nat>

    ghost predicate Valid() {
      commitMask.Valid() && decommitMask.Valid() && commitMask.mask != decommitMask.mask
    }

    ghost function State(): Seg
      requires Valid()
      reads this, commitMask.mask, decommitMask.mask
    {
      Seg(start, allowDecommit, commitMask.View(), decommitMask.View(), decommitExpire, rw, inUse)
    }

    /** A new segment, on memory that came readable and writable as a whole, or only for the header chunk. */
    constructor (start: nat, allowDecommit: bool, committed: bool, rw: iset<nat>)
      requires forall a: nat :: start <= a < start + (if committed then SEGMENT_SIZE else COMMIT_SIZE) ==> a in rw
      ensures Valid() && SegInit(State()) && fresh(commitMask.mask) && fresh(decommitMask.mask)
      ensures State() == Seg(start, allowDecommit, Range(0, if committed then BITS else 1), {}, 0, rw, iset{})
    {
      this.start, this.allowDecommit := start, allowDecommit;
      commitMask := new CommitMask();
      decommitMask := new CommitMask();
      decommitExpire := 0;
      this.rw, inUse := rw, iset{};
      new;
      if committed {
        commitMask.CreateFull();
      } else {
        commitMask.CreateEmpty();
        commitMask.Create(0, 1);
      }
      forall a: nat | ByteIn(start, commitMask.View(), a) ensures a in rw { ChunkBounds(start, a, ChunkOf(start, a)); }
      assert 0 in commitMask.View();
    }

    /** The operating system makes a range readable and writable, or fails and changes nothing. */
    method OsCommit(p: nat, size: nat, ghost bytes: iset<nat>, osOk: bool) returns (ok: bool)
      requires forall a: nat :: a in bytes <==> p <= a < p + size
      modifies this`rw
      ensures ok == osOk && rw == if ok then old(rw) + bytes else old(rw)
    {
      ok := osOk;
      if ok { rw := rw + (iset a: nat | a in bytes && p <= a < p + size); }
    }

    /** The operating system takes a range away. */
    method OsDecommit(p: nat, size: nat, ghost bytes: iset<nat>)
      requires forall a: nat :: a in bytes <==> p <= a < p + size
      modifies this`rw
      ensures rw == old(rw) - bytes
    {
      rw := rw - (iset a: nat | a in bytes && p <= a < p + size);
    }

    /** `segment_commitx`. */
    method SegmentCommitX(commit: bool, p: nat, size: nat, now: int, osOk: bool) returns (ok: bool)
      requires Valid() && (0 < size <= SEGMENT_SIZE ==> start <= p)
      modifies this, commitMask.mask, decommitMask.mask
      ensures (State(), ok) == CommitX(old(State()), commit, p, size, now, osOk)
    {
      var mask := new CommitMask();
      mask.CreateEmpty();
      var startP, fullSize := SegmentCommitMask(start, !commit, p, size, mask);
      ghost var m := mask.View();
      var empty := mask.IsEmpty();
      if empty || fullSize == 0 {
        return true;
      }
      var all := commitMask.AllSet(mask);
      var any := commitMask.AnySet(mask);
      if commit && !all {
        var success := OsCommit(startP, fullSize, Bytes(start, m), osOk);
        if !success {
          return false;
        }
        commitMask.Set(mask);
      } else if !commit && any {
        if allowDecommit {
          OsDecommit(startP, fullSize, Bytes(start, m));
        }
        commitMask.Clear(mask);
      }
      var scheduled := decommitMask.AnySet(mask);
      if commit && scheduled {
        decommitExpire := Wrap(now + DECOMMIT_DELAY);
      }
      decommitMask.Clear(mask);
      SameCommit(old(State()), commit, m);
      return true;
    }

    /** `segment_ensure_committed`. */
    method EnsureCommitted(p: nat, size: nat, now: int, osOk: bool) returns (ok: bool)
      requires Valid() && (0 < size <= SEGMENT_SIZE ==> start <= p)
      modifies this, commitMask.mask, decommitMask.mask
      ensures (State(), ok) == CommitSpec.EnsureCommitted(old(State()), p, size, now, osOk)
    {
      var full := commitMask.IsFull();
      var none := decommitMask.IsEmpty();
      if full && none {
        return true;
      }
      ok := SegmentCommitX(true, p, size, now, osOk);
    }

    /** `segment_delayed_decommit`. */
    method DelayedDecommit(force: bool, now: int)
      requires Valid() && decommitMask.View() <= commitMask.View()
      modifies this, commitMask.mask, decommitMask.mask
      ensures State() == CommitSpec.DelayedDecommit(old(State()), force, now)
    {
      var none := decommitMask.IsEmpty();
      if !allowDecommit || none {
        return;
      }
      if !force && now < decommitExpire {
        return;
      }
      ghost var s0 := State();
      NothingDone(s0);
      var idx: nat := 0;
      while true
        invariant PartlyDone(s0, State())
        invariant NoneIn(decommitMask.mask[..], 0, idx)
        decreases |decommitMask.View()|
      {
        ghost var s1 := State();
        var nextIdx, count := decommitMask.NextRun(idx);
        if count == 0 {
          break;
        }
        idx := nextIdx;
        DecommitRun(idx, count, now);
        RunDone(s0, s1, State(), Range(idx, idx + count));
      }
      NothingLeft(decommitMask.mask[..], idx);
      AllDone(s0, State());
    }

    /** The body of the loop: decommit one run of scheduled chunks. */
    method DecommitRun(idx: nat, count: nat, now: int)
      requires Valid() && allowDecommit && decommitMask.View() <= commitMask.View()
      requires IsNextRun(decommitMask.mask[..], 0, idx, count) && count > 0
      modifies this, commitMask.mask, decommitMask.mask
      ensures Range(idx, idx + count) <= old(decommitMask.View()) && Range(idx, idx + count) != {}
      ensures var m := Range(idx, idx + count);
              State() == old(State()).(rw := old(rw) - Bytes(start, m), commit := old(commitMask.View()) - m,
                                       decommit := old(decommitMask.View()) - m)
      ensures NoneIn(decommitMask.mask[..], 0, idx)
    {
      ghost var was := decommitMask.View();
      RunRequested(start, decommitMask.mask[..], 0, idx, count);
      NoneBelow(decommitMask.mask[..], idx);
      var p := start + idx * COMMIT_SIZE;
      var size := count * COMMIT_SIZE;
      var _ := SegmentCommitX(false, p, size, now, true);
      NothingBelow(decommitMask.mask[..], was, idx);
    }

    /** `segment_perhaps_decommit`. */
    method PerhapsDecommit(p: nat, size: nat, now: int, later: int)
      requires Valid() && decommitMask.View() <= commitMask.View()
      requires 0 < size <= SEGMENT_SIZE ==> start <= p
      modifies this, commitMask.mask, decommitMask.mask
      ensures State() == CommitSpec.PerhapsDecommit(old(State()), p, size, now)
    {
      if !allowDecommit {
        return;
      }
      var mask := new CommitMask();
      mask.CreateEmpty();
      var startP, fullSize := SegmentCommitMask(start, true, p, size, mask);
      var empty := mask.IsEmpty();
      if empty || fullSize == 0 {
        return;
      }
      var cmask := new CommitMask();
      commitMask.CreateIntersect(mask, cmask);
      decommitMask.Set(cmask);
      SetTimer(now, later);
    }

    /** The second half of `segment_perhaps_decommit`. */
    method SetTimer(now: int, later: int)
      requires Valid() && decommitMask.View() <= commitMask.View() && allowDecommit
      modifies this, commitMask.mask, decommitMask.mask
      ensures State() == Timed(old(State()), now)
    {
      if decommitExpire == 0 {
        decommitExpire := Wrap(now + DECOMMIT_DELAY);
      } else if decommitExpire <= now {
        if Wrap(decommitExpire + EXTEND_DELAY) <= now {
          DelayedDecommit(true, later);
        } else {
          decommitExpire := Wrap(now + EXTEND_DELAY);
        }
      } else {
        decommitExpire := Wrap(decommitExpire + EXTEND_DELAY);
      }
    }
  }

  lemma SameCommit(s: Seg, commit: bool, m: set<nat>)
    ensures commit && m <= s.commit ==> s.commit + m == s.commit
    ensures !commit && s.commit * m == {} ==> s.commit - m == s.commit
  {
    if s.commit * m == {} {
      forall k | k in s.commit ensures k !in m { assert k in m ==> k in s.commit * m; }
    }
  }

  /** Some of the scheduled chunks of `s0` have been decommitted. */
  ghost predicate PartlyDone(s0: Seg, s: Seg) {
    && s.decommit <= s0.decommit <= s0.commit && s0.allowDecommit
    && s == s0.(decommit := s.decommit,
                commit := s0.commit - (s0.decommit - s.decommit),
                rw := s0.rw - Bytes(s0.start, s0.decommit - s.decommit))
  }

  /** The request for a run of chunks is about exactly that run. */
  lemma RunRequested(seg: nat, words: seq<bv64>, idx: nat, lo: nat, count: nat)
    requires |words| == FIELDS && IsNextRun(words, idx, lo, count) && count > 0
    ensures Requested(seg, true, seg + lo * COMMIT_SIZE, count * COMMIT_SIZE) == Range(lo, lo + count)
    ensures Range(lo, lo + count) <= BitSet(words) && Range(lo, lo + count) != {}
    ensures 0 < count * COMMIT_SIZE <= SEGMENT_SIZE
  {
    var p, size := seg + lo * COMMIT_SIZE, count * COMMIT_SIZE;
    assert lo in Range(lo, lo + count);
    forall k: nat ensures k in Requested(seg, true, p, size) <==> lo <= k < lo + count {
    }
    forall k: nat | k in Range(lo, lo + count) ensures k in BitSet(words) { assert Has(words, k); }
  }

  lemma RunDone(s0: Seg, s: Seg, s': Seg, m: set<nat>)
    requires PartlyDone(s0, s) && m <= s.decommit && m != {}
    requires s' == s.(rw := s.rw - Bytes(s.start, m), commit := s.commit - m, decommit := s.decommit - m)
    ensures PartlyDone(s0, s') && |s'.decommit| < |s.decommit|
  {
    assert s0.decommit - s'.decommit == (s0.decommit - s.decommit) + m;
    assert s'.commit == s0.commit - (s0.decommit - s'.decommit);
    assert s'.rw == s0.rw - Bytes(s0.start, s0.decommit - s'.decommit);
    assert s.decommit == s'.decommit + m;
  }

  lemma NothingDone(s: Seg)
    requires s.decommit <= s.commit && s.allowDecommit
    ensures PartlyDone(s, s)
  {
    assert s.decommit - s.decommit == {};
    assert Bytes(s.start, {}) == iset{};
  }

  lemma NoneBelow(words: seq<bv64>, idx: nat)
    requires |words| == FIELDS && NoneIn(words, 0, idx)
    ensures forall k: nat :: k < idx ==> k !in BitSet(words)
  {
  }

  lemma NothingBelow(words: seq<bv64>, was: set<nat>, idx: nat)
    requires |words| == FIELDS && BitSet(words) <= was && forall k: nat :: k < idx ==> k !in was
    ensures NoneIn(words, 0, idx)
  {
    forall k: nat | k < idx ensures !Has(words, k) {
      assert k !in BitSet(words);
    }
  }

  lemma NothingLeft(words: seq<bv64>, idx: nat)
    requires |words| == FIELDS && NoneIn(words, 0, idx) && NoneIn(words, idx, BITS)
    ensures BitSet(words) == {}
  {
  }

  lemma AllDone(s0: Seg, s: Seg)
    requires PartlyDone(s0, s) && s.decommit == {}
    ensures s == s0.(rw := s0.rw - Bytes(s0.start, s0.decommit), commit := s0.commit - s0.decommit, decommit := {})
  {
    assert s0.decommit - s.decommit == s0.decommit;
  }
}
