/**
 * Committing and decommitting the chunks of a segment, as a transition system over the commit mask, the
 * decommit mask, the bytes the operating system lets the process read and write, and the bytes in use.
 */
module CommitSpec {
  import opened Layout
  import opened CommitMasks

  const COMMIT_SIZE: nat := SLICE_SIZE
  const DECOMMIT_DELAY: int := 25
  const EXTEND_DELAY: int := 1

  // ---- Chunks and bytes ----

  /** Chunk `k` of the segment lies wholly inside the request. */
  predicate Inside(seg: nat, p: nat, size: nat, k: nat) {
    p <= seg + k * COMMIT_SIZE && seg + (k + 1) * COMMIT_SIZE <= p + size
  }

  /** Chunk `k` of the segment has a byte in common with the request. */
  predicate Meets(seg: nat, p: nat, size: nat, k: nat) {
    seg + k * COMMIT_SIZE < p + size && p < seg + (k + 1) * COMMIT_SIZE
  }

  /** The chunks a request is about: for decommitting those wholly inside it, for committing those that
      meet it; none when the size is zero or larger than a segment. */
  ghost function Requested(seg: nat, conservative: bool, p: nat, size: nat): set<nat> {
    set k: nat | k < BITS && IsRequested(seg, conservative, p, size, k)
  }

  ghost predicate IsRequested(seg: nat, conservative: bool, p: nat, size: nat, k: nat) {
    0 < size <= SEGMENT_SIZE && if conservative then Inside(seg, p, size, k) else Meets(seg, p, size, k)
  }

  ghost function ChunkOf(seg: nat, a: nat): nat
    requires seg <= a
  {
    (a - seg) / COMMIT_SIZE
  }

  /** Byte `a` belongs to one of the chunks. */
  ghost predicate ByteIn(seg: nat, chunks: set<nat>, a: nat) {
    seg <= a && ChunkOf(seg, a) in chunks
  }

  ghost function Bytes(seg: nat, chunks: set<nat>): iset<nat> {
    iset a: nat | ByteIn(seg, chunks, a)
  }

  lemma ChunkBounds(seg: nat, a: nat, k: nat)
    requires seg <= a
    ensures ChunkOf(seg, a) == k <==> seg + k * COMMIT_SIZE <= a < seg + (k + 1) * COMMIT_SIZE
  {
  }

  /** Rounding outward covers every requested byte of the segment. */
  lemma LiberalCovers(seg: nat, p: nat, size: nat, a: nat)
    requires 0 < size <= SEGMENT_SIZE && p <= a < p + size && seg <= a < seg + SEGMENT_SIZE
    ensures ByteIn(seg, Requested(seg, false, p, size), a)
  {
    ChunkBounds(seg, a, ChunkOf(seg, a));
  }

  /** Rounding inward touches no byte outside the request. */
  lemma ConservativeWithin(seg: nat, p: nat, size: nat, a: nat)
    requires ByteIn(seg, Requested(seg, true, p, size), a)
    ensures p <= a < p + size && 0 < size <= SEGMENT_SIZE
  {
    ChunkBounds(seg, a, ChunkOf(seg, a));
  }

  // ---- States and operations ----

  datatype Seg = Seg(
    start: nat,
    allowDecommit: bool,
    commit: set<nat>,      // commit mask
    decommit: set<nat>,    // chunks scheduled to be decommitted
    expire: int,           // when they may be
    rw: iset<nat>,         // bytes the operating system has made readable and writable
    inUse: iset<nat>)      // bytes of pages in use

  /** 64-bit signed wrap-around. */
  function Wrap(x: int): int {
    (x + 0x8000_0000_0000_0000) % 0x1_0000_0000_0000_0000 - 0x8000_0000_0000_0000
  }

  /** `segment_commitx`: `osOk` is the answer of the operating system to a request to commit. */
  ghost function CommitX(s: Seg, commit: bool, p: nat, size: nat, now: int, osOk: bool): (Seg, bool) {
    var m := Requested(s.start, !commit, p, size);
    if m == {} then (s, true)
    else if commit then
      if !(m <= s.commit) && !osOk then (s, false)
      else
        (s.(rw := if m <= s.commit then s.rw else s.rw + Bytes(s.start, m),
            commit := s.commit + m,
            expire := if s.decommit * m != {} then Wrap(now + DECOMMIT_DELAY) else s.expire,
            decommit := s.decommit - m), true)
    else
      (s.(rw := if s.commit * m != {} && s.allowDecommit then s.rw - Bytes(s.start, m) else s.rw,
          commit := s.commit - m,
          decommit := s.decommit - m), true)
  }

  /** `segment_ensure_committed`. */
  ghost function EnsureCommitted(s: Seg, p: nat, size: nat, now: int, osOk: bool): (Seg, bool) {
    if s.commit == Range(0, BITS) && s.decommit == {} then (s, true)
    else CommitX(s, true, p, size, now, osOk)
  }

  /** `segment_delayed_decommit`. */
  ghost function DelayedDecommit(s: Seg, force: bool, now: int): Seg {
    if !s.allowDecommit || s.decommit == {} || (!force && now < s.expire) then s
    else s.(rw := s.rw - Bytes(s.start, s.decommit), commit := s.commit - s.decommit, decommit := {})
  }

  /** `segment_perhaps_decommit`. */
  ghost function PerhapsDecommit(s: Seg, p: nat, size: nat, now: int): Seg {
    var m := Requested(s.start, true, p, size);
    if !s.allowDecommit || m == {} then s else Timed(s.(decommit := s.decommit + s.commit * m), now)
  }

  /** Start the timer, extend it, or decommit when it has long been due. */
  ghost function Timed(s: Seg, now: int): Seg {
    if s.expire == 0 then s.(expire := Wrap(now + DECOMMIT_DELAY))
    else if s.expire <= now then
      if Wrap(s.expire + EXTEND_DELAY) <= now then DelayedDecommit(s, true, now)
      else s.(expire := Wrap(now + EXTEND_DELAY))
    else s.(expire := Wrap(s.expire + EXTEND_DELAY))
  }

  // ---- Safety ----

  /** The segment header, the page headers and the one for the slice past the end. */
  predicate InHeader(seg: nat, a: nat) {
    seg <= a < seg + SIZEOF_SEGMENT_HEADER + SIZEOF_PAGE_HEADER * (SLICES_PER_SEGMENT + 1)
  }

  ghost predicate Needed(s: Seg, a: nat) { a in s.inUse || InHeader(s.start, a) }

  /** Committed and not scheduled to be decommitted. */
  ghost predicate Secure(s: Seg, a: nat) { ByteIn(s.start, s.commit, a) && !ByteIn(s.start, s.decommit, a) }

  /** Decommit mask within commit mask within read/write bytes; header and pages in use secure. */
  ghost predicate Safe(s: Seg) {
    && s.decommit <= s.commit <= Range(0, BITS)
    && (forall a: nat :: ByteIn(s.start, s.commit, a) ==> a in s.rw)
    && (forall a: nat :: Needed(s, a) ==> Secure(s, a))
  }

  lemma CommitXSafe(s: Seg, commit: bool, p: nat, size: nat, now: int, osOk: bool)
    requires Safe(s) && (!commit ==> Requested(s.start, true, p, size) <= s.decommit)
    ensures Safe(CommitX(s, commit, p, size, now, osOk).0)
  {
    var m := Requested(s.start, !commit, p, size);
    var s' := CommitX(s, commit, p, size, now, osOk).0;
    forall a: nat | ByteIn(s'.start, s'.commit, a) ensures a in s'.rw {
      assert ByteIn(s.start, s.commit, a) || ByteIn(s.start, m, a);
    }
    forall a: nat | Needed(s', a) ensures Secure(s', a) {
      assert Needed(s, a) && Secure(s, a);
    }
  }

  lemma DelayedSafe(s: Seg, force: bool, now: int)
    requires Safe(s)
    ensures Safe(DelayedDecommit(s, force, now))
  {
    var s' := DelayedDecommit(s, force, now);
    forall a: nat | ByteIn(s'.start, s'.commit, a) ensures a in s'.rw { assert ByteIn(s.start, s.commit, a); }
    forall a: nat | Needed(s', a) ensures Secure(s', a) { assert Needed(s, a) && Secure(s, a); }
  }

  /** When it is allowed, and forced or due, `segment_delayed_decommit` finishes the job exactly: nothing is
      left scheduled, exactly the bytes of the scheduled chunks are lost, and no other byte is affected. */
  lemma DelayedExact(s: Seg, force: bool, now: int, a: nat)
    requires Safe(s) && s.allowDecommit && (force || s.expire <= now)
    ensures var s' := DelayedDecommit(s, force, now);
            && s'.decommit == {} && s'.commit == s.commit - s.decommit
            && s' == s.(decommit := s'.decommit, commit := s'.commit, rw := s'.rw)
            && (a in s.rw && a !in s'.rw <==> ByteIn(s.start, s.decommit, a))
            && (Secure(s, a) <==> ByteIn(s'.start, s'.commit, a))
  {
    if ByteIn(s.start, s.decommit, a) { assert ByteIn(s.start, s.commit, a); }
  }

  /** Scheduling chunks that hold no needed byte is safe. */
  lemma ScheduleSafe(s: Seg, m: set<nat>, e: int)
    requires Safe(s) && forall a: nat :: ByteIn(s.start, m, a) ==> !Needed(s, a)
    ensures Safe(s.(decommit := s.decommit + s.commit * m, expire := e))
  {
    var s' := s.(decommit := s.decommit + s.commit * m, expire := e);
    forall a: nat | ByteIn(s'.start, s'.commit, a) ensures a in s'.rw { assert ByteIn(s.start, s.commit, a); }
    forall a: nat | Needed(s', a) ensures Secure(s', a) {
      assert Needed(s, a) && Secure(s, a);
      assert !ByteIn(s.start, m, a);
    }
  }

  lemma PerhapsSafe(s: Seg, p: nat, size: nat, now: int)
    requires Safe(s) && forall a: nat :: p <= a < p + size ==> !Needed(s, a)
    ensures Safe(PerhapsDecommit(s, p, size, now))
  {
    var m := Requested(s.start, true, p, size);
    forall a: nat | ByteIn(s.start, m, a) ensures !Needed(s, a) { ConservativeWithin(s.start, p, size, a); }
    var s1 := s.(decommit := s.decommit + s.commit * m);
    ScheduleSafe(s, m, s.expire);
    ScheduleSafe(s, m, PerhapsDecommit(s, p, size, now).expire);
    DelayedSafe(s1, true, now);
    assert s1 == s.(decommit := s.decommit + s.commit * m, expire := s.expire);
  }

  /** Whatever the rounding, a successful `segment_ensure_committed` makes every requested byte of the
      segment readable, writable, committed and unscheduled. */
  lemma EnsureCommittedMeans(s: Seg, p: nat, size: nat, now: int, osOk: bool, a: nat)
    requires Safe(s) && EnsureCommitted(s, p, size, now, osOk).1
    requires 0 < size <= SEGMENT_SIZE && p <= a < p + size && s.start <= a < s.start + SEGMENT_SIZE
    ensures Secure(EnsureCommitted(s, p, size, now, osOk).0, a)
    ensures a in EnsureCommitted(s, p, size, now, osOk).0.rw
  {
    var s' := EnsureCommitted(s, p, size, now, osOk).0;
    LiberalCovers(s.start, p, size, a);
    if s.commit == Range(0, BITS) && s.decommit == {} {
      assert ChunkOf(s.start, a) in Range(0, BITS);
    } else {
      CommitXSafe(s, true, p, size, now, osOk);
    }
    assert ByteIn(s'.start, s'.commit, a);
    assert Safe(s') by { if s' != s { CommitXSafe(s, true, p, size, now, osOk); } }
  }

  // ---- Whole runs ----

  datatype SegStep =
    | Ensure(p: nat, size: nat, now: int, osOk: bool, claim: bool)
    | Release(bytes: iset<nat>)
    | Perhaps(p: nat, size: nat, now: int)
    | Delayed(force: bool, now: int)

  /** The bytes a page span of this size and place may use. */
  ghost function Extent(s: Seg, p: nat, size: nat): iset<nat> {
    iset a: nat | InExtent(s, p, size, a)
  }

  ghost predicate InExtent(s: Seg, p: nat, size: nat, a: nat) {
    p <= a < p + size && s.start <= a < s.start + SEGMENT_SIZE
  }

  /** `segment_ensure_committed` needs a place at or above the segment start, and
      `segment_perhaps_decommit` one that nobody uses. */
  ghost predicate SegEnabled(s: Seg, st: SegStep) {
    match st
    case Ensure(p, size, _, _, claim) =>
      (0 < size <= SEGMENT_SIZE ==> s.start <= p) && (claim ==> 0 < size <= SEGMENT_SIZE)
    case Release(_) => true
    case Perhaps(p, size, _) =>
      && (0 < size <= SEGMENT_SIZE ==> s.start <= p)
      && forall a: nat :: p <= a < p + size ==> !Needed(s, a)
    case Delayed(_, _) => true
  }

  /** After a successful `segment_ensure_committed` the caller may start to use the span; it may stop at
      any time. */
  ghost function SegApply(s: Seg, st: SegStep): Seg {
    match st
    case Ensure(p, size, now, osOk, claim) =>
      var (s', ok) := EnsureCommitted(s, p, size, now, osOk);
      if ok && claim then s'.(inUse := s'.inUse + Extent(s, p, size)) else s'
    case Release(bytes) => s.(inUse := s.inUse - bytes)
    case Perhaps(p, size, now) => PerhapsDecommit(s, p, size, now)
    case Delayed(force, now) => DelayedDecommit(s, force, now)
  }

  lemma EnsureSafe(s: Seg, p: nat, size: nat, now: int, osOk: bool, claim: bool)
    requires Safe(s) && SegEnabled(s, Ensure(p, size, now, osOk, claim))
    ensures Safe(SegApply(s, Ensure(p, size, now, osOk, claim)))
  {
    var (s1, ok) := EnsureCommitted(s, p, size, now, osOk);
    assert Safe(s1) by { if s1 != s { CommitXSafe(s, true, p, size, now, osOk); } }
    if ok && claim {
      var s' := s1.(inUse := s1.inUse + Extent(s, p, size));
      forall a: nat | ByteIn(s'.start, s'.commit, a) ensures a in s'.rw { assert ByteIn(s1.start, s1.commit, a); }
      forall a: nat | Needed(s', a) ensures Secure(s', a) {
        if a in Extent(s, p, size) {
          EnsureCommittedMeans(s, p, size, now, osOk, a);
        } else {
          assert Needed(s1, a);
        }
        assert Secure(s1, a);
      }
    }
  }

  lemma ReleaseSafe(s: Seg, bytes: iset<nat>)
    requires Safe(s)
    ensures Safe(s.(inUse := s.inUse - bytes))
  {
    var s' := s.(inUse := s.inUse - bytes);
    forall a: nat | ByteIn(s'.start, s'.commit, a) ensures a in s'.rw { assert ByteIn(s.start, s.commit, a); }
    forall a: nat | Needed(s', a) ensures Secure(s', a) { assert Needed(s, a) && Secure(s, a); }
  }

  lemma SegStepSafe(s: Seg, st: SegStep)
    requires Safe(s) && SegEnabled(s, st)
    ensures Safe(SegApply(s, st))
  {
    match st
    case Ensure(p, size, now, osOk, claim) => EnsureSafe(s, p, size, now, osOk, claim);
    case Release(bytes) => ReleaseSafe(s, bytes);
    case Perhaps(p, size, now) => PerhapsSafe(s, p, size, now);
    case Delayed(force, now) => DelayedSafe(s, force, now);
  }

  /** A fresh segment: nothing scheduled or in use, the chunk of the header committed. */
  ghost predicate SegInit(s: Seg) {
    && 0 in s.commit && s.commit <= Range(0, BITS) && s.decommit == {} && s.inUse == iset{}
    && forall a: nat :: ByteIn(s.start, s.commit, a) ==> a in s.rw
  }

  lemma SegInitSafe(s: Seg)
    requires SegInit(s)
    ensures Safe(s)
  {
    forall a: nat | Needed(s, a) ensures Secure(s, a) { ChunkBounds(s.start, a, 0); }
  }

  ghost predicate SegRun(trace: seq<Seg>, steps: seq<SegStep>) {
    && |trace| == |steps| + 1 && SegInit(trace[0])
    && forall i :: 0 <= i < |steps| ==> SegEnabled(trace[i], steps[i]) && trace[i + 1] == SegApply(trace[i], steps[i])
  }

  /** Segment memory safety over whole runs, with any clock, any answers of the operating system and any
      order of the operations. */
  lemma {:induction false} RunSafe(trace: seq<Seg>, steps: seq<SegStep>, i: nat)
    requires SegRun(trace, steps) && i < |trace|
    ensures Safe(trace[i])
  {
    if i == 0 {
      SegInitSafe(trace[0]);
    } else {
      RunSafe(trace, steps, i - 1);
      SegStepSafe(trace[i - 1], steps[i - 1]);
      assert trace[i - 1 + 1] == SegApply(trace[i - 1], steps[i - 1]);
    }
  }

  /** In every state of every run the header and the pages in use are readable and writable. */
  lemma NeededStaysMapped(trace: seq<Seg>, steps: seq<SegStep>, i: nat, a: nat)
    requires SegRun(trace, steps) && i < |trace| && Needed(trace[i], a)
    ensures a in trace[i].rw
  {
    RunSafe(trace, steps, i);
    assert Secure(trace[i], a);
  }
}
