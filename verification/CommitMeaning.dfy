/**
 * What each operation on a segment does to each byte: whether the byte is committed, scheduled to be
 * decommitted, and readable and writable, said in both directions.
 */
module CommitMeaning {
  import opened Layout
  import opened CommitMasks
  import opened CommitSpec

  // ---- Vocabulary ----

  ghost predicate Committed(s: Seg, a: nat) { ByteIn(s.start, s.commit, a) }
  ghost predicate Scheduled(s: Seg, a: nat) { ByteIn(s.start, s.decommit, a) }

  ghost predicate InSegment(s: Seg, a: nat) { s.start <= a < s.start + SEGMENT_SIZE }

  /** The chunk of byte `a` has a byte in common with the request. */
  ghost predicate Touched(s: Seg, p: nat, size: nat, a: nat) {
    0 < size <= SEGMENT_SIZE && InSegment(s, a) && Meets(s.start, p, size, ChunkOf(s.start, a))
  }

  /** The chunk of byte `a` lies wholly inside the request. */
  ghost predicate Enclosed(s: Seg, p: nat, size: nat, a: nat) {
    0 < size <= SEGMENT_SIZE && InSegment(s, a) && Inside(s.start, p, size, ChunkOf(s.start, a))
  }

  ghost predicate Signed64(x: int) { -0x8000_0000_0000_0000 <= x < 0x8000_0000_0000_0000 }

  /** The bytes of the requested chunks. */
  lemma RequestedBytes(s: Seg, conservative: bool, p: nat, size: nat, a: nat)
    ensures ByteIn(s.start, Requested(s.start, conservative, p, size), a)
            <==> if conservative then Enclosed(s, p, size, a) else Touched(s, p, size, a)
  {
  }

  /** A set of chunks has a byte if it has a chunk. */
  lemma FirstByte(seg: nat, chunks: set<nat>, k: nat)
    requires k in chunks
    ensures ByteIn(seg, chunks, seg + k * COMMIT_SIZE)
  {
  }

  /** Two sets of chunks share a chunk if and only if they share a byte. */
  lemma SharedByte(seg: nat, x: set<nat>, y: set<nat>)
    ensures x * y != {} <==> exists a :: ByteIn(seg, x, a) && ByteIn(seg, y, a)
  {
    if x * y != {} {
      var k :| k in x * y;
      FirstByte(seg, x, k);
      FirstByte(seg, y, k);
    }
    if a :| ByteIn(seg, x, a) && ByteIn(seg, y, a) {
      assert ChunkOf(seg, a) in x * y;
    }
  }

  lemma MissingByte(seg: nat, x: set<nat>, y: set<nat>)
    ensures !(x <= y) <==> exists a :: ByteIn(seg, x, a) && !ByteIn(seg, y, a)
  {
    if k :| k in x && k !in y {
      FirstByte(seg, x, k);
      ChunkBounds(seg, seg + k * COMMIT_SIZE, k);
    }
  }

  // ---- Committing ----

  /** Some scheduled byte belongs to a chunk that the request meets. */
  ghost predicate Rescues(s: Seg, p: nat, size: nat) {
    exists a :: Scheduled(s, a) && Touched(s, p, size, a)
  }

  /** Some byte of a chunk that the request meets is not committed. */
  ghost predicate Wants(s: Seg, p: nat, size: nat) {
    exists a :: Touched(s, p, size, a) && !Committed(s, a)
  }

  /** Committing for a request made every chunk that the request meets committed and unscheduled, and did
      nothing else, except that rescuing a scheduled chunk starts the timer again. */
  ghost predicate CommitDone(s: Seg, s': Seg, p: nat, size: nat, now: int) {
    && s' == s.(commit := s'.commit, decommit := s'.decommit, rw := s'.rw, expire := s'.expire)
    && (forall a :: Committed(s', a) <==> Committed(s, a) || Touched(s, p, size, a))
    && (forall a :: Scheduled(s', a) <==> Scheduled(s, a) && !Touched(s, p, size, a))
    && (forall a: nat :: a in s'.rw <==> a in s.rw || Touched(s, p, size, a))
    && s'.expire == if Rescues(s, p, size) then Wrap(now + DECOMMIT_DELAY) else s.expire
  }

  lemma NothingToCommit(s: Seg, p: nat, size: nat, now: int)
    requires Safe(s) && !Wants(s, p, size) && !Rescues(s, p, size)
    ensures CommitDone(s, s, p, size, now)
  {
    forall a: nat ensures a in s.rw <==> a in s.rw || Touched(s, p, size, a) {
      assert Touched(s, p, size, a) ==> Committed(s, a);
    }
  }

  lemma WantsIff(s: Seg, p: nat, size: nat)
    ensures Wants(s, p, size) <==> !(Requested(s.start, false, p, size) <= s.commit)
    ensures Rescues(s, p, size) <==> s.decommit * Requested(s.start, false, p, size) != {}
  {
    var m := Requested(s.start, false, p, size);
    forall a ensures ByteIn(s.start, m, a) <==> Touched(s, p, size, a) { RequestedBytes(s, false, p, size, a); }
    MissingByte(s.start, m, s.commit);
    SharedByte(s.start, s.decommit, m);
  }

  /** `segment_commitx` asked to commit.  It fails if and only if the operating system refuses and it had to
      be asked, because some chunk that the request meets is not committed; then nothing has changed.
      Otherwise exactly the chunks that the request meets become committed. */
  lemma CommitMeans(s: Seg, p: nat, size: nat, now: int, osOk: bool)
    requires Safe(s)
    ensures var (s', ok) := CommitX(s, true, p, size, now, osOk);
            && (!ok <==> !osOk && Wants(s, p, size))
            && (!ok ==> s' == s)
            && (ok ==> CommitDone(s, s', p, size, now))
  {
    var m := Requested(s.start, false, p, size);
    var (s', ok) := CommitX(s, true, p, size, now, osOk);
    WantsIff(s, p, size);
    forall a ensures ByteIn(s.start, m, a) <==> Touched(s, p, size, a) { RequestedBytes(s, false, p, size, a); }
    if m <= s.commit && m * s.decommit == {} {
      NothingToCommit(s, p, size, now);
      if ok { CommitNothing(s, s', m); }
    } else if ok {
      CommitBytes(s, s', m);
    }
  }

  lemma CommitNothing(s: Seg, s': Seg, m: set<nat>)
    requires m <= s.commit && m * s.decommit == {}
    requires s' == s || s' == s.(commit := s.commit + m, decommit := s.decommit - m)
    ensures s' == s
  {
    assert s.commit + m == s.commit;
    forall k | k in s.decommit ensures k !in m { assert k in m ==> k in m * s.decommit; }
    assert s.decommit - m == s.decommit;
  }

  lemma CommitBytes(s: Seg, s': Seg, m: set<nat>)
    requires Safe(s) && s'.start == s.start && s'.commit == s.commit + m && s'.decommit == s.decommit - m
    requires s'.rw == if m <= s.commit then s.rw else s.rw + Bytes(s.start, m)
    ensures forall a :: Committed(s', a) <==> Committed(s, a) || ByteIn(s.start, m, a)
    ensures forall a :: Scheduled(s', a) <==> Scheduled(s, a) && !ByteIn(s.start, m, a)
    ensures forall a: nat :: a in s'.rw <==> a in s.rw || ByteIn(s.start, m, a)
  {
    forall a: nat ensures a in s'.rw <==> a in s.rw || ByteIn(s.start, m, a) {
      if m <= s.commit && ByteIn(s.start, m, a) { assert ByteIn(s.start, s.commit, a); }
    }
  }

  /** `segment_ensure_committed`: the same, whatever shortcut is taken. */
  lemma EnsureMeans(s: Seg, p: nat, size: nat, now: int, osOk: bool)
    requires Safe(s)
    ensures var (s', ok) := EnsureCommitted(s, p, size, now, osOk);
            && (!ok <==> !osOk && Wants(s, p, size))
            && (!ok ==> s' == s)
            && (ok ==> CommitDone(s, s', p, size, now))
  {
    if s.commit == Range(0, BITS) && s.decommit == {} {
      WantsIff(s, p, size);
      assert Requested(s.start, false, p, size) <= Range(0, BITS);
      NothingToCommit(s, p, size, now);
    } else {
      CommitMeans(s, p, size, now, osOk);
    }
  }

  // ---- Decommitting ----

  /** Some committed byte belongs to a chunk wholly inside the request. */
  ghost predicate Gives(s: Seg, p: nat, size: nat) {
    exists a :: Committed(s, a) && Enclosed(s, p, size, a)
  }

  /** `segment_commitx` asked to decommit always succeeds: exactly the chunks wholly inside the request stop
      being committed and scheduled; when any was committed and decommitting is allowed they lose
      read/write, and no other byte does. */
  lemma DecommitMeans(s: Seg, p: nat, size: nat, now: int, osOk: bool)
    ensures var (s', ok) := CommitX(s, false, p, size, now, osOk);
            && ok && s' == s.(commit := s'.commit, decommit := s'.decommit, rw := s'.rw)
            && (forall a :: Committed(s', a) <==> Committed(s, a) && !Enclosed(s, p, size, a))
            && (forall a :: Scheduled(s', a) <==> Scheduled(s, a) && !Enclosed(s, p, size, a))
            && (forall a: nat :: a in s'.rw <==>
                  a in s.rw && !(s.allowDecommit && Gives(s, p, size) && Enclosed(s, p, size, a)))
  {
    var m := Requested(s.start, true, p, size);
    forall a ensures ByteIn(s.start, m, a) <==> Enclosed(s, p, size, a) { RequestedBytes(s, true, p, size, a); }
    SharedByte(s.start, s.commit, m);
    var s' := CommitX(s, false, p, size, now, osOk).0;
    if m == {} {
      assert forall a :: !ByteIn(s.start, m, a);
    } else {
      DecommitBytes(s, s', m);
    }
  }

  lemma DecommitBytes(s: Seg, s': Seg, m: set<nat>)
    requires s'.start == s.start && s'.commit == s.commit - m && s'.decommit == s.decommit - m
    ensures forall a :: Committed(s', a) <==> Committed(s, a) && !ByteIn(s.start, m, a)
    ensures forall a :: Scheduled(s', a) <==> Scheduled(s, a) && !ByteIn(s.start, m, a)
  {
  }

  /** `segment_delayed_decommit` does nothing if and only if it is not allowed, nothing is scheduled, or it
      is neither forced nor due. */
  lemma DelayedIdle(s: Seg, force: bool, now: int)
    ensures DelayedDecommit(s, force, now) == s
            <==> !s.allowDecommit || (forall a :: !Scheduled(s, a)) || (!force && now < s.expire)
  {
    if k :| k in s.decommit {
      FirstByte(s.start, s.decommit, k);
      assert Scheduled(s, s.start + k * COMMIT_SIZE);
    } else {
      assert s.decommit == {};
    }
  }

  // ---- Scheduling ----

  /** Some chunk of the segment lies wholly inside the request. */
  ghost predicate Asks(s: Seg, p: nat, size: nat) { exists a :: Enclosed(s, p, size, a) }

  /** The timer is set and lies more than one tick back; at the last tick of the clock, one tick is enough. */
  ghost predicate Overdue(s: Seg, now: int) {
    s.expire != 0 && (s.expire < now || s.expire == now == 0x7FFF_FFFF_FFFF_FFFF)
  }

  /** `a` is scheduled already, or committed in a chunk wholly inside the request. */
  ghost predicate Due(s: Seg, p: nat, size: nat, a: nat) {
    Scheduled(s, a) || (Committed(s, a) && Enclosed(s, p, size, a))
  }

  /** `segment_perhaps_decommit` put every committed chunk wholly inside the request on the schedule, kept
      what was scheduled, and touched nothing else; the timer is a full delay away when it was not set, and
      one tick later than the later of itself and the clock when it was. */
  ghost predicate Postponed(s: Seg, s': Seg, p: nat, size: nat, now: int) {
    && s' == s.(decommit := s'.decommit, expire := s'.expire)
    && (forall a :: Scheduled(s', a) <==> Due(s, p, size, a))
    && s'.expire == Wrap(if s.expire == 0 then now + DECOMMIT_DELAY
                         else (if s.expire < now then now else s.expire) + EXTEND_DELAY)
  }

  /** It decommitted exactly those chunks at once. */
  ghost predicate DoneAtOnce(s: Seg, s': Seg, p: nat, size: nat) {
    && s' == s.(commit := s'.commit, decommit := {}, rw := s'.rw)
    && (forall a :: Committed(s', a) <==> Committed(s, a) && !Due(s, p, size, a))
    && (forall a: nat :: a in s'.rw <==> a in s.rw && !Due(s, p, size, a))
  }

  /** `segment_perhaps_decommit` does nothing when decommitting is not allowed or no chunk lies wholly
      inside the request; otherwise it decommits at once if the timer is overdue, and schedules if not. */
  lemma PerhapsMeans(s: Seg, p: nat, size: nat, now: int)
    requires Signed64(s.expire) && Signed64(now)
    ensures var s' := PerhapsDecommit(s, p, size, now);
            if !s.allowDecommit || !Asks(s, p, size) then s' == s
            else if Overdue(s, now) then DoneAtOnce(s, s', p, size)
            else Postponed(s, s', p, size, now)
  {
    var m := Requested(s.start, true, p, size);
    forall a ensures ByteIn(s.start, m, a) <==> Enclosed(s, p, size, a) { RequestedBytes(s, true, p, size, a); }
    SharedByte(s.start, m, m);
    assert m * m == m;
    if s.allowDecommit && m != {} {
      var s1 := s.(decommit := s.decommit + s.commit * m);
      forall a ensures Scheduled(s1, a) <==> Due(s, p, size, a) { ScheduledBytes(s, s1, m, a); }
      TimerIs(s1, now);
    }
  }

  lemma ScheduledBytes(s: Seg, s1: Seg, m: set<nat>, a: nat)
    requires s1 == s.(decommit := s.decommit + s.commit * m)
    ensures Scheduled(s1, a) <==> Scheduled(s, a) || (Committed(s, a) && ByteIn(s.start, m, a))
  {
  }

  lemma TimerIs(s: Seg, now: int)
    requires Signed64(s.expire) && Signed64(now) && s.allowDecommit
    ensures Overdue(s, now) ==>
              Timed(s, now) == s.(rw := s.rw - Bytes(s.start, s.decommit), commit := s.commit - s.decommit,
                                  decommit := {})
    ensures !Overdue(s, now) ==>
              Timed(s, now) == s.(expire := Wrap(if s.expire == 0 then now + DECOMMIT_DELAY
                                                 else (if s.expire < now then now else s.expire) + EXTEND_DELAY))
  {
    if s.decommit == {} {
      assert s.commit - s.decommit == s.commit;
      assert s.rw - Bytes(s.start, s.decommit) == s.rw;
    }
  }

  /** What the caller of `segment_perhaps_decommit` relies on, for every byte: committed memory given back is
      scheduled or gone; memory outside the request that nobody scheduled stays; what was scheduled stays
      scheduled or is gone; and read/write is lost only when the timer was overdue. */
  lemma PerhapsByte(s: Seg, p: nat, size: nat, now: int, a: nat)
    requires Safe(s) && s.allowDecommit && Signed64(s.expire) && Signed64(now)
    ensures var s' := PerhapsDecommit(s, p, size, now);
            && (Committed(s, a) && Enclosed(s, p, size, a) ==>
                  Scheduled(s', a) || (!Committed(s', a) && a !in s'.rw))
            && (Secure(s, a) && !Enclosed(s, p, size, a) ==> Secure(s', a) && a in s'.rw)
            && (Scheduled(s, a) ==> Scheduled(s', a) || (!Committed(s', a) && a !in s'.rw))
            && (a in s.rw && a !in s'.rw ==> Overdue(s, now) && Due(s, p, size, a))
            && (Overdue(s, now) && Asks(s, p, size) ==> !Scheduled(s', a))
  {
    PerhapsMeans(s, p, size, now);
  }
}
