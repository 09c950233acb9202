/**
 * Every step of the owner thread inside `page_free_collect` and `heap_delayed_free_partial`
 * keeps the invariant.
 */
module ProtocolOwner {
  import opened Chains
  import opened Protocol
  import opened ProtocolInv

  // ---- Steps that only move the program counter ----

  /** The owner moves on with the same block, or none, in its hands. */
  ghost predicate SameHands(o: Owner, o': Owner) {
    && (OwnerHolds(o) <==> OwnerHolds(o'))
    && (OwnerHolds(o) ==> OwnerBlock(o) == OwnerBlock(o'))
    && (Unchecked(o) <==> Unchecked(o'))
    && !o.CollectAppend? && !o'.CollectAppend?
  }

  /** Leaving the stretch before the taking of a list only when that list is empty. */
  ghost predicate NoneMissed(s: State, o': Owner) {
    forall q :: Between(s.owner, q) && !Between(o', q) ==> Lst(s.list, ThreadOf(q)) == []
  }

  lemma OwnerTurn(s: State, s': State, o': Owner)
    requires Inv(s) && s' == s.(owner := o') && SameHands(s.owner, o') && NoneMissed(s, o')
    requires OwnerInv(s') && PassInv(s')
    ensures Inv(s')
  {
    ListsFrame(s, s');
    forall c ensures BlockInv(s', c) { assert BlockInv(s, c); }
    forall u ensures ThreadInv(s', u) { assert ThreadInv(s, u); }
    forall q ensures PageInv(s', q) { assert PageInv(s, q); assert WakeOk(s', q); }
    SpansFrame(s, s');
  }

  lemma StartCollectKeeps(s: State, p: Page, force: bool)
    requires Inv(s) && Enabled(s, StartCollect(p, force))
    ensures Inv(Apply(s, StartCollect(p, force)))
  {
    OwnerTurn(s, Apply(s, StartCollect(p, force)), CollectLoad(p, force, Back));
  }

  lemma StartDrainKeeps(s: State)
    requires Inv(s) && s.owner.Ready?
    ensures Inv(Apply(s, StartDrain))
  {
    OwnerTurn(s, Apply(s, StartDrain), Apply(s, StartDrain).owner);
  }

  lemma CollectLoadKeeps(s: State)
    requires Inv(s) && s.owner.CollectLoad?
    ensures Inv(ApplyOwner(s, true))
  {
    var o := s.owner;
    HeadNull(s, ThreadOf(o.p));
    if o.force || s.PageWord(o.p) != Word(NULL, UseDelayedFree) {
      CollectTo(s, CollectTake(o.p, o.force, o.then_));
    } else {
      CollectTo(s, CollectMove(o.p, o.force, o.then_));
    }
  }

  lemma CollectTo(s: State, o': Owner)
    requires Inv(s) && (s.owner.CollectLoad? || s.owner.CollectTake?)
    requires o' == CollectTake(s.owner.p, s.owner.force, s.owner.then_)
             || (o' == CollectMove(s.owner.p, s.owner.force, s.owner.then_)
                 && Lst(s.list, ThreadOf(s.owner.p)) == [])
    ensures Inv(s.(owner := o'))
  {
    CollectTurn(s, s.(owner := o'), o');
    OwnerTurn(s, s.(owner := o'), o');
  }

  lemma CollectTurn(s: State, s': State, o': Owner)
    requires OwnerInv(s) && PassInv(s) && Collecting(s.owner) && !s.owner.CollectAppend?
    requires Collecting(o') && !o'.CollectAppend? && o'.p == s.owner.p && o'.then_ == s.owner.then_
    requires s' == s.(owner := o')
    ensures OwnerInv(s') && PassInv(s') && SameHands(s.owner, o')
  {
  }

  lemma CollectNothingKeeps(s: State)
    requires Inv(s) && s.owner.CollectTake? && Hd(s.head, ThreadOf(s.owner.p)) == NULL
    ensures Inv(ApplyOwner(s, true))
  {
    HeadNull(s, ThreadOf(s.owner.p));
    CollectTo(s, CollectMove(s.owner.p, s.owner.force, s.owner.then_));
  }

  /** Moving on while still holding a block that has not been checked. */
  lemma UncheckedTurn(s: State, s': State, o': Owner)
    requires OwnerInv(s) && PassInv(s) && Unchecked(s.owner) && Unchecked(o') && o'.b == s.owner.b
    requires !Putting(o') ==> !Putting(s.owner)
    requires !Putting(o') ==> o'.p == s.owner.p && o'.allFreed == s.owner.allFreed
    requires o'.TryCas? ==> o'.w.delay.NoDelayedFree?
    requires o'.PutCas? ==> Next(s.mem, o'.b) == o'.next
    requires s' == s.(owner := o')
    ensures OwnerInv(s') && PassInv(s') && SameHands(s.owner, o')
  {
  }

  lemma StillUnchecked(s: State, s': State, o': Owner)
    requires Inv(s) && Unchecked(s.owner) && Unchecked(o') && o'.b == s.owner.b
    requires !Putting(o') ==> !Putting(s.owner)
    requires !Putting(o') ==> o'.p == s.owner.p && o'.allFreed == s.owner.allFreed
    requires o'.TryCas? ==> o'.w.delay.NoDelayedFree?
    requires o'.PutCas? ==> Next(s.mem, o'.b) == o'.next
    requires s' == s.(owner := o')
    ensures Inv(s')
  {
    UncheckedTurn(s, s', o');
    OwnerTurn(s, s', o');
  }

  /** For a popped block the bits are never UseDelayedFree or NeverDelayedFree. */
  lemma PoppedWaits(s: State)
    requires Inv(s) && Unchecked(s.owner)
    ensures Waiting(Bits(s.bits, Home(s.home, s.owner.b)))
    ensures Rep(s.rep, Home(s.home, s.owner.b)) == s.owner.b
  {
    assert BlockInv(s, s.owner.b);
  }

  lemma TryLoadNext(b: Addr, p: Page, w: Word, spins: nat, allFreed: bool, o': Owner)
    requires Waiting(w.delay) && o' == TryNext(b, p, w, spins, allFreed)
    ensures Unchecked(o') && o'.b == b && !o'.PutCas?
    ensures !Putting(o') ==> o'.p == p && o'.allFreed == allFreed
    ensures o'.TryCas? ==> o'.w.delay.NoDelayedFree?
  {
  }

  lemma TryLoadKeeps(s: State)
    requires Inv(s) && s.owner.TryLoad?
    ensures Waiting(Bits(s.bits, s.owner.p))
    ensures Inv(ApplyOwner(s, true))
  {
    PoppedWaits(s);
    var o := s.owner;
    var o' := TryNext(o.b, o.p, s.PageWord(o.p), o.spins, o.allFreed);
    TryLoadNext(o.b, o.p, s.PageWord(o.p), o.spins, o.allFreed, o');
    StillUnchecked(s, ApplyOwner(s, true), o');
  }

  lemma PutLoadKeeps(s: State)
    requires Inv(s) && s.owner.PutLoad?
    ensures Inv(ApplyOwner(s, true))
  {
    StillUnchecked(s, ApplyOwner(s, true), PutLink(s.owner.b, Hd(s.head, Delayed)));
  }

  lemma FailedTryKeeps(s: State)
    requires Inv(s) && s.owner.TryCas?
    ensures Inv(ApplyOwner(s, false))
  {
    var o := s.owner;
    StillUnchecked(s, ApplyOwner(s, false), TryLoad(o.b, o.p, o.spins, o.allFreed));
  }

  lemma FailedPutKeeps(s: State)
    requires Inv(s) && s.owner.PutCas?
    ensures Inv(ApplyOwner(s, false))
  {
    StillUnchecked(s, ApplyOwner(s, false), PutLoad(s.owner.b));
  }

  lemma DrainDoneKeeps(s: State)
    requires Inv(s) && s.owner.DrainNext? && Hd(s.head, Drained) == NULL
    ensures Inv(ApplyOwner(s, true))
  {
    HeadNull(s, Drained);
    OwnerTurn(s, ApplyOwner(s, true), Ready);
  }

  // ---- try_use_delayed_free succeeds ----

  lemma TryCasKeeps(s: State)
    requires Inv(s) && s.owner.TryCas? && s.PageWord(s.owner.p) == s.owner.w
    ensures Inv(ApplyOwner(s, true))
  {
    var o := s.owner;
    assert BlockInv(s, o.b);
    UseAgain(s, ApplyOwner(s, true), o, CollectLoad(o.p, false, FreeDelayed(o.b, o.allFreed)));
  }

  /** The owner has set the bits of the page of the block in its hands back to UseDelayedFree. */
  ghost predicate UsedAgain(s: State, s': State, o: Owner, o': Owner) {
    && o == s.owner && o.TryCas? && o' == CollectLoad(o.p, false, FreeDelayed(o.b, o.allFreed))
    && Bits(s.bits, o.p).NoDelayedFree? && o.p == Home(s.home, o.b) && Plc(s.place, o.b).Popped?
    && s' == s.(bits := s.bits[o.p := UseDelayedFree], owner := o')
  }

  lemma UseAgain(s: State, s': State, o: Owner, o': Owner)
    requires Inv(s) && UsedAgain(s, s', o, o')
    ensures Inv(s')
  {
    assert BlockInv(s, o.b);
    ListsFrame(s, s');
    forall c ensures BlockInv(s', c) { assert BlockInv(s, c); UseAgainBlock(s, s', o, o', c); }
    forall u ensures ThreadInv(s', u) { assert ThreadInv(s, u); UseAgainThread(s, s', o, o', u); }
    forall q ensures PageInv(s', q) {
      assert PageInv(s, q) && BlockInv(s, Rep(s.rep, q));
      UseAgainPage(s, s', o, o', q);
    }
    SpansFrame(s, s');
  }

  lemma UseAgainBlock(s: State, s': State, o: Owner, o': Owner, c: Addr)
    requires UsedAgain(s, s', o, o') && BlockInv(s, c) && BlockInv(s, o.b)
    ensures BlockInv(s', c)
  {
  }

  lemma UseAgainThread(s: State, s': State, o: Owner, o': Owner, u: Tid)
    requires ThreadInv(s, u) && UsedAgain(s, s', o, o')
    ensures ThreadInv(s', u)
  {
  }

  lemma UseAgainPage(s: State, s': State, o: Owner, o': Owner, q: Page)
    requires PageInv(s, q) && PlaceOk(s, Rep(s.rep, q)) && UsedAgain(s, s', o, o')
    ensures PageInv(s', q)
  {
    if q == o.p {
      assert Between(o', q);
    } else {
      assert Rep(s.rep, q) == o.b ==> Home(s.home, o.b) == o.p;
    }
    assert WaitOk(s', q);
  }

  // ---- The owner writes into the block it popped, and puts it back ----

  lemma PutLinkKeeps(s: State)
    requires Inv(s) && s.owner.PutLink?
    ensures Inv(ApplyOwner(s, true))
  {
    var o := s.owner;
    PutLinked(s, ApplyOwner(s, true), o.b, o.next);
  }

  lemma PutLinked(s: State, s': State, b: Addr, v: Addr)
    requires Inv(s) && s.owner == PutLink(b, v)
    requires s' == s.(mem := s.mem[b := v], owner := PutCas(b, v))
    ensures Inv(s')
  {
    WriteLists(s, s', b, v);
    forall c ensures BlockInv(s', c) { assert BlockInv(s, c); }
    forall u ensures ThreadInv(s', u) { assert ThreadInv(s, u); }
    forall q ensures PageInv(s', q) { assert PageInv(s, q); }
    SpansFrame(s, s');
  }

  lemma HandledMore(done: seq<Outcome>, o: Outcome)
    ensures Handled(done + [o]) == Handled(done) + [o.b]
    ensures AllOutcomesFreed(done + [o]) <==> AllOutcomesFreed(done) && o.freed
  {
    if AllOutcomesFreed(done + [o]) {
      forall i | 0 <= i < |done| ensures done[i].freed { assert (done + [o])[i] == done[i]; }
      assert (done + [o])[|done|] == o;
    }
  }

  lemma PutCasKeeps(s: State)
    requires Inv(s) && s.owner.PutCas? && Hd(s.head, Delayed) == s.owner.next
    ensures Inv(ApplyOwner(s, true))
  {
    PutBack(s, ApplyOwner(s, true), s.owner.b);
  }

  ghost predicate IsPutBack(s: State, s': State, b: Addr) {
    && s.owner.PutCas? && s.owner.b == b && Plc(s.place, b).Popped? && Next(s.mem, b) == Hd(s.head, Delayed)
    && s' == s.(head := s.head[Delayed := b], list := s.list[Delayed := [b] + Lst(s.list, Delayed)],
                place := s.place[b := In(Delayed)], owner := DrainNext(false),
                done := s.done + [Outcome(b, false)])
  }

  lemma PutBack(s: State, s': State, b: Addr)
    requires Inv(s) && IsPutBack(s, s', b)
    ensures Inv(s')
  {
    BornNotNull(s, b);
    PushLists(s, s', Delayed, b);
    forall c ensures BlockInv(s', c) { assert BlockInv(s, c); PutBackBlock(s, s', b, c); }
    forall u ensures ThreadInv(s', u) { assert ThreadInv(s, u); PutBackThread(s, s', b, u); }
    forall q ensures PageInv(s', q) {
      assert PageInv(s, q) && BlockInv(s, Rep(s.rep, q));
      PutBackPage(s, s', b, q);
    }
    SpansFrame(s, s');
    PutBackOwner(s, s', b);
  }

  lemma PutBackBlock(s: State, s': State, b: Addr, c: Addr)
    requires BlockInv(s, c) && IsPutBack(s, s', b)
    ensures BlockInv(s', c)
  {
    assert Lst(s'.list, Delayed) == [b] + Lst(s.list, Delayed);
  }

  lemma PutBackThread(s: State, s': State, b: Addr, u: Tid)
    requires ThreadInv(s, u) && IsPutBack(s, s', b)
    ensures ThreadInv(s', u)
  {
  }

  lemma PutBackPage(s: State, s': State, b: Addr, q: Page)
    requires PageInv(s, q) && PlaceOk(s, Rep(s.rep, q)) && IsPutBack(s, s', b)
    ensures PageInv(s', q)
  {
    assert WaitOk(s', q);
  }

  lemma PutBackOwner(s: State, s': State, b: Addr)
    requires OwnerInv(s) && PassInv(s) && IsPutBack(s, s', b)
    ensures OwnerInv(s') && PassInv(s')
  {
    HandledMore(s.done, Outcome(b, false));
  }
}
