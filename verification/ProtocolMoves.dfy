/**
 * The steps of the owner thread that move blocks between lists, to the user and back keep the
 * invariant: allocating, freeing on the owner's thread, taking and appending whole lists.
 */
module ProtocolMoves {
  import opened Chains
  import opened Protocol
  import opened ProtocolInv
  import opened ProtocolOwner

  // ---- Freeing a block to its page on the owner's thread ----

  /** A live block, or the checked block in the owner's hands, has gone to the front of the free
      list of its page. */
  ghost predicate Freed(s: State, s': State, b: Addr, p: Page, o': Owner, done': seq<Outcome>) {
    && p == Home(s.home, b)
    && (|| (Plc(s.place, b).Live? && s.owner.Ready? && o'.Ready? && done' == s.done)
        || (Plc(s.place, b).Popped? && s.owner.FreeIt? && s.owner.b == b
            && o' == DrainNext(s.owner.allFreed) && done' == s.done + [Outcome(b, true)]))
    && s' == s.(mem := s.mem[b := Hd(s.head, FreeOf(p))],
                head := s.head[FreeOf(p) := b], list := s.list[FreeOf(p) := [b] + Lst(s.list, FreeOf(p))],
                place := s.place[b := In(FreeOf(p))], used := s.used[p := Used(s.used, p) - 1],
                owner := o', done := done')
  }

  lemma Free(s: State, s': State, b: Addr, p: Page, o': Owner, done': seq<Outcome>)
    requires Inv(s) && Freed(s, s', b, p, o', done')
    ensures Inv(s')
  {
    FreeLists(s, s', b, p, o', done');
    forall c ensures BlockInv(s', c) { assert BlockInv(s, c); FreeBlock(s, s', b, p, o', done', c); }
    forall u ensures ThreadInv(s', u) { assert ThreadInv(s, u); FreeThread(s, s', b, p, o', done', u); }
    forall q ensures PageInv(s', q) {
      assert PageInv(s, q);
      FreePage(s, s', b, p, o', done', q);
    }
    SpansFrame(s, s');
    FreeOwner(s, s', b, p, o', done');
  }

  lemma FreeLists(s: State, s': State, b: Addr, p: Page, o': Owner, done': seq<Outcome>)
    requires Inv(s) && Freed(s, s', b, p, o', done')
    ensures ListsInv(s')
  {
    BornNotNull(s, b);
    var s1 := s.(mem := s.mem[b := Hd(s.head, FreeOf(p))]);
    WriteLists(s, s1, b, Hd(s.head, FreeOf(p)));
    PushLists(s1, s', FreeOf(p), b);
  }

  lemma FreeBlock(s: State, s': State, b: Addr, p: Page, o': Owner, done': seq<Outcome>, c: Addr)
    requires BlockInv(s, c) && Freed(s, s', b, p, o', done')
    ensures BlockInv(s', c)
  {
    assert Lst(s'.list, FreeOf(p)) == [b] + Lst(s.list, FreeOf(p));
  }

  lemma FreeThread(s: State, s': State, b: Addr, p: Page, o': Owner, done': seq<Outcome>, u: Tid)
    requires ThreadInv(s, u) && Freed(s, s', b, p, o', done')
    ensures ThreadInv(s', u)
  {
  }

  lemma FreePage(s: State, s': State, b: Addr, p: Page, o': Owner, done': seq<Outcome>, q: Page)
    requires PageInv(s, q) && Freed(s, s', b, p, o', done')
    ensures PageInv(s', q)
  {
    FreeWait(s, s', b, p, o', done', q);
    FreeCount(s, s', b, p, o', done', q);
    assert Lst(s'.list, ThreadOf(q)) == Lst(s.list, ThreadOf(q));
  }

  lemma FreeCount(s: State, s': State, b: Addr, p: Page, o': Owner, done': seq<Outcome>, q: Page)
    requires CountOk(s, q) && Freed(s, s', b, p, o', done')
    ensures CountOk(s', q)
  {
    assert Lst(s'.list, FreeOf(p)) == [b] + Lst(s.list, FreeOf(p));
  }

  lemma FreeWait(s: State, s': State, b: Addr, p: Page, o': Owner, done': seq<Outcome>, q: Page)
    requires DelayOk(s, q) && Freed(s, s', b, p, o', done')
    ensures DelayOk(s', q)
  {
    assert IsRep(s, Rep(s.rep, q)) ==> Rep(s.rep, q) != b;
  }

  lemma FreeOwner(s: State, s': State, b: Addr, p: Page, o': Owner, done': seq<Outcome>)
    requires OwnerInv(s) && PassInv(s) && Freed(s, s', b, p, o', done')
    ensures OwnerInv(s') && PassInv(s')
  {
    if Draining(s'.owner) {
      FreePass(s, s', b, p, o', done');
    }
  }

  lemma FreePass(s: State, s': State, b: Addr, p: Page, o': Owner, done': seq<Outcome>)
    requires PassInv(s) && Freed(s, s', b, p, o', done') && s.owner.FreeIt?
    ensures PassInv(s')
  {
    HandledMore(s.done, Outcome(b, true));
    assert InHand(s.owner) == [b] && InHand(o') == [];
  }

  lemma LocalFreeKeeps(s: State, b: Addr)
    requires Inv(s) && Enabled(s, LocalFree(b))
    ensures Inv(Apply(s, LocalFree(b)))
  {
    PageOfIs(s, b);
    Free(s, Apply(s, LocalFree(b)), b, Home(s.home, b), Ready, s.done);
  }

  lemma FreeItKeeps(s: State)
    requires Inv(s) && s.owner.FreeIt?
    ensures Inv(ApplyOwner(s, true))
  {
    var o := s.owner;
    FreeItIs(s, o.b, o.p, o.allFreed);
    Free(s, ApplyOwner(s, true), o.b, o.p, DrainNext(o.allFreed), s.done + [Outcome(o.b, true)]);
  }

  lemma FreeItIs(s: State, b: Addr, p: Page, allFreed: bool)
    requires OwnerInv(s) && s.owner == FreeIt(b, p, allFreed)
    ensures Freed(s, ApplyOwner(s, true), b, p, DrainNext(allFreed), s.done + [Outcome(b, true)])
  {
  }

  // ---- Popping a block ----

  /** The first block of a page's free list went to the user, or the first block of the drained
      list into the owner's hands. */
  ghost predicate Popping(s: State, s': State, id: ListId, b: Addr) {
    && Lst(s.list, id) != [] && b == Lst(s.list, id)[0] && Plc(s.place, b) == In(id)
    && (|| (id.FreeOf? && s.owner.Ready?
            && s' == s.(head := s.head[id := Next(s.mem, b)], list := s.list[id := Lst(s.list, id)[1..]],
                        place := s.place[b := Live], used := s.used[id.page := Used(s.used, id.page) + 1]))
        || (id.Drained? && s.owner.DrainNext?
            && s' == s.(head := s.head[id := Next(s.mem, b)], list := s.list[id := Lst(s.list, id)[1..]],
                        place := s.place[b := Popped],
                        owner := TryLoad(b, Home(s.home, b), 0, s.owner.allFreed))))
  }

  lemma Pop(s: State, s': State, id: ListId, b: Addr)
    requires Inv(s) && Popping(s, s', id, b)
    ensures Inv(s')
  {
    PopLists(s, s', id, b, if id.FreeOf? then Live else Protocol.Popped);
    assert ListInv(s, id) && BlockInv(s, b);
    forall c ensures BlockInv(s', c) { assert BlockInv(s, c); PopBlock(s, s', id, b, c); }
    forall u ensures ThreadInv(s', u) { assert ThreadInv(s, u); PopThread(s, s', id, b, u); }
    forall q ensures PageInv(s', q) {
      assert PageInv(s, q);
      PopPage(s, s', id, b, q);
    }
    SpansFrame(s, s');
    PopOwner(s, s', id, b);
  }

  lemma PopBlock(s: State, s': State, id: ListId, b: Addr, c: Addr)
    requires BlockInv(s, c) && Popping(s, s', id, b)
    ensures BlockInv(s', c)
  {
    PopPlace(s, s', id, b, c);
    assert IsRep(s', c) ==> IsRep(s, c);
  }

  lemma PopPlace(s: State, s': State, id: ListId, b: Addr, c: Addr)
    requires PlaceOk(s, c) && Popping(s, s', id, b)
    ensures PlaceOk(s', c)
  {
    assert Lst(s.list, id) == [b] + Lst(s'.list, id);
    assert forall k :: k != id ==> Lst(s'.list, k) == Lst(s.list, k);
  }

  lemma PopThread(s: State, s': State, id: ListId, b: Addr, u: Tid)
    requires ThreadInv(s, u) && Popping(s, s', id, b)
    ensures ThreadInv(s', u)
  {
  }

  lemma PopPage(s: State, s': State, id: ListId, b: Addr, q: Page)
    requires PageInv(s, q) && Popping(s, s', id, b)
    ensures PageInv(s', q)
  {
    assert WaitOk(s', q);
    assert Lst(s.list, id) == [b] + Lst(s'.list, id);
  }

  lemma PopOwner(s: State, s': State, id: ListId, b: Addr)
    requires OwnerInv(s) && PassInv(s) && Popping(s, s', id, b)
    ensures OwnerInv(s') && PassInv(s')
  {
    assert Lst(s.list, id) == [b] + Lst(s'.list, id);
    if id.FreeOf? {
      assert s'.owner == s.owner && Lst(s'.list, Drained) == Lst(s.list, Drained);
    } else {
      assert InHand(s.owner) == [] && InHand(s'.owner) == [b];
      PopPass(Handled(s.done), b, Lst(s.list, id), Lst(s'.list, id));
    }
  }

  lemma PopPass(done: seq<Addr>, b: Addr, l: seq<Addr>, rest: seq<Addr>)
    requires l == [b] + rest
    ensures done + [] + l == done + [b] + rest
  {
  }

  lemma MallocKeeps(s: State, p: Page)
    requires Inv(s) && Enabled(s, Malloc(p))
    ensures Inv(Apply(s, Malloc(p)))
  {
    FirstOf(s, FreeOf(p));
    Pop(s, Apply(s, Malloc(p)), FreeOf(p), Hd(s.head, FreeOf(p)));
  }

  lemma DrainPopKeeps(s: State)
    requires Inv(s) && s.owner.DrainNext? && Hd(s.head, Drained) != NULL
    ensures Inv(ApplyOwner(s, true))
  {
    FirstOf(s, Drained);
    PageOfIs(s, Hd(s.head, Drained));
    Pop(s, ApplyOwner(s, true), Drained, Hd(s.head, Drained));
  }

  // ---- Moving a whole list ----

  /** Every block of list `src`, which is now empty, went to the front of list `dst`. */
  ghost predicate Moved(s: State, s': State, src: ListId, dst: ListId) {
    && src != dst
    && Lst(s'.list, src) == []
    && Lst(s'.list, dst) == Lst(s.list, src) + Lst(s.list, dst)
    && (forall k :: k != src && k != dst ==> Lst(s'.list, k) == Lst(s.list, k))
    && (forall c :: Plc(s'.place, c) == if c in Lst(s.list, src) then In(dst) else Plc(s.place, c))
    && (forall c :: !Plc(s.place, c).In? ==> Next(s'.mem, c) == Next(s.mem, c))
    && s'.home == s.home && s'.span == s.span && s'.cap == s.cap && s'.bits == s.bits
    && s'.rep == s.rep && s'.window == s.window && s'.freers == s.freers
  }

  /** Which lists are moved at which point, and what the owner does next. */
  ghost predicate MoveTurn(o: Owner, o': Owner, src: ListId, dst: ListId) {
    || (o.CollectTake? && src == ThreadOf(o.p) && dst == Taken && o' == CollectAppend(o.p, o.force, o.then_))
    || (o.CollectAppend? && src == Taken && dst == LocalOf(o.p) && o' == CollectMove(o.p, o.force, o.then_))
    || (o.CollectMove? && src == LocalOf(o.p) && dst == FreeOf(o.p) && o' == Resume(o.p, o.then_))
    || (o.DrainSwap? && src == Delayed && dst == Drained && o' == DrainNext(true))
  }

  /** What else a move changes: `used` when the taken list is appended, the history of the pass
      when the delayed list is taken. */
  ghost predicate MoveRest(s: State, s': State, src: ListId, dst: ListId) {
    && (src == Taken && dst.LocalOf? ==>
          s'.used == s.used[dst.page := Used(s.used, dst.page) - |Lst(s.list, Taken)|])
    && (src != Taken ==> s'.used == s.used)
    && (src == Delayed ==> s'.orig == Lst(s.list, Delayed) && s'.done == [])
    && (src != Delayed ==> s'.orig == s.orig && s'.done == s.done)
    && (dst == Taken ==> Lst(s.list, src) != [])
  }

  lemma MoveKeeps(s: State, s': State, src: ListId, dst: ListId)
    requires Inv(s) && Moved(s, s', src, dst) && MoveTurn(s.owner, s'.owner, src, dst)
    requires ListsInv(s') && MoveRest(s, s', src, dst)
    ensures Inv(s')
  {
    assert ListInv(s, src);
    forall c ensures BlockInv(s', c) {
      assert BlockInv(s, c);
      MovePlace(s, s', src, dst, c);
      MoveRep(s, s', src, dst, c);
    }
    forall u ensures ThreadInv(s', u) { assert ThreadInv(s, u); MoveThread(s, s', src, dst, u); }
    forall q ensures PageInv(s', q) {
      assert PageInv(s, q);
      MoveCount(s, s', src, dst, q);
      MovePage(s, s', src, dst, q);
    }
    SpansFrame(s, s');
    MoveOwner(s, s', src, dst);
    MovePass(s, s', src, dst);
  }

  lemma MoveOwner(s: State, s': State, src: ListId, dst: ListId)
    requires OwnerInv(s) && Moved(s, s', src, dst) && MoveTurn(s.owner, s'.owner, src, dst)
    requires ListInv(s, src) && MoveRest(s, s', src, dst)
    ensures OwnerInv(s')
  {
    if OwnerHolds(s.owner) {
      assert OwnerBlock(s.owner) !in Lst(s.list, src);
    }
    MoveHands(s.owner, s'.owner, src, dst);
  }

  lemma MoveHands(o: Owner, o': Owner, src: ListId, dst: ListId)
    requires MoveTurn(o, o', src, dst)
    ensures OwnerHolds(o) <==> OwnerHolds(o')
    ensures InHand(o) == InHand(o')
    ensures !Putting(o) && !Putting(o')
    ensures !o'.RetireCheck? && !o'.TryLoad? && !o'.TryCas?
    ensures src != Delayed ==> (Draining(o) <==> Draining(o')) && (Draining(o) ==> AllFreed(o) == AllFreed(o'))
    ensures dst == Taken <==> o'.CollectAppend?
    ensures src == Taken <==> o.CollectAppend?
  {
  }

  lemma MovePass(s: State, s': State, src: ListId, dst: ListId)
    requires OwnerInv(s) && PassInv(s) && Moved(s, s', src, dst) && MoveTurn(s.owner, s'.owner, src, dst)
    requires MoveRest(s, s', src, dst)
    ensures PassInv(s')
  {
    MoveHands(s.owner, s'.owner, src, dst);
    if src == Delayed {
      assert Handled([]) + [] + Lst(s'.list, Drained) == Lst(s'.list, Drained);
      assert Lst(s.list, Delayed) + Lst(s.list, Drained) == Lst(s.list, Delayed);
    }
  }

  lemma MovePlace(s: State, s': State, src: ListId, dst: ListId, c: Addr)
    requires PlaceOk(s, c) && Moved(s, s', src, dst) && MoveTurn(s.owner, s'.owner, src, dst)
    requires c in Lst(s.list, src) ==> Plc(s.place, c) == In(src)
    ensures PlaceOk(s', c)
  {
    if c in Lst(s.list, src) {
      assert c in Lst(s'.list, dst);
    }
  }

  lemma MoveRep(s: State, s': State, src: ListId, dst: ListId, c: Addr)
    requires BlockInv(s, c) && Moved(s, s', src, dst) && MoveTurn(s.owner, s'.owner, src, dst)
    requires c in Lst(s.list, src) ==> Plc(s.place, c) == In(src)
    ensures RepOk(s', c) && BlockOk(s', c)
  {
    assert IsRep(s', c) ==> IsRep(s, c);
  }

  lemma MoveThread(s: State, s': State, src: ListId, dst: ListId, u: Tid)
    requires ThreadInv(s, u) && Moved(s, s', src, dst) && ListInv(s, src)
    ensures ThreadInv(s', u)
  {
    var f := Fr(s.freers, u);
    if Holds(f) {
      assert f.b !in Lst(s.list, src);
      assert Next(s'.mem, f.b) == Next(s.mem, f.b);
    }
  }

  lemma MovePage(s: State, s': State, src: ListId, dst: ListId, q: Page)
    requires PageInv(s, q) && Moved(s, s', src, dst) && MoveTurn(s.owner, s'.owner, src, dst)
    requires ListInv(s, src) && CountOk(s', q)
    ensures PageInv(s', q)
  {
    MoveWait(s, s', src, dst, q);
    assert WakeOk(s', q);
  }

  lemma MoveWait(s: State, s': State, src: ListId, dst: ListId, q: Page)
    requires WaitOk(s, q) && Moved(s, s', src, dst) && MoveTurn(s.owner, s'.owner, src, dst)
    requires ListInv(s, src)
    ensures WaitOk(s', q)
  {
    var r := Rep(s.rep, q);
    if r in Lst(s.list, src) {
      assert Plc(s.place, r) == In(src);
    }
  }

  // ---- Each move ----

  lemma TookAll(s: State, s': State, src: ListId, dst: ListId)
    requires src != dst && Lst(s.list, dst) == [] && s'.mem == s.mem
    requires s'.list == TakeAll(s, src, dst).list && s'.place == TakeAll(s, src, dst).place
    requires s'.home == s.home && s'.span == s.span && s'.cap == s.cap && s'.bits == s.bits
    requires s'.rep == s.rep && s'.window == s.window && s'.freers == s.freers
    ensures Moved(s, s', src, dst)
  {
    RelocatePlaces(s.place, Lst(s.list, src), In(dst));
    assert Lst(s.list, src) + Lst(s.list, dst) == Lst(s.list, src);
  }

  lemma AppendedAll(s: State, s': State, src: ListId, dst: ListId)
    requires src != dst && Lst(s.list, src) != [] && ListInv(s, src)
    requires s'.mem == AppendAll(s, src, dst).mem
    requires s'.list == AppendAll(s, src, dst).list && s'.place == AppendAll(s, src, dst).place
    requires s'.home == s.home && s'.span == s.span && s'.cap == s.cap && s'.bits == s.bits
    requires s'.rep == s.rep && s'.window == s.window && s'.freers == s.freers
    ensures Moved(s, s', src, dst)
  {
    RelocatePlaces(s.place, Lst(s.list, src), In(dst));
    assert Lst(s.list, src)[|Lst(s.list, src)| - 1] in Lst(s.list, src);
  }

  /** The counts of a page after a move between its lists, or out of no list of its own. */
  lemma MoveCount(s: State, s': State, src: ListId, dst: ListId, q: Page)
    requires CountOk(s, q) && Moved(s, s', src, dst) && MoveTurn(s.owner, s'.owner, src, dst)
    requires MoveRest(s, s', src, dst)
    ensures CountOk(s', q)
  {
  }

  lemma CollectTakeKeeps(s: State)
    requires Inv(s) && s.owner.CollectTake? && Hd(s.head, ThreadOf(s.owner.p)) != NULL
    ensures Inv(ApplyOwner(s, true))
  {
    HeadNull(s, ThreadOf(s.owner.p));
    Take(s, ApplyOwner(s, true), ThreadOf(s.owner.p), Taken);
  }

  lemma DrainSwapKeeps(s: State)
    requires Inv(s) && s.owner.DrainSwap?
    ensures Inv(ApplyOwner(s, true))
  {
    Take(s, ApplyOwner(s, true), Delayed, Drained);
  }

  lemma Take(s: State, s': State, src: ListId, dst: ListId)
    requires Inv(s) && src != dst && Lst(s.list, dst) == [] && MoveTurn(s.owner, s'.owner, src, dst)
    requires MoveRest(s, s', src, dst)
    requires s' == TakeAll(s, src, dst).(used := s'.used, owner := s'.owner, orig := s'.orig, done := s'.done)
    ensures Inv(s')
  {
    TakeLists(s, s', src, dst);
    TookAll(s, s', src, dst);
    MoveKeeps(s, s', src, dst);
  }

  lemma Append(s: State, s': State, src: ListId, dst: ListId)
    requires Inv(s) && src != dst && Lst(s.list, src) != [] && MoveTurn(s.owner, s'.owner, src, dst)
    requires MoveRest(s, s', src, dst)
    requires s' == AppendAll(s, src, dst).(used := s'.used, owner := s'.owner, orig := s'.orig, done := s'.done)
    ensures Inv(s')
  {
    assert ListInv(s, src);
    AppendLists(s, s', src, dst);
    AppendedAll(s, s', src, dst);
    MoveKeeps(s, s', src, dst);
  }

  lemma CollectAppendKeeps(s: State)
    requires Inv(s) && s.owner.CollectAppend?
    ensures Inv(ApplyOwner(s, true))
  {
    Append(s, ApplyOwner(s, true), Taken, LocalOf(s.owner.p));
  }

  lemma CollectMoveKeeps(s: State)
    requires Inv(s) && s.owner.CollectMove?
    ensures Inv(ApplyOwner(s, true))
  {
    var o := s.owner;
    HeadNull(s, LocalOf(o.p));
    HeadNull(s, FreeOf(o.p));
    MoveLists(s, ApplyOwner(s, true), o.p, Resume(o.p, o.then_));
  }

  /** The three ways `page_free_collect` ends: nothing to move, a swap, or an append when forced. */
  lemma MoveLists(s: State, s': State, p: Page, o': Owner)
    requires Inv(s) && s.owner.CollectMove? && s.owner.p == p && o' == Resume(p, s.owner.then_)
    requires || s' == s.(owner := o')
             || (Lst(s.list, FreeOf(p)) == [] && s' == TakeAll(s, LocalOf(p), FreeOf(p)).(owner := o'))
             || (Lst(s.list, LocalOf(p)) != [] && s' == AppendAll(s, LocalOf(p), FreeOf(p)).(owner := o'))
    ensures Inv(s')
  {
    if s' == s.(owner := o') {
      ResumeTurn(s, s', o');
    } else if Lst(s.list, FreeOf(p)) == [] && s' == TakeAll(s, LocalOf(p), FreeOf(p)).(owner := o') {
      Take(s, s', LocalOf(p), FreeOf(p));
    } else {
      Append(s, s', LocalOf(p), FreeOf(p));
    }
  }

  lemma ResumeTurn(s: State, s': State, o': Owner)
    requires Inv(s) && s.owner.CollectMove? && o' == Resume(s.owner.p, s.owner.then_)
    requires s' == s.(owner := o')
    ensures Inv(s')
  {
    ResumeOwner(s, s', o');
    OwnerTurn(s, s', o');
  }

  lemma ResumeOwner(s: State, s': State, o': Owner)
    requires OwnerInv(s) && PassInv(s) && s.owner.CollectMove? && o' == Resume(s.owner.p, s.owner.then_)
    requires s' == s.(owner := o')
    ensures OwnerInv(s') && PassInv(s') && SameHands(s.owner, o')
  {
  }
}
