/**
 * Every step of a thread inside `free_block_mt`, and of the user of a live block, keeps the
 * invariant.
 */
module ProtocolFreers {
  import opened Chains
  import opened Protocol
  import opened ProtocolInv

  // ---- The user hands a live block to a freeing thread ----

  /** Thread `t` has got the live block `b` to free. */
  ghost predicate Grabbed(s: State, s': State, t: Tid, b: Addr) {
    && Plc(s.place, b).Live? && Fr(s.freers, t).Idle?
    && s' == s.(freers := s.freers[t := Loading(b, Home(s.home, b))], place := s.place[b := Held(t)])
  }

  lemma FreeStartKeeps(s: State, t: Tid, b: Addr)
    requires Inv(s) && Enabled(s, FreeStart(t, b))
    ensures Inv(Apply(s, FreeStart(t, b)))
  {
    PageOfIs(s, b);
    Grab(s, Apply(s, FreeStart(t, b)), t, b);
  }

  lemma Grab(s: State, s': State, t: Tid, b: Addr)
    requires Inv(s) && Grabbed(s, s', t, b)
    ensures Inv(s')
  {
    assert ThreadInv(s, t);
    PlaceLists(s, s', b, Held(t));
    forall c ensures BlockInv(s', c) { assert BlockInv(s, c); GrabBlock(s, s', t, b, c); }
    forall u ensures ThreadInv(s', u) { assert ThreadInv(s, u); GrabThread(s, s', t, b, u); }
    forall q ensures PageInv(s', q) { assert PageInv(s, q); GrabPage(s, s', t, b, q); }
    SpansFrame(s, s');
    OwnerFrame(s, s');
  }

  lemma GrabBlock(s: State, s': State, t: Tid, b: Addr, c: Addr)
    requires BlockInv(s, c) && ThreadInv(s, t) && Grabbed(s, s', t, b)
    ensures BlockInv(s', c)
  {
  }

  lemma GrabThread(s: State, s': State, t: Tid, b: Addr, u: Tid)
    requires ThreadInv(s, u) && ThreadInv(s, t) && Grabbed(s, s', t, b)
    ensures ThreadInv(s', u)
  {
  }

  lemma GrabPage(s: State, s': State, t: Tid, b: Addr, q: Page)
    requires PageInv(s, q) && ThreadInv(s, t) && Grabbed(s, s', t, b)
    ensures PageInv(s', q)
  {
  }

  // ---- Steps that change only the program counter of a thread ----

  /** Thread `t` goes on to `f` with the same block of the same page, in its window or not as before. */
  ghost predicate GoesOn(s: State, s': State, t: Tid, f: Freer) {
    && Holds(Fr(s.freers, t)) && Holds(f) && FreerOk(s', t)
    && f.b == Fr(s.freers, t).b && f.p == Fr(s.freers, t).p
    && (HoldsInWindow(f) <==> HoldsInWindow(Fr(s.freers, t)))
  }

  ghost predicate Turned(s: State, s': State, t: Tid, f: Freer) {
    GoesOn(s, s', t, f) && s' == s.(freers := s.freers[t := f])
  }

  lemma TurnKeeps(s: State, s': State, t: Tid, f: Freer)
    requires Inv(s) && Turned(s, s', t, f)
    ensures Inv(s')
  {
    assert ThreadInv(s, t);
    ListsFrame(s, s');
    forall c ensures BlockInv(s', c) { assert BlockInv(s, c); TurnBlock(s, s', t, f, c); }
    forall u ensures ThreadInv(s', u) { assert ThreadInv(s, u); TurnThread(s, s', t, f, u); }
    forall q ensures PageInv(s', q) { assert PageInv(s, q); TurnPage(s, s', t, f, q); }
    SpansFrame(s, s');
    OwnerFrame(s, s');
  }

  lemma TurnBlock(s: State, s': State, t: Tid, f: Freer, c: Addr)
    requires BlockInv(s, c) && ThreadInv(s, t) && Turned(s, s', t, f)
    ensures BlockInv(s', c)
  {
  }

  lemma TurnThread(s: State, s': State, t: Tid, f: Freer, u: Tid)
    requires ThreadInv(s, u) && ThreadInv(s, t) && Turned(s, s', t, f)
    ensures ThreadInv(s', u)
  {
  }

  lemma TurnPage(s: State, s': State, t: Tid, f: Freer, q: Page)
    requires PageInv(s, q) && ThreadInv(s, t) && Turned(s, s', t, f)
    ensures PageInv(s', q)
  {
  }

  lemma LoadKeeps(s: State, t: Tid)
    requires Inv(s) && Fr(s.freers, t).Loading?
    ensures Inv(ApplyFreer(s, t, true))
  {
    assert ThreadInv(s, t);
    TurnKeeps(s, ApplyFreer(s, t, true), t, Fr(ApplyFreer(s, t, true).freers, t));
  }

  lemma DelayLoadKeeps(s: State, t: Tid)
    requires Inv(s) && Fr(s.freers, t).DelayLoading?
    ensures Inv(ApplyFreer(s, t, true))
  {
    assert ThreadInv(s, t);
    TurnKeeps(s, ApplyFreer(s, t, true), t, Fr(ApplyFreer(s, t, true).freers, t));
  }

  lemma FailedCasKeeps(s: State, t: Tid)
    requires Inv(s)
    requires Fr(s.freers, t).Pushing? || Fr(s.freers, t).Entering? || Fr(s.freers, t).DelayPushing?
    ensures Inv(ApplyFreer(s, t, false))
  {
    assert ThreadInv(s, t);
    TurnKeeps(s, ApplyFreer(s, t, false), t, Fr(ApplyFreer(s, t, false).freers, t));
  }

  // ---- Writing the next pointer into the block in hand ----

  lemma LinkKeeps(s: State, t: Tid)
    requires Inv(s) && (Fr(s.freers, t).Linking? || Fr(s.freers, t).DelayLinking?)
    ensures Inv(ApplyFreer(s, t, true))
  {
    var f := Fr(s.freers, t);
    assert ThreadInv(s, t);
    if f.Linking? {
      WriteOwn(s, ApplyFreer(s, t, true), t, f.w.ptr, Pushing(f.b, f.p, f.w));
    } else {
      WriteOwn(s, ApplyFreer(s, t, true), t, f.next, DelayPushing(f.b, f.p, f.next));
    }
  }

  ghost predicate WroteOwn(s: State, s': State, t: Tid, v: Addr, f: Freer) {
    GoesOn(s, s', t, f) && s' == s.(mem := s.mem[f.b := v], freers := s.freers[t := f])
  }

  /** A thread writes only into its own block, so it disturbs no chain and no other thread. */
  lemma WriteOwn(s: State, s': State, t: Tid, v: Addr, f: Freer)
    requires Inv(s) && WroteOwn(s, s', t, v, f)
    ensures Inv(s')
  {
    assert ThreadInv(s, t);
    WriteLists(s, s', f.b, v);
    forall c ensures BlockInv(s', c) { assert BlockInv(s, c); WriteOwnBlock(s, s', t, v, f, c); }
    forall u ensures ThreadInv(s', u) { assert ThreadInv(s, u); WriteOwnThread(s, s', t, v, f, u); }
    forall q ensures PageInv(s', q) { assert PageInv(s, q); WriteOwnPage(s, s', t, v, f, q); }
    SpansFrame(s, s');
    OwnerFrame(s, s');
  }

  lemma WriteOwnBlock(s: State, s': State, t: Tid, v: Addr, f: Freer, c: Addr)
    requires BlockInv(s, c) && ThreadInv(s, t) && WroteOwn(s, s', t, v, f)
    ensures BlockInv(s', c)
  {
  }

  lemma WriteOwnThread(s: State, s': State, t: Tid, v: Addr, f: Freer, u: Tid)
    requires ThreadInv(s, u) && ThreadInv(s, t) && WroteOwn(s, s', t, v, f)
    ensures ThreadInv(s', u)
  {
  }

  lemma WriteOwnPage(s: State, s': State, t: Tid, v: Addr, f: Freer, q: Page)
    requires PageInv(s, q) && ThreadInv(s, t) && WroteOwn(s, s', t, v, f)
    ensures PageInv(s', q)
  {
  }

  // ---- The successful pushes ----

  /** What a thread may push where: onto its page's `thread_free` outside the window, then it is
      done; onto the delayed list inside the window, then it leaves. */
  ghost predicate MayPush(s: State, f: Freer, id: ListId, f': Freer) {
    && Holds(f) && Next(s.mem, f.b) == Hd(s.head, id)
    && (|| (id == ThreadOf(f.p) && !HoldsInWindow(f) && f' == Idle && !Bits(s.bits, f.p).UseDelayedFree?)
        || (id == Delayed && HoldsInWindow(f) && f' == Leaving(f.p)))
  }

  /** Thread `t` has pushed its block onto `id` and moved on to `f'`. */
  ghost predicate HandedOver(s: State, s': State, t: Tid, f: Freer, id: ListId, f': Freer) {
    && f == Fr(s.freers, t) && MayPush(s, f, id, f')
    && s' == s.(head := s.head[id := f.b], list := s.list[id := [f.b] + Lst(s.list, id)],
                place := s.place[f.b := In(id)], freers := s.freers[t := f'])
  }

  lemma HandOver(s: State, s': State, t: Tid, f: Freer, id: ListId, f': Freer)
    requires Inv(s) && HandedOver(s, s', t, f, id, f')
    ensures Inv(s')
  {
    assert ThreadInv(s, t);
    BornNotNull(s, f.b);
    PushLists(s, s', id, f.b);
    forall c ensures BlockInv(s', c) {
      assert BlockInv(s, c);
      HandOverPlace(s, s', t, f, id, f', c);
      HandOverRep(s, s', t, f, id, f', c);
    }
    forall u ensures ThreadInv(s', u) { assert ThreadInv(s, u); HandOverThread(s, s', t, f, id, f', u); }
    forall q ensures PageInv(s', q) {
      assert PageInv(s, q) && BlockInv(s, Rep(s.rep, q));
      HandOverPage(s, s', t, f, id, f', q);
    }
    SpansFrame(s, s');
    OwnerFrame(s, s');
  }

  lemma HandOverPlace(s: State, s': State, t: Tid, f: Freer, id: ListId, f': Freer, c: Addr)
    requires PlaceOk(s, c) && FreerOk(s, t) && HandedOver(s, s', t, f, id, f')
    ensures PlaceOk(s', c)
  {
    assert Lst(s'.list, id) == [f.b] + Lst(s.list, id);
  }

  lemma HandOverRep(s: State, s': State, t: Tid, f: Freer, id: ListId, f': Freer, c: Addr)
    requires BlockInv(s, c) && FreerOk(s, t) && HandedOver(s, s', t, f, id, f')
    ensures RepOk(s', c) && BlockOk(s', c)
  {
  }

  lemma HandOverThread(s: State, s': State, t: Tid, f: Freer, id: ListId, f': Freer, u: Tid)
    requires ThreadInv(s, u) && ThreadInv(s, t) && HandedOver(s, s', t, f, id, f')
    ensures ThreadInv(s', u)
  {
    if u == t {
      assert Fr(s'.freers, u) == f';
    } else {
      HandOverOther(s, s', t, f, id, f', u);
    }
  }

  lemma HandOverOther(s: State, s': State, t: Tid, f: Freer, id: ListId, f': Freer, u: Tid)
    requires ThreadInv(s, u) && ThreadInv(s, t) && HandedOver(s, s', t, f, id, f') && u != t
    ensures ThreadInv(s', u)
  {
    assert Fr(s'.freers, u) == Fr(s.freers, u);
  }

  lemma HandOverPage(s: State, s': State, t: Tid, f: Freer, id: ListId, f': Freer, q: Page)
    requires PageInv(s, q) && PlaceOk(s, Rep(s.rep, q)) && FreerOk(s, t) && HandedOver(s, s', t, f, id, f')
    ensures PageInv(s', q)
  {
    HandOverDelay(s, s', t, f, id, f', q);
    assert WakeOk(s', q) && CountOk(s', q);
  }

  lemma HandOverDelay(s: State, s': State, t: Tid, f: Freer, id: ListId, f': Freer, q: Page)
    requires DelayOk(s, q) && PlaceOk(s, Rep(s.rep, q)) && FreerOk(s, t) && HandedOver(s, s', t, f, id, f')
    ensures DelayOk(s', q)
  {
    if IsRep(s, Rep(s.rep, q)) {
      RepStays(s, s', t, f, id, f', Rep(s.rep, q));
    }
    assert FreeingOk(s', q);
  }

  /** A delayed block that is pushed, or that another thread holds, stays one. */
  lemma RepStays(s: State, s': State, t: Tid, f: Freer, id: ListId, f': Freer, c: Addr)
    requires IsRep(s, c) && PlaceOk(s, c) && FreerOk(s, t) && HandedOver(s, s', t, f, id, f')
    ensures IsRep(s', c)
  {
    if c == f.b {
      assert Plc(s'.place, c) == In(id);
    } else {
      assert Plc(s'.place, c) == Plc(s.place, c);
    }
  }

  /** The successful compare-exchange onto `thread_free`. */
  lemma PushStepKeeps(s: State, t: Tid)
    requires Inv(s) && Enabled(s, FreePush(t, true))
    ensures Inv(ApplyFreer(s, t, true))
  {
    assert ThreadInv(s, t);
    HandOver(s, ApplyFreer(s, t, true), t, Fr(s.freers, t), ThreadOf(Fr(s.freers, t).p), Idle);
  }

  /** The successful compare-exchange onto the heap's delayed list. */
  lemma DelayPushKeeps(s: State, t: Tid)
    requires Inv(s) && Enabled(s, DelayPush(t, true))
    ensures Inv(ApplyFreer(s, t, true))
  {
    assert ThreadInv(s, t);
    HandOver(s, ApplyFreer(s, t, true), t, Fr(s.freers, t), Delayed, Leaving(Fr(s.freers, t).p));
  }

  // ---- Entering and leaving the window ----

  /** The successful compare-exchange from UseDelayedFree to Freeing. */
  lemma EnterKeeps(s: State, t: Tid)
    requires Inv(s) && Enabled(s, FreeEnter(t, true))
    ensures Inv(ApplyFreer(s, t, true))
  {
    assert ThreadInv(s, t);
    Enter(s, ApplyFreer(s, t, true), t, Fr(s.freers, t));
  }

  /** Thread `t`, at `f`, has entered the window of its page. */
  ghost predicate Entered(s: State, s': State, t: Tid, f: Freer) {
    && f == Fr(s.freers, t) && f.Entering? && Bits(s.bits, f.p).UseDelayedFree?
    && s' == s.(bits := s.bits[f.p := Freeing], rep := s.rep[f.p := f.b], window := s.window[f.p := t],
                freers := s.freers[t := DelayLoading(f.b, f.p)])
  }

  lemma Enter(s: State, s': State, t: Tid, f: Freer)
    requires Inv(s) && Entered(s, s', t, f)
    ensures Inv(s')
  {
    assert ThreadInv(s, t);
    ListsFrame(s, s');
    forall c ensures BlockInv(s', c) { assert BlockInv(s, c); EnterBlock(s, s', t, f, c); }
    forall u ensures ThreadInv(s', u) { assert ThreadInv(s, u); EnterThread(s, s', t, f, u); }
    forall q ensures PageInv(s', q) { assert PageInv(s, q); EnterPage(s, s', t, f, q); }
    SpansFrame(s, s');
    OwnerFrame(s, s');
  }

  lemma EnterBlock(s: State, s': State, t: Tid, f: Freer, c: Addr)
    requires BlockInv(s, c) && ThreadInv(s, t) && Entered(s, s', t, f)
    ensures BlockInv(s', c)
  {
  }

  lemma EnterThread(s: State, s': State, t: Tid, f: Freer, u: Tid)
    requires ThreadInv(s, u) && ThreadInv(s, t) && Entered(s, s', t, f)
    ensures ThreadInv(s', u)
  {
  }

  lemma EnterPage(s: State, s': State, t: Tid, f: Freer, q: Page)
    requires PageInv(s, q) && ThreadInv(s, t) && Entered(s, s', t, f)
    ensures PageInv(s', q)
  {
    if q == f.p {
      EnterOwnPage(s, s', t, f);
    } else {
      EnterOtherWait(s, s', t, f, q);
      EnterOtherFreeing(s, s', t, f, q);
    }
    assert WakeOk(s', q) && CountOk(s', q);
  }

  lemma EnterOwnPage(s: State, s': State, t: Tid, f: Freer)
    requires FreerOk(s, t) && Entered(s, s', t, f)
    ensures DelayOk(s', f.p)
  {
    assert Rep(s'.rep, f.p) == f.b && Window(s'.window, f.p) == t;
  }

  lemma EnterOtherWait(s: State, s': State, t: Tid, f: Freer, q: Page)
    requires WaitOk(s, q) && Entered(s, s', t, f) && q != f.p
    ensures WaitOk(s', q)
  {
    assert Bits(s'.bits, q) == Bits(s.bits, q) && Rep(s'.rep, q) == Rep(s.rep, q);
  }

  lemma EnterOtherFreeing(s: State, s': State, t: Tid, f: Freer, q: Page)
    requires FreeingOk(s, q) && Entered(s, s', t, f) && q != f.p
    ensures FreeingOk(s', q)
  {
    assert Bits(s'.bits, q) == Bits(s.bits, q) && Window(s'.window, q) == Window(s.window, q);
  }

  /** `fetch_xor(3)` finds the bits at Freeing and leaves them at NoDelayedFree. */
  lemma LeaveKeeps(s: State, t: Tid)
    requires Inv(s) && Fr(s.freers, t).Leaving?
    ensures Bits(s.bits, Fr(s.freers, t).p).Freeing?
    ensures Bits(ApplyFreer(s, t, true).bits, Fr(s.freers, t).p).NoDelayedFree?
    ensures Inv(ApplyFreer(s, t, true))
  {
    assert ThreadInv(s, t);
    Exit(s, ApplyFreer(s, t, true), t, Fr(s.freers, t).p);
  }

  /** Thread `t` has left the window of page `p`. */
  ghost predicate Exited(s: State, s': State, t: Tid, p: Page) {
    && Fr(s.freers, t) == Leaving(p) && Bits(s.bits, p).Freeing?
    && s' == s.(bits := s.bits[p := NoDelayedFree], freers := s.freers[t := Idle])
  }

  lemma Exit(s: State, s': State, t: Tid, p: Page)
    requires Inv(s) && Exited(s, s', t, p)
    ensures Inv(s')
  {
    assert ThreadInv(s, t);
    ListsFrame(s, s');
    forall c ensures BlockInv(s', c) { assert BlockInv(s, c); ExitBlock(s, s', t, p, c); }
    forall u ensures ThreadInv(s', u) { assert ThreadInv(s, u); ExitThread(s, s', t, p, u); }
    forall q ensures PageInv(s', q) { assert PageInv(s, q); ExitPage(s, s', t, p, q); }
    SpansFrame(s, s');
    OwnerFrame(s, s');
  }

  lemma ExitBlock(s: State, s': State, t: Tid, p: Page, c: Addr)
    requires BlockInv(s, c) && ThreadInv(s, t) && Exited(s, s', t, p)
    ensures BlockInv(s', c)
  {
  }

  lemma ExitThread(s: State, s': State, t: Tid, p: Page, u: Tid)
    requires ThreadInv(s, u) && ThreadInv(s, t) && Exited(s, s', t, p)
    ensures ThreadInv(s', u)
  {
  }

  lemma ExitPage(s: State, s': State, t: Tid, p: Page, q: Page)
    requires PageInv(s, q) && ThreadInv(s, t) && Exited(s, s', t, p)
    ensures PageInv(s', q)
  {
  }

  // ---- The user writes into a block it owns ----

  lemma ScribbleKeeps(s: State, b: Addr, v: Addr)
    requires Inv(s) && Enabled(s, Scribble(b, v))
    ensures Inv(Apply(s, Scribble(b, v)))
  {
    var s' := Apply(s, Scribble(b, v));
    WriteLists(s, s', b, v);
    forall c ensures BlockInv(s', c) { assert BlockInv(s, c); }
    forall u ensures ThreadInv(s', u) { assert ThreadInv(s, u); }
    forall p ensures PageInv(s', p) { assert PageInv(s, p); }
    SpansFrame(s, s');
    OwnerFrame(s, s');
  }
}
