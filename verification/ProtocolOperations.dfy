/**
 * What each operation of the protocol does to the lists, the counters and the blocks of the user, said of what walking
 * memory meets before and after it.
 */
module ProtocolOperations {
  import opened Chains
  import opened Protocol
  import opened ProtocolInv
  import opened ProtocolPages
  import opened ProtocolRuns
  import opened ProtocolTheorems
  import opened ProtocolPasses
  import opened ProtocolProgress
  import opened ProtocolCollect

  // ---- Vocabulary ----

  /** List `id` has become `l`, and every other list is as it was. */
  ghost predicate Becomes(s: State, s': State, id: ListId, l: seq<Addr>) {
    && Chain(s'.mem, Hd(s'.head, id), l)
    && forall k, r :: k != id && Chain(s.mem, Hd(s.head, k), r) ==> Chain(s'.mem, Hd(s'.head, k), r)
  }

  lemma BecomesIs(s: State, s': State, id: ListId)
    requires ListsInv(s) && ListsInv(s') && forall k :: k != id ==> Lst(s'.list, k) == Lst(s.list, k)
    ensures Becomes(s, s', id, Lst(s'.list, id))
  {
    assert ListInv(s', id);
    forall k, r | k != id && Chain(s.mem, Hd(s.head, k), r) ensures Chain(s'.mem, Hd(s'.head, k), r) {
      assert ListInv(s, k) && ListInv(s', k);
      ChainUnique(s.mem, Hd(s.head, k), r, Lst(s.list, k));
    }
  }

  lemma ListIs(s: State, id: ListId, l: seq<Addr>)
    requires ListsInv(s) && Chain(s.mem, Hd(s.head, id), l)
    ensures Lst(s.list, id) == l
  {
    assert ListInv(s, id);
    ChainUnique(s.mem, Hd(s.head, id), l, Lst(s.list, id));
  }

  /** The counters of every page but `p`, the pages and the threads are as they were. */
  ghost predicate OnlyPage(s: State, s': State, p: Page) {
    && s'.span == s.span && s'.bits == s.bits && s'.freers == s.freers && s'.owner == s.owner
    && forall q :: q != p ==> Used(s'.used, q) == Used(s.used, q) && Cap(s'.cap, q) == Cap(s.cap, q)
  }

  /** The user has the same blocks as before, apart from `b`. */
  ghost predicate SameLive(s: State, s': State, b: Addr) {
    forall c :: c != b ==> (Plc(s'.place, c).Live? <==> Plc(s.place, c).Live?)
  }

  // ---- Operations of the owner ----

  /** Allocating succeeds if and only if the page has a free block; it takes the first one and counts it. */
  lemma MallocPops(s: State, p: Page, l: seq<Addr>)
    requires Reachable(s) && s.owner.Ready? && Chain(s.mem, Hd(s.head, FreeOf(p)), l)
    ensures Enabled(s, Malloc(p)) <==> l != []
    ensures l != [] ==>
              var s' := Apply(s, Malloc(p));
              && Becomes(s, s', FreeOf(p), l[1..]) && OnlyPage(s, s', p) && SameLive(s, s', l[0])
              && Plc(s'.place, l[0]).Live?
              && Used(s'.used, p) == Used(s.used, p) + 1 && Cap(s'.cap, p) == Cap(s.cap, p)
  {
    ReachableInv(s);
    ListIs(s, FreeOf(p), l);
    if l != [] {
      var s' := Apply(s, Malloc(p));
      StepKeepsInv(s, Malloc(p), s');
      PopIs(s, p, l, s');
      BecomesIs(s, s', FreeOf(p));
    }
  }

  lemma PopIs(s: State, p: Page, l: seq<Addr>, s': State)
    requires Lst(s.list, FreeOf(p)) == l != [] && Hd(s.head, FreeOf(p)) == l[0] && s' == Apply(s, Malloc(p))
    ensures Lst(s'.list, FreeOf(p)) == l[1..] && forall k :: k != FreeOf(p) ==> Lst(s'.list, k) == Lst(s.list, k)
    ensures OnlyPage(s, s', p) && SameLive(s, s', l[0]) && Plc(s'.place, l[0]).Live?
    ensures Used(s'.used, p) == Used(s.used, p) + 1 && Cap(s'.cap, p) == Cap(s.cap, p)
  {
  }

  /** Freeing on the owner's thread puts the block in front of the free list of the page found from its address, and
      counts it back. */
  lemma LocalFreePushes(s: State, b: Addr, l: seq<Addr>)
    requires Reachable(s) && s.owner.Ready? && Plc(s.place, b).Live?
    requires Chain(s.mem, Hd(s.head, FreeOf(PageOf(s.span, b))), l)
    ensures Enabled(s, LocalFree(b))
    ensures var p, s' := PageOf(s.span, b), Apply(s, LocalFree(b));
            && Becomes(s, s', FreeOf(p), [b] + l) && OnlyPage(s, s', p) && SameLive(s, s', b)
            && !Plc(s'.place, b).Live?
            && Used(s'.used, p) == Used(s.used, p) - 1 && Cap(s'.cap, p) == Cap(s.cap, p)
  {
    ReachableInv(s);
    var p, s' := PageOf(s.span, b), Apply(s, LocalFree(b));
    ListIs(s, FreeOf(p), l);
    StepKeepsInv(s, LocalFree(b), s');
    FreeIs(s, b, p, s');
    BecomesIs(s, s', FreeOf(p));
  }

  lemma FreeIs(s: State, b: Addr, p: Page, s': State)
    requires s' == FreeToPage(s, b, p)
    ensures Lst(s'.list, FreeOf(p)) == [b] + Lst(s.list, FreeOf(p))
    ensures forall k :: k != FreeOf(p) ==> Lst(s'.list, k) == Lst(s.list, k)
    ensures OnlyPage(s, s', p) && SameLive(s, s', b) && !Plc(s'.place, b).Live?
    ensures Used(s'.used, p) == Used(s.used, p) - 1 && Cap(s'.cap, p) == Cap(s.cap, p)
  {
  }

  /** The next `n` blocks of the page, `bs`, are in front of its free list, which was `l`, and count towards its
      capacity; nothing else has changed. */
  ghost predicate Carves(s: State, s': State, p: Page, n: nat, bs: seq<Addr>, l: seq<Addr>)
    requires p in s.span
  {
    && Becomes(s, s', FreeOf(p), bs + l)
    && AddressRun(bs, s.span[p].start + Cap(s.cap, p) * s.span[p].bsize, s.span[p].bsize, n)
    && OnlyPage(s, s', p) && (forall c :: Plc(s'.place, c).Live? <==> Plc(s.place, c).Live?)
    && Used(s'.used, p) == Used(s.used, p) && Cap(s'.cap, p) == Cap(s.cap, p) + n
  }

  /** Extending a page puts the next `n` blocks, in address order, in front of its free list. */
  lemma ExtendCarves(s: State, p: Page, n: nat, s': State, l: seq<Addr>)
    requires Reachable(s) && StepsTo(s, Extend(p, n), s') && Chain(s.mem, Hd(s.head, FreeOf(p)), l)
    ensures exists bs :: Carves(s, s', p, n, bs, l)
  {
    ReachableInv(s);
    StepKeepsInv(s, Extend(p, n), s');
    ExtendIs(s, p, n);
    ListIs(s, FreeOf(p), l);
    ExtensionCarves(s, s', p, n, NextBlocks(s, p, n));
  }

  lemma ExtensionCarves(s: State, s': State, p: Page, n: nat, bs: seq<Addr>)
    requires Inv(s) && Inv(s') && Extended(s, s', p, bs) && |bs| == n
    ensures Carves(s, s', p, n, bs, Lst(s.list, FreeOf(p)))
  {
    ExtensionIs(s, s', p, bs);
    assert RegularInv(s, p);
    RunOfBlocks(s.span[p], Cap(s.cap, p), n);
    EnlargedCarves(s, s', p, n, bs);
  }

  lemma EnlargedCarves(s: State, s': State, p: Page, n: nat, bs: seq<Addr>)
    requires ListsInv(s) && ListsInv(s') && p in s.span && Enlarged(s, s', p, bs)
    requires AddressRun(bs, s.span[p].start + Cap(s.cap, p) * s.span[p].bsize, s.span[p].bsize, n)
    ensures Carves(s, s', p, n, bs, Lst(s.list, FreeOf(p)))
  {
    BecomesIs(s, s', FreeOf(p));
  }

  /** The lists, counters and blocks of the user after an extension. */
  ghost predicate Enlarged(s: State, s': State, p: Page, bs: seq<Addr>) {
    && Lst(s'.list, FreeOf(p)) == bs + Lst(s.list, FreeOf(p))
    && (forall k :: k != FreeOf(p) ==> Lst(s'.list, k) == Lst(s.list, k))
    && OnlyPage(s, s', p) && (forall c :: Plc(s'.place, c).Live? <==> Plc(s.place, c).Live?)
    && Used(s'.used, p) == Used(s.used, p) && Cap(s'.cap, p) == Cap(s.cap, p) + |bs|
  }

  lemma ExtensionIs(s: State, s': State, p: Page, bs: seq<Addr>)
    requires Inv(s) && Extended(s, s', p, bs)
    ensures Enlarged(s, s', p, bs)
  {
    FreshBlocks(s, p, bs);
    CarveOut(s, s', p, bs);
    CarveIs(s, s', p, bs);
  }

  lemma CarveIs(s: State, s': State, p: Page, bs: seq<Addr>)
    requires Carved(s, s', p, bs)
    ensures Enlarged(s, s', p, bs)
  {
  }

  /** The `n` addresses from `first` on, `step` apart. */
  ghost predicate AddressRun(bs: seq<Addr>, first: nat, step: nat, n: nat) {
    |bs| == n && forall i :: 0 <= i < n ==> bs[i] == first + i * step
  }

  lemma RunOfBlocks(g: Span, cap: nat, n: nat)
    requires Regular(g) && cap + n <= |g.blocks|
    ensures AddressRun(g.blocks[cap..cap + n], g.start + cap * g.bsize, g.bsize, n)
  {
    var bs := g.blocks[cap..cap + n];
    forall i | 0 <= i < n ensures bs[i] == g.start + cap * g.bsize + i * g.bsize {
      assert bs[i] == g.blocks[cap + i];
      assert (cap + i) * g.bsize == cap * g.bsize + i * g.bsize;
    }
  }

  /** A page that is set up has no block yet, nothing to collect, and accepts delayed frees; every other page and every
      list is as it was. */
  ghost predicate Opens(s: State, s': State, p: Page, g: Span) {
    && s'.span == s.span[p := g] && s'.PageWord(p) == Word(NULL, UseDelayedFree)
    && Hd(s'.head, FreeOf(p)) == NULL && Hd(s'.head, LocalOf(p)) == NULL
    && Used(s'.used, p) == 0 && Cap(s'.cap, p) == 0
    && s'.mem == s.mem && s'.head == s.head && s'.place == s.place
    && forall q :: q != p ==> s'.PageWord(q) == s.PageWord(q) && Used(s'.used, q) == Used(s.used, q)
                              && Cap(s'.cap, q) == Cap(s.cap, q)
  }

  lemma EnableOpens(s: State, p: Page, g: Span, s': State)
    requires Reachable(s) && StepsTo(s, Enable(p, g), s')
    ensures Opens(s, s', p, g)
  {
    ReachableInv(s);
    NoBlocks(s, p);
    HeadNull(s, FreeOf(p));
    HeadNull(s, LocalOf(p));
    HeadNull(s, ThreadOf(p));
    EnableIs(s, p, g);
  }

  lemma EnableIs(s: State, p: Page, g: Span)
    requires Hd(s.head, FreeOf(p)) == NULL && Hd(s.head, LocalOf(p)) == NULL && Hd(s.head, ThreadOf(p)) == NULL
    ensures Opens(s, Apply(s, Enable(p, g)), p, g)
  {
  }

  /** The page has given its blocks up; every other list, page and block is untouched. */
  ghost predicate GivesUp(s: State, s': State, p: Page) {
    && s'.bits == s.bits && s'.freers == s.freers && s'.mem == s.mem && s'.used == s.used
    && Hd(s'.head, FreeOf(p)) == NULL && Hd(s'.head, LocalOf(p)) == NULL && Cap(s'.cap, p) == 0
    && (forall id :: id != FreeOf(p) && id != LocalOf(p) ==> Hd(s'.head, id) == Hd(s.head, id))
    && (forall q :: q != p ==> Cap(s'.cap, q) == Cap(s.cap, q))
    && (forall c :: Plc(s'.place, c).Live? <==> Plc(s.place, c).Live?)
  }

  /** A page with no block out can be retired: two steps of the owner give its blocks up and release it, and then the
      owner goes on where it was. */
  lemma RetireReleases(s: State, p: Page, s1: State, ok: bool, s': State)
    requires Reachable(s) && (s.owner.Ready? || s.owner.DrainNext?) && p in s.span && Used(s.used, p) == 0
    requires s1 == Apply(s, Retire(p)) && s' == Apply(s1, Run(ok))
    ensures StepsTo(s, Retire(p), s1) && StepsTo(s1, Run(ok), s')
    ensures s'.owner == s.owner && s'.span == s.span - {p} && GivesUp(s, s', p)
  {
    ReachableInv(s);
    RetireGives(s, p, s1);
    ReachableStep(s, Retire(p), s1);
    CheckStep(s1, ok, s');
    ReleasesToo(s, s1, s', p);
  }

  lemma CheckStep(s: State, ok: bool, s': State)
    requires Reachable(s) && s.owner.RetireCheck? && s' == Apply(s, Run(ok))
    ensures StepsTo(s, Run(ok), s') && s' == s.(span := s.span - {s.owner.p}, owner := s.owner.resume)
  {
    RetireCheckNeverSpins(s, ok);
    RunStepIs(s, ok);
    CheckReleases(s, ok);
  }

  lemma ReleasesToo(s: State, s1: State, s': State, p: Page)
    requires GivesUp(s, s1, p) && s1.owner == RetireCheck(p, s.owner) && s1.span == s.span
    requires s' == s1.(span := s1.span - {p}, owner := s.owner)
    ensures s'.owner == s.owner && s'.span == s.span - {p} && GivesUp(s, s', p)
  {
  }

  lemma RetireGives(s: State, p: Page, s1: State)
    requires Inv(s) && s1 == Apply(s, Retire(p))
    ensures s1.owner == RetireCheck(p, s.owner) && s1.span == s.span && GivesUp(s, s1, p)
  {
    FreeListsOf(s, p);
    RelocatePlaces(s.place, FreeLists(s, p), Unborn);
    RetirePlaces(s, p, s1);
    RetireLeaves(s, p, s1);
  }

  lemma RetirePlaces(s: State, p: Page, s1: State)
    requires s1 == Apply(s, Retire(p))
    requires forall b :: b in FreeLists(s, p) ==> !Plc(s.place, b).Live?
    requires forall b :: Plc(Relocate(s.place, FreeLists(s, p), Unborn), b)
                         == if b in FreeLists(s, p) then Unborn else Plc(s.place, b)
    ensures forall c :: Plc(s1.place, c).Live? <==> Plc(s.place, c).Live?
  {
    assert s1.place == Relocate(s.place, FreeLists(s, p), Unborn);
  }

  lemma RetireLeaves(s: State, p: Page, s1: State)
    requires s1 == Apply(s, Retire(p)) && forall c :: Plc(s1.place, c).Live? <==> Plc(s.place, c).Live?
    ensures s1.owner == RetireCheck(p, s.owner) && s1.span == s.span && GivesUp(s, s1, p)
  {
  }

  lemma CheckReleases(s: State, ok: bool)
    requires s.owner.RetireCheck? && Bits(s.bits, s.owner.p).UseDelayedFree?
    ensures ApplyOwner(s, ok) == s.(span := s.span - {s.owner.p}, owner := s.owner.resume)
  {
  }

  /** The user may write anything into a live block at any time, and the write happens; nothing but that word
      changes. */
  lemma UserWrites(s: State, b: Addr, v: Addr)
    requires Plc(s.place, b).Live?
    ensures Enabled(s, Scribble(b, v))
    ensures var s' := Apply(s, Scribble(b, v));
            s' == s.(mem := s'.mem) && forall a :: Next(s'.mem, a) == if a == b then v else Next(s.mem, a)
  {
  }

  // ---- A remote free, from its first step to its last ----

  /** In state `k` the block goes to the front of list `id`. */
  ghost predicate PushedAt(trace: seq<State>, k: nat, id: ListId, b: Addr) {
    k + 1 < |trace| && Pushed(trace[k], trace[k + 1], id, b)
  }

  /** With the step after `m` the page goes from UseDelayedFree to Freeing. */
  ghost predicate EnteredAt(trace: seq<State>, m: nat, p: Page) {
    && m + 1 < |trace|
    && Bits(trace[m].bits, p).UseDelayedFree? && Bits(trace[m + 1].bits, p).Freeing?
  }

  /** The page has a delayed block already, or is getting one. */
  ghost predicate NotUsing(trace: seq<State>, k: nat, p: Page) {
    k < |trace| && !Bits(trace[k].bits, p).UseDelayedFree?
  }

  /** What a step does to a thread that is freeing. */
  ghost predicate FreeStep(s: State, s': State, t: Tid) {
    var f, f' := Fr(s.freers, t), Fr(s'.freers, t);
    || f' == f
    || (&& Holds(f) && Holds(f') && f'.b == f.b && f'.p == f.p
        && (HoldsInWindow(f') ==>
              HoldsInWindow(f) || (Bits(s.bits, f.p).UseDelayedFree? && Bits(s'.bits, f.p).Freeing?)))
    || (f.Pushing? && f'.Idle? && Pushed(s, s', ThreadOf(f.p), f.b) && !Bits(s.bits, f.p).UseDelayedFree?)
    || (f.DelayPushing? && f' == Leaving(f.p) && Pushed(s, s', Delayed, f.b))
    || (f.Leaving? && f'.Idle?)
  }

  lemma OwnStep(s: State, t: Tid, ok: bool)
    requires Inv(s) && !Fr(s.freers, t).Idle?
    requires Fr(s.freers, t).Entering? && ok ==> s.PageWord(Fr(s.freers, t).p) == Fr(s.freers, t).w
    requires (Fr(s.freers, t).Pushing? || Fr(s.freers, t).DelayPushing?) ==> !ok
    ensures FreeStep(s, ApplyFreer(s, t, ok), t)
  {
    assert ThreadInv(s, t);
    if Fr(s.freers, t).Entering? && ok {
      EnterStep(s, t);
    } else {
      PlainStep(s, t, ok);
    }
  }

  lemma EnterStep(s: State, t: Tid)
    requires FreerOk(s, t) && Fr(s.freers, t).Entering? && s.PageWord(Fr(s.freers, t).p) == Fr(s.freers, t).w
    ensures FreeStep(s, ApplyFreer(s, t, true), t)
  {
  }

  lemma PlainStep(s: State, t: Tid, ok: bool)
    requires !Fr(s.freers, t).Idle? && (Fr(s.freers, t).Entering? ==> !ok)
    requires (Fr(s.freers, t).Pushing? || Fr(s.freers, t).DelayPushing?) ==> !ok
    ensures FreeStep(s, ApplyFreer(s, t, ok), t)
  {
    FreerCases(Fr(s.freers, t));
  }

  lemma OtherThread(s: State, t: Tid, u: Tid, ok: bool)
    requires t != u
    ensures Fr(ApplyFreer(s, u, ok).freers, t) == Fr(s.freers, t)
  {
    FreerCases(Fr(s.freers, u));
  }

  lemma PushStep(s: State, t: Tid, s': State)
    requires Reachable(s) && StepsTo(s, FreePush(t, true), s')
    ensures FreeStep(s, s', t)
  {
    ReachableInv(s);
    assert ThreadInv(s, t);
    AbaSafePush(s, t, s');
    PushEnds(s, t);
  }

  lemma PushEnds(s: State, t: Tid)
    requires Fr(s.freers, t).Pushing?
    ensures Fr(ApplyFreer(s, t, true).freers, t).Idle?
  {
  }

  lemma DelayPushStep(s: State, t: Tid, s': State)
    requires Reachable(s) && StepsTo(s, DelayPush(t, true), s')
    ensures FreeStep(s, s', t)
  {
    AbaSafeDelayPush(s, t, s');
    DelayPushEnds(s, t);
  }

  lemma DelayPushEnds(s: State, t: Tid)
    requires Fr(s.freers, t).DelayPushing?
    ensures Fr(ApplyFreer(s, t, true).freers, t) == Leaving(Fr(s.freers, t).p)
  {
  }

  lemma OwnStepIs(s: State, st: Step, s': State)
    requires Reachable(s) && StepsTo(s, st, s') && IsFreerStep(st)
    ensures FreeStep(s, s', st.t)
  {
    if st == FreePush(st.t, true) {
      PushStep(s, st.t, s');
    } else if st == DelayPush(st.t, true) {
      DelayPushStep(s, st.t, s');
    } else {
      ReachableInv(s);
      var ok := if st.FreePush? || st.FreeEnter? || st.DelayPush? then st.ok else true;
      OwnApply(s, st, ok);
      OwnStep(s, st.t, ok);
    }
  }

  lemma OwnApply(s: State, st: Step, ok: bool)
    requires IsFreerStep(st) && ok == if st.FreePush? || st.FreeEnter? || st.DelayPush? then st.ok else true
    ensures Apply(s, st) == ApplyFreer(s, st.t, ok)
  {
  }

  lemma OwnerKeepsThreads(s: State, ok: bool)
    requires ListsInv(s)
    ensures ApplyOwner(s, ok).freers == s.freers
  {
    if Collecting(s.owner) {
      CollectTurn(s, ok);
    } else if s.owner.DrainNext? {
      DrainTurn(s, ok);
    } else if s.owner.DrainSwap? {
      SwapTurn(s, ok);
    } else if s.owner.RetireCheck? {
      CheckKeepsThreads(s, ok);
    } else if s.owner.Ready? {
    } else if FailedCas(s, Run(ok)) {
      FailedRank(s);
    } else {
      HandleSteady(s, ok);
    }
  }

  lemma CheckKeepsThreads(s: State, ok: bool)
    requires s.owner.RetireCheck?
    ensures ApplyOwner(s, ok).freers == s.freers
  {
    if Bits(s.bits, s.owner.p).Freeing? {
    }
  }

  lemma FreeStepIs(s: State, st: Step, s': State, t: Tid)
    requires Reachable(s) && StepsTo(s, st, s') && !Fr(s.freers, t).Idle?
    ensures FreeStep(s, s', t)
  {
    if IsFreerStep(st) {
      if st.t == t { OwnStepIs(s, st, s'); } else { ElsewhereStep(s, st, t); }
    } else if st.Run? {
      ReachableInv(s);
      RunStepIs(s, st.ok);
      OwnerKeepsThreads(s, st.ok);
    } else {
      StepCases(st);
    }
  }

  lemma ElsewhereStep(s: State, st: Step, t: Tid)
    requires IsFreerStep(st) && st.t != t
    ensures Fr(Apply(s, st).freers, t) == Fr(s.freers, t)
  {
    var ok := if st.FreePush? || st.FreeEnter? || st.DelayPush? then st.ok else true;
    OwnApply(s, st, ok);
    OtherThread(s, t, st.t, ok);
  }

  /** From the call of `free` at `i` thread `t` is inside `free_block_mt` with block `b`, and `j` is the first state in
      which it is done. */
  ghost predicate FreeCall(trace: seq<State>, steps: seq<Step>, i: nat, j: nat, t: Tid, b: Addr) {
    && IsRun(trace, steps) && i < j < |trace| && steps[i] == FreeStart(t, b)
    && (forall k :: i < k < j ==> !Fr(trace[k].freers, t).Idle?) && Fr(trace[j].freers, t).Idle?
  }

  ghost predicate FreeStepAt(trace: seq<State>, k: nat, t: Tid) {
    k + 1 < |trace| && !Fr(trace[k].freers, t).Idle? && FreeStep(trace[k], trace[k + 1], t)
  }

  /** How far a free of `b` that began at `i` has come at `k`: `m` is where it entered its window and `n` where it put
      its block on the delayed list, once it has. */
  ghost predicate FreeUnderway(trace: seq<State>, i: nat, k: nat, t: Tid, b: Addr, p: Page, m: nat, n: nat)
    requires k < |trace|
  {
    var f := Fr(trace[k].freers, t);
    && (Holds(f) ==> f.b == b && f.p == p)
    && (HoldsInWindow(f) ==> i < m < k && EnteredAt(trace, m, p))
    && (f.Leaving? ==> f.p == p && i < m < n < k && EnteredAt(trace, m, p) && PushedAt(trace, n, Delayed, b))
  }

  lemma {:induction false} FreeGoesOn(trace: seq<State>, i: nat, k: nat, t: Tid, b: Addr, p: Page)
    returns (m: nat, n: nat)
    requires i < k < |trace| && Fr(trace[i + 1].freers, t) == Loading(b, p) && !Fr(trace[k].freers, t).Idle?
    requires forall x :: i < x < k ==> FreeStepAt(trace, x, t)
    ensures FreeUnderway(trace, i, k, t, b, p, m, n)
  {
    if k == i + 1 {
      m, n := 0, 0;
    } else {
      assert FreeStepAt(trace, k - 1, t);
      m, n := FreeGoesOn(trace, i, k - 1, t, b, p);
      var f, f' := Fr(trace[k - 1].freers, t), Fr(trace[k].freers, t);
      if HoldsInWindow(f') && !HoldsInWindow(f) { m := k - 1; }
      if f'.Leaving? && !f.Leaving? { n := k - 1; }
    }
  }

  /** A remote free ends by putting the block on one of two lists: on `thread_free` of its page, if the page had or
      was getting a delayed block, and otherwise on the heap's delayed list, after the page went from UseDelayedFree to
      Freeing. */
  ghost predicate FreedAt(trace: seq<State>, i: nat, j: nat, p: Page, b: Addr, m: nat, k: nat) {
    && i < k < j
    && (|| (PushedAt(trace, k, ThreadOf(p), b) && NotUsing(trace, k, p))
        || (i < m < k && EnteredAt(trace, m, p) && PushedAt(trace, k, Delayed, b)))
  }

  lemma FreeEnds(trace: seq<State>, i: nat, j: nat, t: Tid, b: Addr, p: Page) returns (m: nat, k: nat)
    requires i + 1 < j < |trace| && Fr(trace[i + 1].freers, t) == Loading(b, p) && Fr(trace[j].freers, t).Idle?
    requires forall x :: i < x < j ==> FreeStepAt(trace, x, t)
    ensures FreedAt(trace, i, j, p, b, m, k)
  {
    assert FreeStepAt(trace, j - 1, t);
    m, k := FreeGoesOn(trace, i, j - 1, t, b, p);
    if Fr(trace[j - 1].freers, t).Pushing? { k := j - 1; }
  }

  /** Whatever the other threads and the owner do meanwhile, a remote free takes the block from the user and ends so. */
  lemma FreeCompletes(trace: seq<State>, steps: seq<Step>, i: nat, j: nat, t: Tid, b: Addr)
    returns (m: nat, k: nat)
    requires FreeCall(trace, steps, i, j, t, b)
    ensures Plc(trace[i].place, b).Live? && !Plc(trace[i + 1].place, b).Live?
    ensures FreedAt(trace, i, j, PageOf(trace[i].span, b), b, m, k)
  {
    StepTaken(trace, steps, i);
    StartFrees(trace[i], t, b);
    forall x | i < x < j ensures FreeStepAt(trace, x, t) { FreeStepAtIs(trace, steps, x, t); }
    m, k := FreeEnds(trace, i, j, t, b, PageOf(trace[i].span, b));
  }

  lemma StartFrees(s: State, t: Tid, b: Addr)
    ensures var s' := Apply(s, FreeStart(t, b));
            Fr(s'.freers, t) == Loading(b, PageOf(s.span, b)) && !Plc(s'.place, b).Live?
  {
  }

  lemma FreeStepAtIs(trace: seq<State>, steps: seq<Step>, x: nat, t: Tid)
    requires IsRun(trace, steps) && x < |steps| && !Fr(trace[x].freers, t).Idle?
    ensures FreeStepAt(trace, x, t)
  {
    ReachableAt(trace, steps, x);
    StepTaken(trace, steps, x);
    FreeStepIs(trace[x], steps[x], trace[x + 1], t);
  }
}
