/**
 * What the cross-thread free protocol guarantees in every reachable state, said in terms of
 * what the program stores: memory words, list heads, delay bits and program counters.
 */
module ProtocolTheorems {
  import opened Chains
  import opened Protocol
  import opened ProtocolInv
  import opened ProtocolPages
  import opened ProtocolRuns

  // ---- Vocabulary ----

  /** Walking the list `id` through memory from its head meets `b`. */
  ghost predicate OnChain(s: State, id: ListId, b: Addr) {
    exists l :: Chain(s.mem, Hd(s.head, id), l) && b in l
  }

  /** `b` is one of the carved-out blocks of page `p`. */
  ghost predicate BlockOf(s: State, p: Page, b: Addr) {
    p in s.span && exists i: nat :: i < Cap(s.cap, p) && i < |s.span[p].blocks| && s.span[p].blocks[i] == b
  }

  /** `b` is a delayed block of page `p`: in the hands of a thread inside its window, on the heap's
      delayed list, on the part of it that the owner is draining, or popped and unchecked. */
  ghost predicate DelayedOf(s: State, p: Page, b: Addr) {
    && BlockOf(s, p, b)
    && (|| (exists t :: HoldsInWindow(Fr(s.freers, t)) && Fr(s.freers, t).b == b)
        || OnChain(s, Delayed, b)
        || OnChain(s, Drained, b)
        || (Unchecked(s.owner) && s.owner.b == b))
  }

  lemma OnChainIff(s: State, id: ListId, b: Addr)
    requires Inv(s)
    ensures OnChain(s, id, b) <==> Plc(s.place, b) == In(id)
  {
    assert ListInv(s, id) && BlockInv(s, b);
    if OnChain(s, id, b) {
      var l :| Chain(s.mem, Hd(s.head, id), l) && b in l;
      ChainUnique(s.mem, Hd(s.head, id), l, Lst(s.list, id));
    }
  }

  lemma BlockOfIff(s: State, p: Page, b: Addr)
    requires Inv(s)
    ensures BlockOf(s, p, b) <==> !Plc(s.place, b).Unborn? && Home(s.home, b) == p
  {
    assert BlockInv(s, b);
    if BlockOf(s, p, b) {
      var i: nat :| i < Cap(s.cap, p) && i < |s.span[p].blocks| && s.span[p].blocks[i] == b;
      assert IndexInv(s, p, i);
    }
    if !Plc(s.place, b).Unborn? && Home(s.home, b) == p {
      assert s.span[p].blocks[IndexOf(s.span[p], b)] == b;
      assert PageInv(s, p);
    }
  }

  lemma DelayedOfIff(s: State, p: Page, b: Addr)
    requires Inv(s)
    ensures DelayedOf(s, p, b) <==> IsRep(s, b) && Home(s.home, b) == p
  {
    assert BlockInv(s, b);
    OnChainIff(s, Delayed, b);
    OnChainIff(s, Drained, b);
    BlockOfIff(s, p, b);
    if exists t :: HoldsInWindow(Fr(s.freers, t)) && Fr(s.freers, t).b == b {
      var t :| HoldsInWindow(Fr(s.freers, t)) && Fr(s.freers, t).b == b;
      assert ThreadInv(s, t);
    }
  }

  // ---- The delay state ----

  /** Delay-state exactness.  A page in state Freeing or NoDelayedFree has exactly one delayed
      block, a page in state UseDelayedFree has none, and no page is ever in state
      NeverDelayedFree. */
  lemma DelayStateExact(s: State, p: Page)
    requires Reachable(s)
    ensures !Bits(s.bits, p).NeverDelayedFree?
    ensures Waiting(Bits(s.bits, p)) ==>
              exists b :: DelayedOf(s, p, b) && forall c :: DelayedOf(s, p, c) ==> c == b
    ensures Bits(s.bits, p).UseDelayedFree? ==> forall b :: !DelayedOf(s, p, b)
  {
    ReachableInv(s);
    assert PageInv(s, p);
    forall b ensures DelayedOf(s, p, b) <==> IsRep(s, b) && Home(s.home, b) == p
      ensures DelayedOf(s, p, b) ==> Waiting(Bits(s.bits, p)) && b == Rep(s.rep, p)
    {
      DelayedOfIff(s, p, b);
      assert BlockInv(s, b);
    }
    if Waiting(Bits(s.bits, p)) {
      assert DelayedOf(s, p, Rep(s.rep, p));
    }
  }

  ghost predicate InWindowOf(s: State, t: Tid, p: Page) {
    InWindow(Fr(s.freers, t)) && Fr(s.freers, t).p == p
  }

  /** The bits are Freeing if and only if some thread is between its compare-exchange and its
      `fetch_xor(3)` for this page, and then exactly one thread is. */
  lemma FreeingIffInWindow(s: State, p: Page)
    requires Reachable(s)
    ensures Bits(s.bits, p).Freeing? <==> exists t :: InWindowOf(s, t, p)
    ensures forall t, u :: InWindowOf(s, t, p) && InWindowOf(s, u, p) ==> t == u
  {
    ReachableInv(s);
    assert PageInv(s, p);
    assert Bits(s.bits, p).Freeing? ==> InWindowOf(s, Window(s.window, p), p);
    forall t | InWindowOf(s, t, p)
      ensures Bits(s.bits, p).Freeing? && Window(s.window, p) == t
    {
      assert ThreadInv(s, t);
    }
  }

  /** No lost wake-up.  Whenever `thread_free` of a page is not empty, some delayed block of that page
      will make the owner look at it, or the owner is already between its successful
      `try_use_delayed_free` and its taking of that list. */
  lemma NoLostWakeup(s: State, p: Page)
    requires Reachable(s) && s.PageWord(p).ptr != NULL
    ensures (exists b :: DelayedOf(s, p, b)) || Between(s.owner, p)
  {
    ReachableInv(s);
    HeadNull(s, ThreadOf(p));
    assert PageInv(s, p);
    DelayedOfIff(s, p, Rep(s.rep, p));
  }

  /** What `fetch_xor(3)` meets and leaves. */
  lemma LeaveTogglesFreeing(s: State, t: Tid)
    requires Reachable(s) && Enabled(s, Leave(t))
    ensures Bits(s.bits, Fr(s.freers, t).p).Freeing?
    ensures Apply(s, Leave(t)).PageWord(Fr(s.freers, t).p)
            == s.PageWord(Fr(s.freers, t).p).(delay := NoDelayedFree)
  {
    ReachableInv(s);
    assert ThreadInv(s, t);
  }

  // ---- Conservation ----

  /** A place where a block can be found. */
  datatype Spot =
    | AtUser
    | OnList(id: ListId, k: nat)
    | WithThread(t: Tid)
    | WithOwner

  ghost predicate IsAt(s: State, b: Addr, spot: Spot) {
    match spot
    case AtUser => Plc(s.place, b).Live?
    case OnList(id, k) => exists l :: Chain(s.mem, Hd(s.head, id), l) && k < |l| && l[k] == b
    case WithThread(t) => Holds(Fr(s.freers, t)) && Fr(s.freers, t).b == b
    case WithOwner => OwnerHolds(s.owner) && OwnerBlock(s.owner) == b
  }

  lemma OnListIff(s: State, id: ListId, k: nat, b: Addr)
    requires Inv(s)
    ensures IsAt(s, b, OnList(id, k)) <==> k < |Lst(s.list, id)| && Lst(s.list, id)[k] == b
  {
    assert ListInv(s, id);
    if IsAt(s, b, OnList(id, k)) {
      var l :| Chain(s.mem, Hd(s.head, id), l) && k < |l| && l[k] == b;
      ChainUnique(s.mem, Hd(s.head, id), l, Lst(s.list, id));
    }
  }

  /** Everything that is anywhere is a block below the capacity of its page. */
  lemma FoundIsBlock(s: State, b: Addr, spot: Spot)
    requires Inv(s) && IsAt(s, b, spot)
    ensures !Plc(s.place, b).Unborn? && BlockOf(s, Home(s.home, b), b)
    ensures spot.AtUser? ==> Plc(s.place, b) == Live
    ensures spot.OnList? ==> Plc(s.place, b) == In(spot.id)
    ensures spot.WithThread? ==> Plc(s.place, b) == Held(spot.t)
    ensures spot.WithOwner? ==> Plc(s.place, b) == Popped
  {
    match spot {
      case AtUser =>
      case OnList(id, k) =>
        OnListIff(s, id, k, b);
        assert ListInv(s, id) && b in Lst(s.list, id);
      case WithThread(t) => assert ThreadInv(s, t);
      case WithOwner =>
    }
    BlockOfIff(s, Home(s.home, b), b);
  }

  lemma FoundOnce(s: State, b: Addr, x: Spot, y: Spot)
    requires Inv(s) && IsAt(s, b, x) && IsAt(s, b, y)
    ensures x == y
  {
    FoundIsBlock(s, b, x);
    FoundIsBlock(s, b, y);
    if x.OnList? && y.OnList? {
      OnListIff(s, x.id, x.k, b);
      OnListIff(s, y.id, y.k, b);
      assert ListInv(s, x.id);
    }
  }

  lemma SomewhereIs(s: State, b: Addr)
    requires Inv(s) && !Plc(s.place, b).Unborn?
    ensures exists spot :: IsAt(s, b, spot)
  {
    assert BlockInv(s, b);
    match Plc(s.place, b)
    case Live => assert IsAt(s, b, AtUser);
    case In(id) =>
      var k :| 0 <= k < |Lst(s.list, id)| && Lst(s.list, id)[k] == b;
      OnListIff(s, id, k, b);
      assert IsAt(s, b, OnList(id, k));
    case Held(t) => assert IsAt(s, b, WithThread(t));
    case Popped => assert IsAt(s, b, WithOwner);
  }

  /** Conservation.  Every block below capacity is in exactly one place, at exactly one position of
      exactly one list if it is on a list; and nothing else is anywhere. */
  lemma BlocksConserved(s: State, b: Addr)
    requires Reachable(s)
    ensures (exists p :: BlockOf(s, p, b)) <==> (exists spot :: IsAt(s, b, spot))
    ensures forall x, y :: IsAt(s, b, x) && IsAt(s, b, y) ==> x == y
    ensures forall p, q :: BlockOf(s, p, b) && BlockOf(s, q, b) ==> p == q
  {
    ReachableInv(s);
    forall x, y | IsAt(s, b, x) && IsAt(s, b, y) ensures x == y { FoundOnce(s, b, x, y); }
    forall p ensures BlockOf(s, p, b) <==> !Plc(s.place, b).Unborn? && Home(s.home, b) == p {
      BlockOfIff(s, p, b);
    }
    if x :| IsAt(s, b, x) { FoundIsBlock(s, b, x); }
    if !Plc(s.place, b).Unborn? { SomewhereIs(s, b); }
  }

  /** Lists of a page hold blocks of that page only; the taken list those of the page being
      collected.  The delayed list has no such restriction. */
  lemma PageListsArePure(s: State, id: ListId, b: Addr)
    requires Reachable(s) && OnChain(s, id, b)
    ensures OfPage(id) ==> BlockOf(s, id.page, b)
    ensures id == Taken ==> s.owner.CollectAppend? && BlockOf(s, s.owner.p, b)
  {
    ReachableInv(s);
    OnChainIff(s, id, b);
    assert BlockInv(s, b);
    BlockOfIff(s, Home(s.home, b), b);
  }

  // ---- Counting ----

  lemma {:induction false} FirstBlocksExact(g: Span, n: nat)
    requires Regular(g) && n <= |g.blocks|
    ensures |FirstBlocks(g.blocks, n)| == n
  {
    if n > 0 {
      FirstBlocksExact(g, n - 1);
      assert FirstBlocks(g.blocks, n) == FirstBlocks(g.blocks, n - 1) + {g.blocks[n - 1]};
      forall i | 0 <= i < n - 1 ensures g.blocks[i] != g.blocks[n - 1] { BlockOrder(g, i, n - 1); }
    } else {
      assert FirstBlocks(g.blocks, 0) == {};
    }
  }

  /** The carved-out blocks of a page that walking its two free lists does not meet. */
  ghost function OutBlocks(s: State, p: Page): set<Addr>
    requires p in s.span
  {
    set b | b in FirstBlocks(s.span[p].blocks, Cap(s.cap, p)) && !OnFreeChain(s, p, b)
  }

  ghost predicate OnFreeChain(s: State, p: Page, b: Addr) {
    OnChain(s, FreeOf(p), b) || OnChain(s, LocalOf(p), b)
  }

  /** `used` is exactly the number of blocks that are with the user, with a freeing thread, on
      `thread_free`, taken, delayed, or in the owner's hands; in particular it never underflows. */
  lemma UsedIsExact(s: State, p: Page)
    requires Reachable(s) && p in s.span
    ensures Used(s.used, p) == |OutBlocks(s, p)|
    ensures forall f, l :: Chain(s.mem, Hd(s.head, FreeOf(p)), f) && Chain(s.mem, Hd(s.head, LocalOf(p)), l) ==>
              Used(s.used, p) + |f| + |l| == Cap(s.cap, p)
  {
    ReachableInv(s);
    assert PageInv(s, p) && RegularInv(s, p);
    FirstBlocksExact(s.span[p], Cap(s.cap, p));
    OutBlocksSize(s, p);
    ListsAreChains(s, FreeOf(p));
    ListsAreChains(s, LocalOf(p));
  }

  lemma OutBlocksSize(s: State, p: Page)
    requires Inv(s) && p in s.span
    ensures |OutBlocks(s, p)| == |FirstBlocks(s.span[p].blocks, Cap(s.cap, p))| - |FreeLists(s, p)|
  {
    var all := FirstBlocks(s.span[p].blocks, Cap(s.cap, p));
    var free := Elements(FreeLists(s, p));
    FreeAmongFirst(s, p);
    ElementsSize(FreeLists(s, p));
    forall b ensures OnFreeChain(s, p, b) <==> b in free { OnFreeChainIff(s, p, b); }
    assert OutBlocks(s, p) == all - free;
    SubsetSize(all, free);
  }

  lemma OnFreeChainIff(s: State, p: Page, b: Addr)
    requires Inv(s)
    ensures OnFreeChain(s, p, b) <==> b in FreeLists(s, p)
  {
    FreeListsOf(s, p);
    OnChainIff(s, FreeOf(p), b);
    OnChainIff(s, LocalOf(p), b);
  }

  lemma SubsetSize(all: set<Addr>, part: set<Addr>)
    requires part <= all
    ensures |all - part| == |all| - |part|
  {
    assert all == part + (all - part);
  }

  lemma FreeAmongFirst(s: State, p: Page)
    requires Inv(s) && p in s.span
    ensures NoDup(FreeLists(s, p))
    ensures Elements(FreeLists(s, p)) <= FirstBlocks(s.span[p].blocks, Cap(s.cap, p))
  {
    FreeListsOf(s, p);
    forall b | b in FreeLists(s, p) ensures b in FirstBlocks(s.span[p].blocks, Cap(s.cap, p)) {
      assert BlockInv(s, b);
      assert s.span[p].blocks[IndexOf(s.span[p], b)] == b;
    }
  }

  /** The subtractions in `page_thread_free_collect` and `free_block` never underflow. */
  lemma NoUnderflow(s: State)
    requires Reachable(s)
    ensures s.owner.CollectAppend? ==>
              forall l :: Chain(s.mem, Hd(s.head, Taken), l) ==> 0 < |l| <= Used(s.used, s.owner.p)
    ensures s.owner.FreeIt? ==> 1 <= Used(s.used, s.owner.p)
    ensures forall b :: Plc(s.place, b).Live? ==> 1 <= Used(s.used, PageOf(s.span, b))
  {
    ReachableInv(s);
    if s.owner.CollectAppend? {
      TakenFits(s);
      ListsAreChains(s, Taken);
    }
    if s.owner.FreeIt? {
      OneOut(s, s.owner.b);
    }
    forall b | Plc(s.place, b).Live? ensures 1 <= Used(s.used, PageOf(s.span, b)) {
      PageOfIs(s, b);
      OneOut(s, b);
    }
  }

  lemma TakenFits(s: State)
    requires Inv(s) && s.owner.CollectAppend?
    ensures 0 < |Lst(s.list, Taken)| <= Used(s.used, s.owner.p)
  {
    assert ListInv(s, Taken);
    forall b | b in Lst(s.list, Taken)
      ensures !Plc(s.place, b).Unborn? && Home(s.home, b) == s.owner.p && Plc(s.place, b) == In(Taken)
    {
      assert BlockInv(s, b);
    }
    UsedCovers(s, s.owner.p, Lst(s.list, Taken));
  }

  lemma OneOut(s: State, b: Addr)
    requires Inv(s) && !Plc(s.place, b).Unborn? && !Plc(s.place, b).In?
    ensures 1 <= Used(s.used, Home(s.home, b))
  {
    assert BlockInv(s, b);
    UsedCovers(s, Home(s.home, b), [b]);
  }

  // ---- Retirement ----

  /** Quiescent retirement.  When `used` is 0 every block of the page is on one of its own free lists:
      none is live, being freed by a thread, on `thread_free`, delayed or in the owner's hands; no
      thread is in its window, and the bits are UseDelayedFree. */
  lemma QuiescentPage(s: State, p: Page)
    requires Reachable(s) && p in s.span && Used(s.used, p) == 0
    ensures forall b :: BlockOf(s, p, b) ==> OnChain(s, FreeOf(p), b) || OnChain(s, LocalOf(p), b)
    ensures s.PageWord(p) == Word(NULL, UseDelayedFree)
    ensures forall t :: !Fr(s.freers, t).Idle? ==> Fr(s.freers, t).p != p
    ensures forall b :: !DelayedOf(s, p, b)
  {
    ReachableInv(s);
    Quiescent(s, p);
    FreeListsOf(s, p);
    forall b | BlockOf(s, p, b) ensures OnChain(s, FreeOf(p), b) || OnChain(s, LocalOf(p), b) {
      BlockOfIff(s, p, b);
      OnChainIff(s, FreeOf(p), b);
      OnChainIff(s, LocalOf(p), b);
    }
    assert PageInv(s, p);
    HeadNull(s, ThreadOf(p));
    QuiescentWord(s, p);
    forall t | !Fr(s.freers, t).Idle? ensures Fr(s.freers, t).p != p { assert ThreadInv(s, t); }
    DelayStateExact(s, p);
  }

  lemma QuiescentWord(s: State, p: Page)
    requires Inv(s)
    requires forall b :: !Plc(s.place, b).Unborn? && Home(s.home, b) == p ==> b in FreeLists(s, p)
    ensures Lst(s.list, ThreadOf(p)) == []
  {
    FreeListsOf(s, p);
    assert ListInv(s, ThreadOf(p));
    forall b ensures b !in Lst(s.list, ThreadOf(p)) { assert BlockInv(s, b); }
    NoMembers(Lst(s.list, ThreadOf(p)));
  }

  /** `check_is_good` never spins: whatever the other threads did since the page's blocks were given
      up, its first load finds bits that are not Freeing, and the page is released. */
  lemma RetireCheckNeverSpins(s: State, ok: bool)
    requires Reachable(s) && s.owner.RetireCheck?
    ensures Bits(s.bits, s.owner.p).UseDelayedFree?
    ensures Apply(s, Run(ok)).owner == s.owner.resume && s.owner.p !in Apply(s, Run(ok)).span
  {
    ReachableInv(s);
    RetireCheckKeeps(s);
  }

  /** No thread touches the word of a page that is gone: while a thread is anywhere inside
      `free_block_mt`, up to its `fetch_xor(3)`, its page is set up and not being retired. */
  lemma NoUseAfterRetire(s: State, t: Tid)
    requires Reachable(s) && !Fr(s.freers, t).Idle?
    ensures Fr(s.freers, t).p in s.span
    ensures s.owner.RetireCheck? ==> s.owner.p != Fr(s.freers, t).p
  {
    ReachableInv(s);
    var p := Fr(s.freers, t).p;
    assert ThreadInv(s, t) && PageInv(s, p);
    if Holds(Fr(s.freers, t)) {
      assert BlockInv(s, Fr(s.freers, t).b);
    } else {
      assert BlockInv(s, Rep(s.rep, p));
    }
  }

  // ---- Memory ----

  /** Every list is intact in memory in every reachable state, and no two lists share a block. */
  lemma ListsAreChains(s: State, id: ListId)
    requires Reachable(s)
    ensures Chain(s.mem, Hd(s.head, id), Lst(s.list, id)) && NoDup(Lst(s.list, id))
    ensures forall l :: Chain(s.mem, Hd(s.head, id), l) ==> l == Lst(s.list, id)
    ensures forall k :: k != id ==> forall b :: b in Lst(s.list, id) ==> b !in Lst(s.list, k)
  {
    ReachableInv(s);
    assert ListInv(s, id);
    forall l | Chain(s.mem, Hd(s.head, id), l) ensures l == Lst(s.list, id) {
      ChainUnique(s.mem, Hd(s.head, id), l, Lst(s.list, id));
    }
    forall k | k != id ensures forall b :: b in Lst(s.list, id) ==> b !in Lst(s.list, k) { assert ListInv(s, k); }
  }

  /** After a step that pushed `b` on list `id`, memory holds `b` followed by what it held at that
      instant, and every other list as it was; and no delay bits changed. */
  ghost predicate Pushed(s: State, s': State, id: ListId, b: Addr) {
    && s'.bits == s.bits
    && forall k, l :: Chain(s.mem, Hd(s.head, k), l) ==> Chain(s'.mem, Hd(s'.head, k), WithPush(id, b, k, l))
  }

  /** List `k`, which was `l`, after a push of `b` on list `id`. */
  ghost function WithPush(id: ListId, b: Addr, k: ListId, l: seq<Addr>): seq<Addr> {
    if k == id then [b] + l else l
  }

  lemma PushedIs(s: State, s': State, id: ListId, b: Addr)
    requires ListsInv(s) && ListsInv(s') && s'.bits == s.bits
    requires forall k :: Lst(s'.list, k) == WithPush(id, b, k, Lst(s.list, k))
    ensures Pushed(s, s', id, b)
  {
    forall k, l | Chain(s.mem, Hd(s.head, k), l)
      ensures Chain(s'.mem, Hd(s'.head, k), WithPush(id, b, k, l))
    {
      assert ListInv(s, k) && ListInv(s', k);
      ChainUnique(s.mem, Hd(s.head, k), l, Lst(s.list, k));
    }
  }

  lemma ListPushed(s: State, s': State, id: ListId, b: Addr)
    requires ListsInv(s) && ListsInv(s') && s'.bits == s.bits
    requires s'.list == s.list[id := [b] + Lst(s.list, id)]
    ensures Pushed(s, s', id, b)
  {
    PushedIs(s, s', id, b);
  }

  /** ABA-safe push.  A successful compare-exchange in `free_block_mt` pushes onto the list of that
      instant, even when the head it compared with was loaded long before and the block behind it
      was since removed, reallocated and freed again. */
  lemma AbaSafePush(s: State, t: Tid, s': State)
    requires Reachable(s) && StepsTo(s, FreePush(t, true), s')
    ensures Pushed(s, s', ThreadOf(Fr(s.freers, t).p), Fr(s.freers, t).b)
    ensures s'.PageWord(Fr(s.freers, t).p) == Word(Fr(s.freers, t).b, Fr(s.freers, t).w.delay)
  {
    ReachableInv(s);
    StepKeepsInv(s, FreePush(t, true), s');
    PushedIs(s, s', ThreadOf(Fr(s.freers, t).p), Fr(s.freers, t).b);
  }

  /** The same for the push of a delayed block in `atomic_insert_block`. */
  lemma AbaSafeDelayPush(s: State, t: Tid, s': State)
    requires Reachable(s) && StepsTo(s, DelayPush(t, true), s')
    ensures Pushed(s, s', Delayed, Fr(s.freers, t).b)
  {
    ReachableInv(s);
    StepKeepsInv(s, DelayPush(t, true), s');
    PushedIs(s, s', Delayed, Fr(s.freers, t).b);
  }

  /** The same when the owner puts a block back. */
  lemma AbaSafePutBack(s: State, s': State)
    requires Reachable(s) && s.owner.PutCas? && StepsTo(s, Run(true), s')
    ensures Pushed(s, s', Delayed, s.owner.b)
  {
    ReachableInv(s);
    StepKeepsInv(s, Run(true), s');
    PutBackLists(s);
    ListPushed(s, s', Delayed, s.owner.b);
  }

  lemma PutBackLists(s: State)
    requires s.owner.PutCas?
    ensures ApplyOwner(s, true).bits == s.bits
    ensures ApplyOwner(s, true).list == s.list[Delayed := [s.owner.b] + Lst(s.list, Delayed)]
  {
  }

  /** The steps that write into a block, and the compare-exchanges that fail. */
  ghost predicate Writes(s: State, st: Step) {
    || st.FreeLink? || st.DelayLink? || st.Scribble? || (st.Run? && s.owner.PutLink?)
    || (st.FreePush? && !st.ok) || (st.FreeEnter? && !st.ok) || (st.DelayPush? && !st.ok)
  }

  /** No write of a thread to its own block, no write of the user to a live block and no failed
      compare-exchange disturbs any list. */
  lemma WritesDisturbNothing(s: State, st: Step, s': State)
    requires Reachable(s) && StepsTo(s, st, s') && Writes(s, st)
    ensures s'.head == s.head && s'.bits == s.bits
    ensures forall id, l :: Chain(s.mem, Hd(s.head, id), l) <==> Chain(s'.mem, Hd(s.head, id), l)
  {
    ReachableInv(s);
    StepKeepsInv(s, st, s');
    WritesOnlyMemory(s, st, s');
    forall id, l ensures Chain(s.mem, Hd(s.head, id), l) <==> Chain(s'.mem, Hd(s.head, id), l) {
      SameChains(s, s', id, l);
    }
  }

  ghost predicate SameShared(s: State, s': State) {
    s'.head == s.head && s'.bits == s.bits && s'.list == s.list
  }

  lemma WritesOnlyMemory(s: State, st: Step, s': State)
    requires StepsTo(s, st, s') && Writes(s, st)
    ensures SameShared(s, s')
  {
    match st
    case FreeLink(t) => LinkWrites(s, t);
    case DelayLink(t) => DelayLinkWrites(s, t);
    case FreePush(t, ok) => FailedPush(s, t);
    case FreeEnter(t, ok) => FailedEnter(s, t);
    case DelayPush(t, ok) => FailedDelayPush(s, t);
    case Scribble(b, v) =>
    case Run(ok) => OwnerWrites(s, ok);
  }

  lemma LinkWrites(s: State, t: Tid)
    requires Fr(s.freers, t).Linking?
    ensures SameShared(s, ApplyFreer(s, t, true))
  {
  }

  lemma DelayLinkWrites(s: State, t: Tid)
    requires Fr(s.freers, t).DelayLinking?
    ensures SameShared(s, ApplyFreer(s, t, true))
  {
  }

  lemma FailedPush(s: State, t: Tid)
    requires Fr(s.freers, t).Pushing?
    ensures SameShared(s, ApplyFreer(s, t, false))
  {
  }

  lemma FailedEnter(s: State, t: Tid)
    requires Fr(s.freers, t).Entering?
    ensures SameShared(s, ApplyFreer(s, t, false))
  {
  }

  lemma FailedDelayPush(s: State, t: Tid)
    requires Fr(s.freers, t).DelayPushing?
    ensures SameShared(s, ApplyFreer(s, t, false))
  {
  }

  lemma OwnerWrites(s: State, ok: bool)
    requires s.owner.PutLink?
    ensures SameShared(s, ApplyOwner(s, ok))
  {
  }

  lemma SameChains(s: State, s': State, id: ListId, l: seq<Addr>)
    requires Inv(s) && Inv(s') && s'.head == s.head && s'.list == s.list
    ensures Chain(s.mem, Hd(s.head, id), l) <==> Chain(s'.mem, Hd(s.head, id), l)
  {
    assert ListInv(s, id) && ListInv(s', id);
    if Chain(s.mem, Hd(s.head, id), l) { ChainUnique(s.mem, Hd(s.head, id), l, Lst(s.list, id)); }
    if Chain(s'.mem, Hd(s.head, id), l) { ChainUnique(s'.mem, Hd(s.head, id), l, Lst(s.list, id)); }
  }

  // ---- Allocation safety ----

  /** `b` is the start of a block of page `p` whose index, computed from its address, is below
      capacity. */
  ghost predicate BlockAt(s: State, p: Page, b: Addr)
    requires p in s.span
  {
    exists i: nat :: i < Cap(s.cap, p) && b == s.span[p].start + i * s.span[p].bsize
  }

  /** Every live pointer is the start of exactly one block, below the capacity of the page found from
      its address. */
  lemma LiveIsBlock(s: State, b: Addr)
    requires Reachable(s) && Plc(s.place, b).Live?
    ensures PageOf(s.span, b) in s.span && BlockAt(s, PageOf(s.span, b), b)
    ensures forall q, j: nat :: q in s.span && j < |s.span[q].blocks| && s.span[q].blocks[j] == b ==>
              q == PageOf(s.span, b) && j == IndexOf(s.span[q], b)
    ensures b != NULL && b % 8 == 0
  {
    ReachableInv(s);
    PageOfIs(s, b);
    var p := Home(s.home, b);
    assert BlockInv(s, b) && RegularInv(s, p);
    var i := IndexOf(s.span[p], b);
    assert b == s.span[p].start + i * s.span[p].bsize && BlockAt(s, p, b);
    BornNotNull(s, b);
    Multiple8(s.span[p].start, i, s.span[p].bsize);
    forall q, j: nat | q in s.span && j < |s.span[q].blocks| && s.span[q].blocks[j] == b
      ensures q == p && j == IndexOf(s.span[q], b)
    {
      assert RegularInv(s, q) && ApartInv(s, p, q);
      BlockBounds(s.span[p], i);
      BlockBounds(s.span[q], j);
      IndexOfBlock(s.span[q], j);
    }
  }

  lemma Multiple8(a: nat, i: nat, c: nat)
    requires a % 8 == 0 && c % 8 == 0
    ensures (a + i * c) % 8 == 0
  {
    var k := c / 8;
    assert i * c == 8 * (i * k) by { assert c == 8 * k; }
  }

  /** The byte ranges of two distinct blocks, live or not, of the same page or not, are disjoint. */
  lemma BlocksDisjoint(s: State, b: Addr, c: Addr)
    requires Inv(s) && !Plc(s.place, b).Unborn? && !Plc(s.place, c).Unborn? && b != c
    ensures Home(s.home, b) in s.span && Home(s.home, c) in s.span
    ensures b + s.span[Home(s.home, b)].bsize <= c || c + s.span[Home(s.home, c)].bsize <= b
  {
    var p, q := Home(s.home, b), Home(s.home, c);
    assert BlockInv(s, b) && BlockInv(s, c) && RegularInv(s, p) && RegularInv(s, q) && ApartInv(s, p, q);
    var i, j := IndexOf(s.span[p], b), IndexOf(s.span[q], c);
    BlockBounds(s.span[p], i);
    BlockBounds(s.span[q], j);
    if p == q {
      if i < j { BlockOrder(s.span[p], i, j); } else { BlockOrder(s.span[p], j, i); }
    }
  }

  /** Whole-run allocation safety: live blocks never overlap. */
  lemma LiveBlocksDisjoint(s: State, b: Addr, c: Addr)
    requires Reachable(s) && Plc(s.place, b).Live? && Plc(s.place, c).Live? && b != c
    ensures PageOf(s.span, b) in s.span && PageOf(s.span, c) in s.span
    ensures b + s.span[PageOf(s.span, b)].bsize <= c || c + s.span[PageOf(s.span, c)].bsize <= b
  {
    ReachableInv(s);
    PageOfIs(s, b);
    PageOfIs(s, c);
    BlocksDisjoint(s, b, c);
  }

  /** An allocation hands out a block of the page it was asked for that nobody had. */
  lemma MallocIsFresh(s: State, p: Page, s': State)
    requires Reachable(s) && StepsTo(s, Malloc(p), s')
    ensures var b := Hd(s.head, FreeOf(p));
            && BlockOf(s, p, b) && !Plc(s.place, b).Live? && Plc(s'.place, b).Live?
            && (forall t :: Holds(Fr(s'.freers, t)) ==> Fr(s'.freers, t).b != b)
            && (forall id :: !OnChain(s', id, b))
            && (forall c :: c != b ==> (Plc(s'.place, c).Live? <==> Plc(s.place, c).Live?))
  {
    ReachableInv(s);
    StepKeepsInv(s, Malloc(p), s');
    var b := Hd(s.head, FreeOf(p));
    FirstOf(s, FreeOf(p));
    assert BlockInv(s, b);
    BlockOfIff(s, p, b);
    forall t | Holds(Fr(s'.freers, t)) ensures Fr(s'.freers, t).b != b { assert ThreadInv(s', t); }
    forall id ensures !OnChain(s', id, b) { OnChainIff(s', id, b); }
  }

  /** Every list head is aligned, so that it leaves the two low bits of a page's word free. */
  lemma HeadsAligned(s: State, id: ListId)
    requires Reachable(s)
    ensures Hd(s.head, id) % 8 == 0
  {
    ReachableInv(s);
    if Hd(s.head, id) != NULL {
      var b := Hd(s.head, id);
      FirstOf(s, id);
      var p := Home(s.home, b);
      assert BlockInv(s, b) && RegularInv(s, p);
      Multiple8(s.span[p].start, IndexOf(s.span[p], b), s.span[p].bsize);
    }
  }
}
