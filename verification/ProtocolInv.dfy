/**
 * The inductive invariant of the cross-thread free protocol, and what the list operations
 * the steps are made of do to it.
 *
 * The invariant is the conjunction of one predicate per list, per block, per thread and per
 * page, and one for the owner, so that a proof looks only at the entities a step concerns.
 */
module ProtocolInv {
  import opened Chains
  import opened Protocol

  // ---- Who holds what ----

  /** The thread has a block in its hands. */
  ghost predicate Holds(f: Freer) {
    !f.Idle? && !f.Leaving?
  }

  /** The thread has set the bits to Freeing but not put its block on the delayed list yet. */
  ghost predicate HoldsInWindow(f: Freer) {
    f.DelayLoading? || f.DelayLinking? || f.DelayPushing?
  }

  /** The thread is between its compare-exchange to Freeing and its `fetch_xor(3)`. */
  ghost predicate InWindow(f: Freer) {
    HoldsInWindow(f) || f.Leaving?
  }

  ghost predicate Collecting(o: Owner) {
    o.CollectLoad? || o.CollectTake? || o.CollectAppend? || o.CollectMove?
  }

  ghost predicate Putting(o: Owner) {
    o.PutLoad? || o.PutLink? || o.PutCas?
  }

  /** The owner has popped a block and not made `try_use_delayed_free` succeed for it. */
  ghost predicate Unchecked(o: Owner) {
    o.TryLoad? || o.TryCas? || Putting(o)
  }

  ghost predicate OwnerHolds(o: Owner) {
    Unchecked(o) || o.FreeIt? || (Collecting(o) && o.then_.FreeDelayed?)
  }

  ghost function OwnerBlock(o: Owner): Addr
    requires OwnerHolds(o)
  {
    if Collecting(o) then o.then_.b else o.b
  }

  /** The block in the owner's hands, if any, as a list. */
  ghost function InHand(o: Owner): seq<Addr> {
    if OwnerHolds(o) then [OwnerBlock(o)] else []
  }

  /** The owner is inside `heap_delayed_free_partial`, after taking the delayed list. */
  ghost predicate Draining(o: Owner) {
    o.DrainNext? || OwnerHolds(o) || (o.RetireCheck? && o.resume.DrainNext?)
  }

  /** Whether every block handled so far in this pass was freed. */
  ghost function AllFreed(o: Owner): bool
    requires Draining(o)
  {
    if Collecting(o) then o.then_.allFreed else if o.RetireCheck? then o.resume.allFreed else !Putting(o) && o.allFreed
  }

  /** Between a successful `try_use_delayed_free` of page `p` and the taking of its list. */
  ghost predicate Between(o: Owner, p: Page) {
    (o.CollectLoad? || o.CollectTake?) && o.p == p && o.then_.FreeDelayed?
  }

  /** `b` is the delayed block of its page: freed in state UseDelayedFree and since then in the
      hands of its freer inside the window, on the delayed list, or popped and unchecked. */
  ghost predicate IsRep(s: State, b: Addr) {
    match Plc(s.place, b)
    case In(id) => id == Delayed || id == Drained
    case Held(t) => HoldsInWindow(Fr(s.freers, t))
    case Popped => Unchecked(s.owner)
    case _ => false
  }

  ghost predicate Waiting(d: Delay) {
    d.Freeing? || d.NoDelayedFree?
  }

  // ---- Lists ----

  /** The memory holds list `id` as a chain from its head, without repetition, and its blocks
      are nowhere else. */
  ghost predicate ListInv(s: State, id: ListId) {
    && Chain(s.mem, Hd(s.head, id), Lst(s.list, id))
    && NoDup(Lst(s.list, id))
    && forall b {:trigger b in Lst(s.list, id)} :: b in Lst(s.list, id) ==> Plc(s.place, b) == In(id)
  }

  // ---- Blocks ----

  ghost predicate OfPage(id: ListId) {
    id.FreeOf? || id.LocalOf? || id.ThreadOf?
  }

  /** A block is where its place says.  Page lists hold blocks of their own page only; the
      heap's delayed list mixes pages. */
  ghost predicate PlaceOk(s: State, b: Addr) {
    match Plc(s.place, b)
    case In(id) =>
      && b in Lst(s.list, id)
      && (OfPage(id) ==> Home(s.home, b) == id.page)
      && (id == Taken ==> s.owner.CollectAppend? && Home(s.home, b) == s.owner.p)
    case Held(t) => Holds(Fr(s.freers, t)) && Fr(s.freers, t).b == b
    case Popped => OwnerHolds(s.owner) && OwnerBlock(s.owner) == b
    case _ => true
  }

  /** A delayed block is the one its page is waiting for. */
  ghost predicate RepOk(s: State, b: Addr) {
    IsRep(s, b) ==> Waiting(Bits(s.bits, Home(s.home, b))) && Rep(s.rep, Home(s.home, b)) == b
  }

  /** A block that exists is one of the blocks of its page below capacity. */
  ghost predicate BlockOk(s: State, b: Addr) {
    var p := Home(s.home, b);
    !Plc(s.place, b).Unborn? ==>
      p in s.span && 0 <= IndexOf(s.span[p], b) < Cap(s.cap, p)
  }

  ghost predicate BlockInv(s: State, b: Addr) {
    PlaceOk(s, b) && RepOk(s, b) && BlockOk(s, b)
  }

  // ---- Threads ----

  /** A freeing thread holds its block, knows its page, and its block links to the value it
      is about to compare with. */
  ghost predicate FreerOk(s: State, t: Tid) {
    var f := Fr(s.freers, t);
    && (Holds(f) ==> Plc(s.place, f.b) == Held(t) && Home(s.home, f.b) == f.p)
    && (f.Linking? ==> !f.w.delay.UseDelayedFree?)
    && (f.Pushing? ==> !f.w.delay.UseDelayedFree? && Next(s.mem, f.b) == f.w.ptr)
    && (f.Entering? ==> f.w.delay.UseDelayedFree?)
    && (f.DelayPushing? ==> Next(s.mem, f.b) == f.next)
  }

  /** A thread in its window is the one its page records, and the bits are Freeing. */
  ghost predicate WindowOk(s: State, t: Tid) {
    InWindow(Fr(s.freers, t)) ==>
      Bits(s.bits, Fr(s.freers, t).p).Freeing? && Window(s.window, Fr(s.freers, t).p) == t
  }

  ghost predicate ThreadInv(s: State, t: Tid) {
    FreerOk(s, t) && WindowOk(s, t)
  }

  // ---- Pages ----

  /** A page whose bits are Freeing or NoDelayedFree has a delayed block. */
  ghost predicate WaitOk(s: State, p: Page) {
    Waiting(Bits(s.bits, p)) ==> IsRep(s, Rep(s.rep, p)) && Home(s.home, Rep(s.rep, p)) == p
  }

  /** While the bits are Freeing a thread is in its window. */
  ghost predicate FreeingOk(s: State, p: Page) {
    Bits(s.bits, p).Freeing? ==>
      InWindow(Fr(s.freers, Window(s.window, p))) && Fr(s.freers, Window(s.window, p)).p == p
  }

  ghost predicate DelayOk(s: State, p: Page) {
    WaitOk(s, p) && FreeingOk(s, p) && !Bits(s.bits, p).NeverDelayedFree?
  }

  /** In state UseDelayedFree nothing is left on `thread_free`, unless the owner is about to
      take it. */
  ghost predicate WakeOk(s: State, p: Page) {
    Bits(s.bits, p).UseDelayedFree? && Lst(s.list, ThreadOf(p)) != [] ==> Between(s.owner, p)
  }

  ghost predicate CountOk(s: State, p: Page) {
    p in s.span ==>
      && Used(s.used, p) + |Lst(s.list, FreeOf(p))| + |Lst(s.list, LocalOf(p))| == Cap(s.cap, p)
      && Cap(s.cap, p) <= |s.span[p].blocks|
  }

  ghost predicate PageInv(s: State, p: Page) {
    DelayOk(s, p) && WakeOk(s, p) && CountOk(s, p)
  }

  /** Every block of a page below its capacity exists and belongs to that page. */
  ghost predicate IndexInv(s: State, p: Page, i: nat) {
    p in s.span && i < Cap(s.cap, p) && i < |s.span[p].blocks| ==>
      !Plc(s.place, s.span[p].blocks[i]).Unborn? && Home(s.home, s.span[p].blocks[i]) == p
  }

  ghost predicate RegularInv(s: State, p: Page) {
    p in s.span ==> Regular(s.span[p])
  }

  ghost predicate ApartInv(s: State, p: Page, q: Page) {
    p in s.span && q in s.span && p != q ==> Apart(s.span[p], s.span[q])
  }

  // ---- The owner ----

  ghost predicate OwnerInv(s: State) {
    var o := s.owner;
    && (OwnerHolds(o) ==> Plc(s.place, OwnerBlock(o)) == Popped)
    && (o.TryLoad? || o.TryCas? || o.FreeIt? ==> o.p == Home(s.home, o.b))
    && (Collecting(o) ==> o.p in s.span && (o.then_.FreeDelayed? ==> o.p == Home(s.home, o.then_.b)))
    && (o.TryCas? ==> o.w.delay.NoDelayedFree?)
    && (o.PutCas? ==> Next(s.mem, o.b) == o.next)
    && (o.RetireCheck? ==> o.p in s.span && Cap(s.cap, o.p) == 0 && (o.resume.Ready? || o.resume.DrainNext?))
    && (Lst(s.list, Taken) != [] <==> o.CollectAppend?)
    && (Lst(s.list, Drained) != [] ==> Draining(o))
  }

  ghost function Handled(done: seq<Outcome>): seq<Addr> {
    seq<Addr>(|done|, i requires 0 <= i < |done| => done[i].b)
  }

  ghost predicate AllOutcomesFreed(done: seq<Outcome>) {
    forall i :: 0 <= i < |done| ==> done[i].freed
  }

  /** The blocks handled, the one in hand and the ones left are the list that was taken. */
  ghost predicate PassInv(s: State) {
    Draining(s.owner) ==>
      && s.orig == Handled(s.done) + InHand(s.owner) + Lst(s.list, Drained)
      && (!Putting(s.owner) ==> (AllFreed(s.owner) <==> AllOutcomesFreed(s.done)))
  }

  // ---- The invariant ----

  ghost predicate ListsInv(s: State) { forall id :: ListInv(s, id) }
  ghost predicate BlocksInv(s: State) { forall b :: BlockInv(s, b) }
  ghost predicate ThreadsInv(s: State) { forall t :: ThreadInv(s, t) }
  ghost predicate PagesInv(s: State) { forall p :: PageInv(s, p) }
  ghost predicate SpansInv(s: State) {
    && (forall p, i: nat :: IndexInv(s, p, i))
    && (forall p :: RegularInv(s, p))
    && (forall p, q :: ApartInv(s, p, q))
  }

  ghost predicate Inv(s: State) {
    && ListsInv(s) && BlocksInv(s) && ThreadsInv(s) && PagesInv(s) && SpansInv(s)
    && OwnerInv(s) && PassInv(s)
  }

  lemma InitInv(s: State)
    requires Init(s)
    ensures Inv(s)
  {
  }

  // ---- Basic consequences ----

  lemma BornNotNull(s: State, b: Addr)
    requires Inv(s) && !Plc(s.place, b).Unborn?
    ensures b != NULL && Home(s.home, b) in s.span
  {
    assert BlockInv(s, b);
    var p := Home(s.home, b);
    assert RegularInv(s, p);
    var i := IndexOf(s.span[p], b);
    assert s.span[p].blocks[i] == s.span[p].start + i * s.span[p].bsize;
    assert i * s.span[p].bsize >= 0;
  }

  lemma HeadNull(s: State, id: ListId)
    requires ListsInv(s)
    ensures Hd(s.head, id) == NULL <==> Lst(s.list, id) == []
  {
    assert ListInv(s, id);
  }

  // ---- Addresses ----

  lemma BlockBounds(g: Span, i: nat)
    requires Regular(g) && i < |g.blocks|
    ensures g.start <= g.blocks[i] && g.blocks[i] + g.bsize <= g.start + |g.blocks| * g.bsize
  {
    assert i * g.bsize + g.bsize == (i + 1) * g.bsize;
    MulOrder(i + 1, |g.blocks|, g.bsize);
  }

  lemma MulOrder(a: nat, b: nat, c: nat)
    requires a <= b
    ensures a * c <= b * c
  {
    assert b * c == a * c + (b - a) * c;
    assert (b - a) * c >= 0;
  }

  /** Blocks of one page do not overlap. */
  lemma BlockOrder(g: Span, i: nat, j: nat)
    requires Regular(g) && i < j < |g.blocks|
    ensures g.blocks[i] + g.bsize <= g.blocks[j]
  {
    assert i * g.bsize + g.bsize == (i + 1) * g.bsize;
    MulOrder(i + 1, j, g.bsize);
  }

  lemma IndexOfBlock(g: Span, i: nat)
    requires Regular(g) && i < |g.blocks|
    ensures IndexOf(g, g.blocks[i]) == i
  {
    var j := IndexOf(g, g.blocks[i]);
    assert g.blocks[i] in g.blocks;
    if i < j {
      BlockOrder(g, i, j);
    } else if j < i {
      BlockOrder(g, j, i);
    }
  }

  /** The page found from the address of a block is the one the block was carved out of. */
  lemma PageOfIs(s: State, b: Addr)
    requires Inv(s) && !Plc(s.place, b).Unborn?
    ensures PageOf(s.span, b) == Home(s.home, b)
  {
    var p := Home(s.home, b);
    assert BlockInv(s, b);
    assert HasBlock(s.span, p, b);
    OnePage(s, p, PageOf(s.span, b), b);
  }

  lemma OnePage(s: State, p: Page, q: Page, b: Addr)
    requires SpansInv(s) && HasBlock(s.span, p, b) && HasBlock(s.span, q, b)
    ensures p == q
  {
    assert RegularInv(s, p) && RegularInv(s, q) && ApartInv(s, p, q);
    BlockBounds(s.span[p], IndexOf(s.span[p], b));
    BlockBounds(s.span[q], IndexOf(s.span[q], b));
  }

  // ---- What a step that does not touch the relevant fields keeps ----

  lemma ListsFrame(s: State, s': State)
    requires ListsInv(s) && s'.mem == s.mem && s'.head == s.head && s'.list == s.list && s'.place == s.place
    ensures ListsInv(s')
  {
    forall id ensures ListInv(s', id) { assert ListInv(s, id); }
  }

  lemma SpansFrame(s: State, s': State)
    requires SpansInv(s) && s'.span == s.span && s'.cap == s.cap && s'.home == s.home
    requires forall b :: Plc(s.place, b).Unborn? <==> Plc(s'.place, b).Unborn?
    ensures SpansInv(s')
  {
    forall p, i: nat ensures IndexInv(s', p, i) { assert IndexInv(s, p, i); }
    forall p ensures RegularInv(s', p) { assert RegularInv(s, p); }
    forall p, q ensures ApartInv(s', p, q) { assert ApartInv(s, p, q); }
  }

  /** A step of another thread leaves the owner's lists, block and locals alone. */
  lemma OwnerFrame(s: State, s': State)
    requires OwnerInv(s) && PassInv(s)
    requires s'.owner == s.owner && s'.span == s.span && s'.cap == s.cap && s'.home == s.home
    requires s'.orig == s.orig && s'.done == s.done
    requires Lst(s'.list, Taken) == Lst(s.list, Taken) && Lst(s'.list, Drained) == Lst(s.list, Drained)
    requires OwnerHolds(s.owner) && Plc(s.place, OwnerBlock(s.owner)).Popped? ==>
               Plc(s'.place, OwnerBlock(s.owner)).Popped?
               && Next(s'.mem, OwnerBlock(s.owner)) == Next(s.mem, OwnerBlock(s.owner))
    ensures OwnerInv(s') && PassInv(s')
  {
  }

  // ---- The list operations ----

  lemma RelocatePlaces(place: map<Addr, Place>, l: seq<Addr>, to: Place)
    ensures forall b :: Plc(Relocate(place, l, to), b) == if b in l then to else Plc(place, b)
  {
  }

  /** Writing into a block that is on no list disturbs no list. */
  lemma WriteLists(s: State, s': State, b: Addr, v: Addr)
    requires ListsInv(s) && !Plc(s.place, b).In?
    requires s'.mem == s.mem[b := v] && s'.head == s.head && s'.list == s.list && s'.place == s.place
    ensures ListsInv(s')
  {
    forall id ensures ListInv(s', id) {
      assert ListInv(s, id);
      ChainFrame(s.mem, s'.mem, Hd(s.head, id), Lst(s.list, id));
    }
  }

  lemma PlaceLists(s: State, s': State, b: Addr, to: Place)
    requires ListsInv(s) && !Plc(s.place, b).In?
    requires s'.mem == s.mem && s'.head == s.head && s'.list == s.list && s'.place == s.place[b := to]
    ensures ListsInv(s')
  {
    forall id ensures ListInv(s', id) {
      assert ListInv(s, id);
      assert b !in Lst(s.list, id);
    }
  }

  lemma PushLists(s: State, s': State, id: ListId, b: Addr)
    requires ListsInv(s)
    requires !Plc(s.place, b).In? && b != NULL && Next(s.mem, b) == Hd(s.head, id)
    requires s'.mem == s.mem && s'.head == s.head[id := b] && s'.list == s.list[id := [b] + Lst(s.list, id)]
    requires s'.place == s.place[b := In(id)]
    ensures ListsInv(s')
  {
    forall k ensures ListInv(s', k) {
      assert ListInv(s, k);
      assert b !in Lst(s.list, k);
      if k == id {
        ChainPush(s.mem, Hd(s.head, id), Lst(s.list, id), b);
        NoDupConcat([b], Lst(s.list, id));
        assert Lst(s'.list, id) == [b] + Lst(s.list, id);
      }
    }
  }

  lemma HeadNotInTail(l: seq<Addr>)
    requires l != [] && NoDup(l)
    ensures l == [l[0]] + l[1..] && l[0] !in l[1..] && NoDup(l[1..])
  {
  }

  lemma FirstOf(s: State, id: ListId)
    requires ListsInv(s) && Hd(s.head, id) != NULL
    ensures Lst(s.list, id) != [] && Lst(s.list, id) == [Hd(s.head, id)] + Lst(s.list, id)[1..]
    ensures Plc(s.place, Hd(s.head, id)) == In(id)
  {
    assert ListInv(s, id);
    assert Hd(s.head, id) in Lst(s.list, id);
  }

  lemma PopLists(s: State, s': State, id: ListId, b: Addr, to: Place)
    requires ListsInv(s) && Lst(s.list, id) != [] && b == Lst(s.list, id)[0] && !to.In?
    requires s'.mem == s.mem && s'.head == s.head[id := Next(s.mem, b)]
    requires s'.list == s.list[id := Lst(s.list, id)[1..]] && s'.place == s.place[b := to]
    ensures ListsInv(s')
  {
    forall k ensures ListInv(s', k) {
      assert ListInv(s, k) && ListInv(s, id);
      if k == id {
        PopList(s, s', id, b, to);
      } else {
        assert b in Lst(s.list, id);
        assert b !in Lst(s.list, k);
      }
    }
  }

  lemma PopList(s: State, s': State, id: ListId, b: Addr, to: Place)
    requires ListInv(s, id) && Lst(s.list, id) != [] && b == Lst(s.list, id)[0] && !to.In?
    requires s'.mem == s.mem && Hd(s'.head, id) == Next(s.mem, b)
    requires Lst(s'.list, id) == Lst(s.list, id)[1..] && s'.place == s.place[b := to]
    ensures ListInv(s', id)
  {
    var l := Lst(s.list, id);
    ChainTail(s.mem, b, l);
    HeadNotInTail(l);
    forall c {:trigger c in Lst(s'.list, id)} | c in Lst(s'.list, id) ensures Plc(s'.place, c) == In(id) {
      assert c in l;
    }
  }

  lemma TakeLists(s: State, s': State, src: ListId, dst: ListId)
    requires ListsInv(s) && src != dst && Lst(s.list, dst) == []
    requires s'.mem == s.mem && s'.head == TakeAll(s, src, dst).head && s'.list == TakeAll(s, src, dst).list
    requires s'.place == TakeAll(s, src, dst).place
    ensures ListsInv(s')
  {
    var l := Lst(s.list, src);
    RelocatePlaces(s.place, l, In(dst));
    assert ListInv(s, src);
    forall k ensures ListInv(s', k) {
      assert ListInv(s, k);
      if k != src && k != dst {
        assert forall b :: b in Lst(s.list, k) ==> b !in l;
      }
    }
  }

  lemma AppendLists(s: State, s': State, src: ListId, dst: ListId)
    requires ListsInv(s) && src != dst && Lst(s.list, src) != []
    requires s'.mem == AppendAll(s, src, dst).mem && s'.head == AppendAll(s, src, dst).head
    requires s'.list == AppendAll(s, src, dst).list && s'.place == AppendAll(s, src, dst).place
    ensures ListsInv(s')
  {
    var front := Lst(s.list, src);
    var last := front[|front| - 1];
    RelocatePlaces(s.place, front, In(dst));
    assert ListInv(s, src);
    assert last in front;
    forall k ensures ListInv(s', k) {
      assert ListInv(s, k);
      if k == dst {
        ChainJoin(s.mem, front, Lst(s.list, dst), Hd(s.head, src), Hd(s.head, dst));
        NoDupConcat(front, Lst(s.list, dst));
      } else if k != src {
        assert forall b :: b in Lst(s.list, k) ==> b !in front;
        ChainFrame(s.mem, s'.mem, Hd(s.head, k), Lst(s.list, k));
      }
    }
  }
}
