/**
 * The steps of the owner thread that set up, extend and retire pages keep the invariant.
 * Retiring rests on counting: when `used` is 0 every block of the page is on its own free lists.
 */
module ProtocolPages {
  import opened Chains
  import opened Protocol
  import opened ProtocolInv

  // ---- Counting ----

  /** The first `n` block starts of a page. */
  ghost function FirstBlocks(blocks: seq<Addr>, n: nat): set<Addr> {
    set i | 0 <= i < n && i < |blocks| :: blocks[i]
  }

  lemma {:induction false} FirstBlocksSize(blocks: seq<Addr>, n: nat)
    requires n <= |blocks|
    ensures |FirstBlocks(blocks, n)| <= n
  {
    if n > 0 {
      FirstBlocksSize(blocks, n - 1);
      assert FirstBlocks(blocks, n) == FirstBlocks(blocks, n - 1) + {blocks[n - 1]};
    } else {
      assert FirstBlocks(blocks, 0) == {};
    }
  }

  /** Any list of distinct existing blocks of a page is no longer than its capacity, and holds
      every block of the page when it is as long. */
  lemma PageCounting(s: State, p: Page, l: seq<Addr>)
    requires Inv(s) && p in s.span && NoDup(l)
    requires forall b :: b in l ==> !Plc(s.place, b).Unborn? && Home(s.home, b) == p
    ensures |l| <= Cap(s.cap, p)
    ensures |l| == Cap(s.cap, p) ==>
              forall b :: !Plc(s.place, b).Unborn? && Home(s.home, b) == p ==> b in l
  {
    var bs := s.span[p].blocks;
    var all := FirstBlocks(bs, Cap(s.cap, p));
    assert PageInv(s, p);
    FirstBlocksSize(bs, Cap(s.cap, p));
    forall b | !Plc(s.place, b).Unborn? && Home(s.home, b) == p ensures b in all {
      assert BlockInv(s, b);
      assert b == bs[IndexOf(s.span[p], b)];
    }
    Pigeonhole(l, all);
  }

  /** The free lists of a page, one after the other. */
  ghost function FreeLists(s: State, p: Page): seq<Addr> {
    Lst(s.list, FreeOf(p)) + Lst(s.list, LocalOf(p))
  }

  lemma FreeListsOf(s: State, p: Page)
    requires Inv(s)
    ensures NoDup(FreeLists(s, p))
    ensures forall b :: b in FreeLists(s, p) <==>
              Plc(s.place, b) == In(FreeOf(p)) || Plc(s.place, b) == In(LocalOf(p))
    ensures forall b :: b in FreeLists(s, p) ==> Home(s.home, b) == p
  {
    assert ListInv(s, FreeOf(p)) && ListInv(s, LocalOf(p));
    NoDupConcat(Lst(s.list, FreeOf(p)), Lst(s.list, LocalOf(p)));
    forall b ensures b in FreeLists(s, p) <==>
              Plc(s.place, b) == In(FreeOf(p)) || Plc(s.place, b) == In(LocalOf(p))
    {
      assert BlockInv(s, b);
    }
    forall b | b in FreeLists(s, p) ensures Home(s.home, b) == p { assert BlockInv(s, b); }
  }

  /** `used` counts at least the blocks that are on neither free list of the page. */
  lemma UsedCovers(s: State, p: Page, l: seq<Addr>)
    requires Inv(s) && p in s.span && NoDup(l)
    requires forall b :: b in l ==> !Plc(s.place, b).Unborn? && Home(s.home, b) == p
                                    && Plc(s.place, b) != In(FreeOf(p)) && Plc(s.place, b) != In(LocalOf(p))
    ensures |l| <= Used(s.used, p)
  {
    FreeListsOf(s, p);
    assert PageInv(s, p);
    NoDupConcat(l, FreeLists(s, p));
    PageCounting(s, p, l + FreeLists(s, p));
  }

  /** When `used` is 0 every block of the page is on one of its free lists, and the page waits for
      nobody. */
  lemma Quiescent(s: State, p: Page)
    requires Inv(s) && p in s.span && Used(s.used, p) == 0
    ensures forall b :: !Plc(s.place, b).Unborn? && Home(s.home, b) == p ==> b in FreeLists(s, p)
    ensures Bits(s.bits, p).UseDelayedFree?
  {
    FreeListsOf(s, p);
    assert PageInv(s, p);
    PageCounting(s, p, FreeLists(s, p));
    assert BlockInv(s, Rep(s.rep, p));
  }

  // ---- Retiring a page ----

  /** The page's blocks have been given up; the owner is about to look at the delay bits. */
  ghost predicate Retired(s: State, s': State, p: Page) {
    && (s.owner.Ready? || s.owner.DrainNext?) && p in s.span && Used(s.used, p) == 0
    && s' == s.(head := s.head[FreeOf(p) := NULL][LocalOf(p) := NULL],
                list := s.list[FreeOf(p) := []][LocalOf(p) := []],
                place := Relocate(s.place, FreeLists(s, p), Unborn),
                cap := s.cap[p := 0], owner := RetireCheck(p, s.owner))
  }

  lemma RetireKeeps(s: State, p: Page)
    requires Inv(s) && Enabled(s, Retire(p))
    ensures Inv(Apply(s, Retire(p)))
  {
    GiveUp(s, Apply(s, Retire(p)), p);
  }

  lemma GiveUp(s: State, s': State, p: Page)
    requires Inv(s) && Retired(s, s', p)
    ensures Inv(s')
  {
    FreeListsOf(s, p);
    Quiescent(s, p);
    RelocatePlaces(s.place, FreeLists(s, p), Unborn);
    forall id ensures ListInv(s', id) { assert ListInv(s, id); RetireList(s, s', p, id); }
    forall c ensures BlockInv(s', c) { assert BlockInv(s, c); RetireBlock(s, s', p, c); }
    forall u ensures ThreadInv(s', u) { assert ThreadInv(s, u); RetireThread(s, s', p, u); }
    forall q ensures PageInv(s', q) { assert PageInv(s, q); RetirePage(s, s', p, q); }
    RetireSpans(s, s', p);
    RetireOwner(s, s', p);
  }

  /** Exactly the blocks of the free lists cease to exist. */
  ghost predicate Gone(s: State, s': State, p: Page) {
    && (forall b :: Plc(s'.place, b) == if b in FreeLists(s, p) then Unborn else Plc(s.place, b))
    && (forall b :: b in FreeLists(s, p) <==>
          Plc(s.place, b) == In(FreeOf(p)) || Plc(s.place, b) == In(LocalOf(p)))
  }

  lemma RetireList(s: State, s': State, p: Page, id: ListId)
    requires ListInv(s, id) && Retired(s, s', p) && Gone(s, s', p)
    ensures ListInv(s', id)
  {
    if id == FreeOf(p) || id == LocalOf(p) {
      NoList(s', id);
    } else {
      forall b | b in Lst(s.list, id) ensures Plc(s'.place, b) == In(id) { assert b !in FreeLists(s, p); }
      SameList(s, s', id);
    }
  }

  lemma NoList(s: State, id: ListId)
    requires Lst(s.list, id) == [] && Hd(s.head, id) == NULL
    ensures ListInv(s, id)
  {
  }

  lemma SameList(s: State, s': State, id: ListId)
    requires ListInv(s, id) && s'.mem == s.mem
    requires Lst(s'.list, id) == Lst(s.list, id) && Hd(s'.head, id) == Hd(s.head, id)
    requires forall b :: b in Lst(s.list, id) ==> Plc(s'.place, b) == In(id)
    ensures ListInv(s', id)
  {
  }

  lemma RetireBlock(s: State, s': State, p: Page, c: Addr)
    requires BlockInv(s, c) && Retired(s, s', p) && Gone(s, s', p)
    requires !Plc(s.place, c).Unborn? && Home(s.home, c) == p ==> c in FreeLists(s, p)
    ensures BlockInv(s', c)
  {
  }

  lemma RetireThread(s: State, s': State, p: Page, u: Tid)
    requires ThreadInv(s, u) && Retired(s, s', p) && Gone(s, s', p)
    ensures ThreadInv(s', u)
  {
  }

  lemma RetirePage(s: State, s': State, p: Page, q: Page)
    requires PageInv(s, q) && Retired(s, s', p) && Gone(s, s', p)
    ensures PageInv(s', q)
  {
    assert WaitOk(s', q);
  }

  lemma RetireOwner(s: State, s': State, p: Page)
    requires OwnerInv(s) && PassInv(s) && Retired(s, s', p)
    ensures OwnerInv(s') && PassInv(s')
  {
    assert InHand(s'.owner) == InHand(s.owner);
  }

  lemma RetireSpans(s: State, s': State, p: Page)
    requires SpansInv(s) && Retired(s, s', p) && Gone(s, s', p)
    requires forall b :: b in FreeLists(s, p) ==> Home(s.home, b) == p
    ensures SpansInv(s')
  {
    forall q, i: nat ensures IndexInv(s', q, i) { assert IndexInv(s, q, i); }
    forall q ensures RegularInv(s', q) { assert RegularInv(s, q); }
    forall q, r ensures ApartInv(s', q, r) { assert ApartInv(s, q, r); }
  }

  /** `check_is_good`: the bits are not Freeing, so the first load succeeds. */
  lemma RetireCheckKeeps(s: State)
    requires Inv(s) && s.owner.RetireCheck?
    ensures Bits(s.bits, s.owner.p).UseDelayedFree?
    ensures Inv(ApplyOwner(s, true))
  {
    var p := s.owner.p;
    assert PageInv(s, p) && BlockInv(s, Rep(s.rep, p));
    Disabled(s, ApplyOwner(s, true), p);
  }

  lemma Disabled(s: State, s': State, p: Page)
    requires Inv(s) && s.owner.RetireCheck? && s.owner.p == p
    requires s' == s.(span := s.span - {p}, owner := s.owner.resume)
    ensures Inv(s')
  {
    ListsFrame(s, s');
    forall c ensures BlockInv(s', c) { assert BlockInv(s, c); }
    forall u ensures ThreadInv(s', u) { assert ThreadInv(s, u); }
    forall q ensures PageInv(s', q) { assert PageInv(s, q); }
    forall q, i: nat ensures IndexInv(s', q, i) { assert IndexInv(s, q, i); }
    forall q ensures RegularInv(s', q) { assert RegularInv(s, q); }
    forall q, r ensures ApartInv(s', q, r) { assert ApartInv(s, q, r); }
  }

  // ---- Setting up a page ----

  lemma EnableKeeps(s: State, p: Page, g: Span)
    requires Inv(s) && Enabled(s, Enable(p, g))
    ensures Inv(Apply(s, Enable(p, g)))
  {
    var s' := Apply(s, Enable(p, g));
    NoBlocks(s, p);
    ListsFrame(s, s');
    forall c ensures BlockInv(s', c) { assert BlockInv(s, c); EnableBlock(s, s', p, g, c); }
    forall u ensures ThreadInv(s', u) { assert ThreadInv(s, u); EnableThread(s, s', p, g, u); }
    forall q ensures PageInv(s', q) { assert PageInv(s, q); EnablePage(s, s', p, g, q); }
    EnableSpans(s, s', p, g);
  }

  lemma NoPageNoList(s: State, id: ListId)
    requires ListInv(s, id) && OfPage(id) && id.page !in s.span
    requires forall b :: Plc(s.place, b).In? && OfPage(Plc(s.place, b).id) ==> Plc(s.place, b).id.page in s.span
    ensures Lst(s.list, id) == []
  {
    NoMembers(Lst(s.list, id));
  }

  lemma NoMembers(l: seq<Addr>)
    ensures l == [] || exists b :: b in l
  {
    assert l == [] || l[0] in l;
  }

  /** A page that is not set up has no block, and nobody is freeing to it. */
  lemma NoBlocks(s: State, p: Page)
    requires Inv(s) && p !in s.span
    ensures FreeLists(s, p) == [] && Lst(s.list, ThreadOf(p)) == []
    ensures Bits(s.bits, p).UseDelayedFree?
  {
    forall b | Plc(s.place, b).In? && OfPage(Plc(s.place, b).id) ensures Plc(s.place, b).id.page in s.span {
      assert BlockInv(s, b);
    }
    NoPageNoList(s, FreeOf(p));
    NoPageNoList(s, LocalOf(p));
    NoPageNoList(s, ThreadOf(p));
    assert PageInv(s, p) && BlockInv(s, Rep(s.rep, p));
  }

  ghost predicate Opened(s: State, s': State, p: Page, g: Span) {
    && s.owner.Ready? && p !in s.span && Bits(s.bits, p).UseDelayedFree?
    && s' == s.(span := s.span[p := g], cap := s.cap[p := 0], used := s.used[p := 0],
                bits := s.bits[p := UseDelayedFree])
  }

  lemma EnableBlock(s: State, s': State, p: Page, g: Span, c: Addr)
    requires BlockInv(s, c) && Opened(s, s', p, g)
    ensures BlockInv(s', c)
  {
  }

  lemma EnableThread(s: State, s': State, p: Page, g: Span, u: Tid)
    requires ThreadInv(s, u) && Opened(s, s', p, g)
    ensures ThreadInv(s', u)
  {
  }

  lemma EnablePage(s: State, s': State, p: Page, g: Span, q: Page)
    requires PageInv(s, q) && Opened(s, s', p, g)
    requires Lst(s.list, FreeOf(p)) == [] && Lst(s.list, LocalOf(p)) == []
    ensures PageInv(s', q)
  {
    assert WaitOk(s', q);
  }

  lemma EnableSpans(s: State, s': State, p: Page, g: Span)
    requires SpansInv(s) && Opened(s, s', p, g) && Regular(g)
    requires forall q :: q in s.span ==> Apart(g, s.span[q])
    ensures SpansInv(s')
  {
    forall q, i: nat ensures IndexInv(s', q, i) { assert IndexInv(s, q, i); }
    forall q ensures RegularInv(s', q) { assert RegularInv(s, q); }
    forall q, r ensures ApartInv(s', q, r) { assert ApartInv(s, q, r); }
  }

  // ---- Extending a page ----

  /** The next `n` blocks of page `p` have been carved out and linked in front of its free list. */
  ghost predicate Extended(s: State, s': State, p: Page, bs: seq<Addr>) {
    && s.owner.Ready? && p in s.span && Cap(s.cap, p) + |bs| <= |s.span[p].blocks|
    && bs == s.span[p].blocks[Cap(s.cap, p)..Cap(s.cap, p) + |bs|]
    && s' == CarveBlocks(s, p, bs)
  }

  /** The same, said entity by entity. */
  ghost predicate Carved(s: State, s': State, p: Page, bs: seq<Addr>) {
    CarvedPlaces(s, s', p, bs) && CarvedLists(s, s', p, bs) && CarvedRest(s, s', p, bs)
  }

  ghost predicate CarvedRest(s: State, s': State, p: Page, bs: seq<Addr>) {
    && p in s.span && s'.span == s.span && s'.used == s.used && s'.bits == s.bits && s'.rep == s.rep
    && s'.window == s.window && s'.freers == s.freers && s'.owner == s.owner
    && Cap(s.cap, p) + |bs| <= |s.span[p].blocks|
    && (forall i :: 0 <= i < |bs| ==> s.span[p].blocks[Cap(s.cap, p) + i] == bs[i])
    && s'.cap == s.cap[p := Cap(s.cap, p) + |bs|]
  }

  ghost predicate CarvedPlaces(s: State, s': State, p: Page, bs: seq<Addr>) {
    && (forall b :: b in bs ==> Plc(s.place, b).Unborn?)
    && (forall b :: Plc(s'.place, b) == if b in bs then In(FreeOf(p)) else Plc(s.place, b))
    && (forall b :: Home(s'.home, b) == if b in bs then p else Home(s.home, b))
  }

  ghost predicate CarvedLists(s: State, s': State, p: Page, bs: seq<Addr>) {
    && (forall b :: b !in bs ==> Next(s'.mem, b) == Next(s.mem, b))
    && Lst(s'.list, FreeOf(p)) == bs + Lst(s.list, FreeOf(p))
    && (forall k :: k != FreeOf(p) ==> Lst(s'.list, k) == Lst(s.list, k) && Hd(s'.head, k) == Hd(s.head, k))
  }

  lemma ExtendKeeps(s: State, p: Page, n: nat)
    requires Inv(s) && Enabled(s, Extend(p, n))
    ensures Inv(Apply(s, Extend(p, n)))
  {
    ExtendIs(s, p, n);
    Grow(s, Apply(s, Extend(p, n)), p, NextBlocks(s, p, n));
  }

  lemma ExtendIs(s: State, p: Page, n: nat)
    requires Enabled(s, Extend(p, n))
    ensures Extended(s, Apply(s, Extend(p, n)), p, NextBlocks(s, p, n))
  {
    assert |NextBlocks(s, p, n)| == n;
  }

  lemma Grow(s: State, s': State, p: Page, bs: seq<Addr>)
    requires Inv(s) && Extended(s, s', p, bs)
    ensures Inv(s')
  {
    FreshBlocks(s, p, bs);
    CarveOut(s, s', p, bs);
    assert RegularInv(s, p);
    ExtendLists(s, s', p, bs);
    forall c ensures BlockInv(s', c) { assert BlockInv(s, c); ExtendBlock(s, s', p, bs, c); }
    forall u ensures ThreadInv(s', u) { assert ThreadInv(s, u); ExtendThread(s, s', p, bs, u); }
    forall q ensures PageInv(s', q) {
      assert PageInv(s, q) && BlockInv(s, Rep(s.rep, q));
      ExtendPage(s, s', p, bs, q);
    }
    ExtendSpans(s, s', p, bs);
    ExtendOwner(s, s', p, bs);
  }

  /** Blocks beyond the capacity are new addresses: no block of this or any other page starts there. */
  lemma FreshBlocks(s: State, p: Page, bs: seq<Addr>)
    requires Inv(s) && p in s.span && Cap(s.cap, p) + |bs| <= |s.span[p].blocks|
    requires bs == s.span[p].blocks[Cap(s.cap, p)..Cap(s.cap, p) + |bs|]
    ensures NoDup(bs) && NULL !in bs
    ensures forall b :: b in bs ==> Plc(s.place, b).Unborn?
  {
    var g := s.span[p];
    var cap := Cap(s.cap, p);
    assert RegularInv(s, p);
    forall i, j | 0 <= i < j < |bs| ensures bs[i] != bs[j] {
      BlockOrder(g, cap + i, cap + j);
    }
    forall b | b in bs ensures b != NULL && Plc(s.place, b).Unborn? {
      var i :| 0 <= i < |bs| && bs[i] == b;
      BlockBounds(g, cap + i);
      IndexOfBlock(g, cap + i);
      NewBlockUnborn(s, p, cap + i);
    }
  }

  lemma NewBlockUnborn(s: State, p: Page, i: nat)
    requires Inv(s) && p in s.span && Cap(s.cap, p) <= i < |s.span[p].blocks|
    ensures Plc(s.place, s.span[p].blocks[i]).Unborn?
  {
    var b := s.span[p].blocks[i];
    var q := Home(s.home, b);
    assert BlockInv(s, b) && RegularInv(s, p);
    IndexOfBlock(s.span[p], i);
    BlockBounds(s.span[p], i);
    if !Plc(s.place, b).Unborn? && q != p {
      assert RegularInv(s, q) && ApartInv(s, p, q);
      BlockBounds(s.span[q], IndexOf(s.span[q], b));
      assert false;
    }
  }

  lemma CarveOut(s: State, s': State, p: Page, bs: seq<Addr>)
    requires Extended(s, s', p, bs) && forall b :: b in bs ==> Plc(s.place, b).Unborn?
    ensures Carved(s, s', p, bs)
  {
    CarvePlaces(s, s', p, bs);
    CarveLists(s, s', p, bs);
    CarveRest(s, s', p, bs);
  }

  lemma CarveRest(s: State, s': State, p: Page, bs: seq<Addr>)
    requires Extended(s, s', p, bs)
    ensures CarvedRest(s, s', p, bs)
  {
    SliceElements(s.span[p].blocks, Cap(s.cap, p), bs);
  }

  lemma SliceElements(blocks: seq<Addr>, cap: nat, bs: seq<Addr>)
    requires cap + |bs| <= |blocks| && bs == blocks[cap..cap + |bs|]
    ensures forall i :: 0 <= i < |bs| ==> blocks[cap + i] == bs[i]
  {
  }

  lemma CarvePlaces(s: State, s': State, p: Page, bs: seq<Addr>)
    requires forall b :: b in bs ==> Plc(s.place, b).Unborn?
    requires s'.place == Relocate(s.place, bs, In(FreeOf(p))) && s'.home == s.home + HomeAt(bs, p)
    ensures CarvedPlaces(s, s', p, bs)
  {
    RelocatePlaces(s.place, bs, In(FreeOf(p)));
  }

  lemma CarveLists(s: State, s': State, p: Page, bs: seq<Addr>)
    requires s'.mem == LinkRun(s.mem, bs, Hd(s.head, FreeOf(p)))
    requires s'.head == s.head[FreeOf(p) := At(bs + Lst(s.list, FreeOf(p)), 0)]
    requires s'.list == s.list[FreeOf(p) := bs + Lst(s.list, FreeOf(p))]
    ensures CarvedLists(s, s', p, bs)
  {
    forall b | b !in bs ensures Next(s'.mem, b) == Next(s.mem, b) {
      LinkRunFrame(s.mem, bs, Hd(s.head, FreeOf(p)), b);
    }
  }

  lemma ExtendLists(s: State, s': State, p: Page, bs: seq<Addr>)
    requires ListsInv(s) && CarvedPlaces(s, s', p, bs) && CarvedLists(s, s', p, bs) && NoDup(bs) && NULL !in bs
    requires s'.mem == LinkRun(s.mem, bs, Hd(s.head, FreeOf(p)))
    requires Hd(s'.head, FreeOf(p)) == At(bs + Lst(s.list, FreeOf(p)), 0)
    ensures ListsInv(s')
  {
    forall id ensures ListInv(s', id) {
      assert ListInv(s, id);
      if id == FreeOf(p) {
        ExtendFree(s, s', p, bs);
      } else {
        ExtendOther(s, s', p, bs, id);
      }
    }
  }

  lemma ExtendFree(s: State, s': State, p: Page, bs: seq<Addr>)
    requires ListInv(s, FreeOf(p)) && CarvedPlaces(s, s', p, bs) && NoDup(bs) && NULL !in bs
    requires s'.mem == LinkRun(s.mem, bs, Hd(s.head, FreeOf(p)))
    requires Hd(s'.head, FreeOf(p)) == At(bs + Lst(s.list, FreeOf(p)), 0)
    requires Lst(s'.list, FreeOf(p)) == bs + Lst(s.list, FreeOf(p))
    ensures ListInv(s', FreeOf(p))
  {
    var l := Lst(s.list, FreeOf(p));
    assert forall b :: b in bs ==> b !in l;
    LinkRunChain(s.mem, bs, Hd(s.head, FreeOf(p)), l);
    NoDupConcat(bs, l);
  }

  lemma ExtendOther(s: State, s': State, p: Page, bs: seq<Addr>, id: ListId)
    requires ListInv(s, id) && CarvedPlaces(s, s', p, bs) && CarvedLists(s, s', p, bs) && id != FreeOf(p)
    ensures ListInv(s', id)
  {
    var l := Lst(s.list, id);
    assert forall b :: b in l ==> b !in bs;
    ChainFrame(s.mem, s'.mem, Hd(s.head, id), l);
  }

  lemma ExtendBlock(s: State, s': State, p: Page, bs: seq<Addr>, c: Addr)
    requires BlockInv(s, c) && Carved(s, s', p, bs) && Regular(s.span[p])
    ensures BlockInv(s', c)
  {
    if c in bs {
      var i :| 0 <= i < |bs| && bs[i] == c;
      IndexOfBlock(s.span[p], Cap(s.cap, p) + i);
    }
    ExtendPlace(s, s', p, bs, c);
    assert RepOk(s', c);
  }

  lemma ExtendPlace(s: State, s': State, p: Page, bs: seq<Addr>, c: Addr)
    requires PlaceOk(s, c) && Carved(s, s', p, bs)
    ensures PlaceOk(s', c)
  {
    if c in bs {
      assert c in bs + Lst(s.list, FreeOf(p));
    }
  }

  lemma ExtendThread(s: State, s': State, p: Page, bs: seq<Addr>, u: Tid)
    requires ThreadInv(s, u) && Carved(s, s', p, bs)
    ensures ThreadInv(s', u)
  {
    var f := Fr(s.freers, u);
    if Holds(f) {
      assert f.b !in bs;
    }
  }

  lemma ExtendPage(s: State, s': State, p: Page, bs: seq<Addr>, q: Page)
    requires PageInv(s, q) && Carved(s, s', p, bs)
    ensures PageInv(s', q)
  {
    if IsRep(s, Rep(s.rep, q)) {
      assert Rep(s.rep, q) !in bs;
    }
    assert WaitOk(s', q);
  }

  lemma ExtendSpans(s: State, s': State, p: Page, bs: seq<Addr>)
    requires SpansInv(s) && Carved(s, s', p, bs)
    ensures SpansInv(s')
  {
    forall q, i: nat ensures IndexInv(s', q, i) {
      assert IndexInv(s, q, i);
      if q == p && Cap(s.cap, p) <= i < Cap(s.cap, p) + |bs| {
        assert s.span[p].blocks[i] == bs[i - Cap(s.cap, p)];
        assert s.span[p].blocks[i] in bs;
      }
    }
    forall q ensures RegularInv(s', q) { assert RegularInv(s, q); }
    forall q, r ensures ApartInv(s', q, r) { assert ApartInv(s, q, r); }
  }

  lemma ExtendOwner(s: State, s': State, p: Page, bs: seq<Addr>)
    requires OwnerInv(s) && PassInv(s) && Extended(s, s', p, bs)
    ensures OwnerInv(s') && PassInv(s')
  {
  }
}
