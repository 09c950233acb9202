/**
 * The ABA situation really occurs: there is a run in which a thread loads the head of `thread_free`, the
 * owner takes that list and allocates the head block again, the block is freed remotely once more, and
 * the thread's compare-exchange then succeeds on what it loaded long before.
 */
module ProtocolAba {
  import opened Chains
  import opened Protocol
  import opened ProtocolInv
  import opened ProtocolRuns

  /** A run and its steps. */
  datatype History = History(trace: seq<State>, steps: seq<Step>)

  ghost predicate Ok(r: History) { IsRun(r.trace, r.steps) }

  ghost function Last(r: History): State
    requires Ok(r)
  {
    r.trace[|r.steps|]
  }

  ghost predicate Extends(r: History, r': History) {
    r.trace <= r'.trace && r.steps <= r'.steps
  }

  /** The steps that `r'` adds to `r` are not loads or compare-exchanges of thread `t`. */
  ghost predicate NotBy(r: History, r': History, t: Tid) {
    forall m :: |r.steps| <= m < |r'.steps| ==> NotOf(r'.steps[m], t)
  }

  ghost predicate NotOf(st: Step, t: Tid) {
    st != FreeLoad(t) && !(st.FreePush? && st.t == t)
  }

  /** The three moments of the ABA problem for thread `t` in one run: it loads a word whose pointer is a
      block, that block is allocated again while the list is empty, and its compare-exchange succeeds. */
  ghost predicate Aba(r: History, t: Tid, i: nat, j: nat, k: nat) {
    && Ok(r) && i < j < k < |r.steps|
    && r.steps[i] == FreeLoad(t) && r.steps[k] == FreePush(t, true)
    && (forall m :: i < m < k ==> NotOf(r.steps[m], t))
    && Fr(r.trace[i + 1].freers, t).Linking?
    && var f := Fr(r.trace[i + 1].freers, t);
       f.w.ptr != NULL && Plc(r.trace[j].place, f.w.ptr).Live? && r.trace[j].PageWord(f.p).ptr == NULL
  }

  // ---- One step ----

  /** `r'` is `r` and one more step, which is possible. */
  ghost predicate OneMore(r: History, st: Step, r': History) {
    && Ok(r) && Ok(r') && Extends(r, r') && r'.steps == r.steps + [st]
    && Reachable(Last(r)) && Reachable(Last(r'))
  }

  lemma Go(r: History, st: Step) returns (r': History)
    requires Ok(r) && Enabled(Last(r), st)
    ensures OneMore(r, st, r') && Last(r') == Apply(Last(r), st)
  {
    r' := OneLonger(r, st, Apply(Last(r), st));
    ReachableAt(r.trace, r.steps, |r.steps|);
    ReachableAt(r'.trace, r'.steps, |r'.steps|);
  }

  lemma OneLonger(r: History, st: Step, s': State) returns (r': History)
    requires Ok(r) && StepsTo(Last(r), st, s')
    ensures Ok(r') && Extends(r, r') && r'.steps == r.steps + [st] && Last(r') == s'
  {
    r' := History(r.trace + [s'], r.steps + [st]);
  }

  // ---- The situation, step by step ----

  const PAGE: Page := 1
  const A: Addr := 8
  const B: Addr := 16
  const C: Addr := 24

  /** The lists of the page. */
  ghost predicate Lists(s: State, free: seq<Addr>, local: seq<Addr>, thread: seq<Addr>, taken: seq<Addr>) {
    && Lst(s.list, FreeOf(PAGE)) == free && Lst(s.list, LocalOf(PAGE)) == local
    && Lst(s.list, ThreadOf(PAGE)) == thread && Lst(s.list, Taken) == taken
  }

  ghost predicate Homes(s: State) {
    PAGE in s.span && Home(s.home, A) == PAGE && Home(s.home, B) == PAGE && Home(s.home, C) == PAGE
  }

  lemma Heads(s: State)
    requires Reachable(s)
    ensures forall id :: Hd(s.head, id) == At(Lst(s.list, id), 0)
  {
    ReachableInv(s);
    forall id ensures Hd(s.head, id) == At(Lst(s.list, id), 0) { assert ListInv(s, id); }
  }

  lemma PopStep(s: State, l: seq<Addr>, b: Addr)
    requires Reachable(s) && s.owner.Ready? && Lists(s, [b] + l, [], [], []) && Homes(s)
    ensures Enabled(s, Malloc(PAGE))
    ensures var s' := Apply(s, Malloc(PAGE));
            && s'.owner.Ready? && Lists(s', l, [], [], []) && Homes(s') && s'.bits == s.bits && s'.freers == s.freers
            && s'.place == s.place[b := Live]
  {
    Heads(s);
    ReachableInv(s);
    FirstNotNull(s, b, l);
    assert ([b] + l)[1..] == l;
  }

  lemma FirstNotNull(s: State, b: Addr, l: seq<Addr>)
    requires Inv(s) && Lst(s.list, FreeOf(PAGE)) == [b] + l
    ensures Hd(s.head, FreeOf(PAGE)) == b != NULL
  {
    assert ListInv(s, FreeOf(PAGE));
    assert ([b] + l)[0] == b;
  }

  // ---- The steps of a freeing thread, one at a time ----

  /** What a step of thread `t` leaves alone, apart from the place of its block. */
  ghost predicate Kept(s: State, s': State, t: Tid, b: Addr) {
    && s'.owner == s.owner && s'.span == s.span && s'.home == s.home
    && (forall u :: u != t ==> Fr(s'.freers, u) == Fr(s.freers, u))
    && (forall c :: c != b ==> Plc(s'.place, c) == Plc(s.place, c))
  }

  lemma GoStart(r: History, t: Tid, b: Addr) returns (r': History)
    requires Ok(r) && Reachable(Last(r)) && Fr(Last(r).freers, t).Idle? && Plc(Last(r).place, b).Live?
    ensures OneMore(r, FreeStart(t, b), r')
    ensures var s, s' := Last(r), Last(r');
            && Kept(s, s', t, b) && s'.list == s.list && s'.bits == s.bits
            && Fr(s'.freers, t) == Loading(b, Home(s.home, b))
  {
    ReachableInv(Last(r));
    PageOfIs(Last(r), b);
    r' := Go(r, FreeStart(t, b));
  }

  lemma GoLoad(r: History, t: Tid, b: Addr, w: Word) returns (r': History)
    requires Ok(r) && Fr(Last(r).freers, t) == Loading(b, PAGE) && PageHas(Last(r), w)
    ensures OneMore(r, FreeLoad(t), r')
    ensures var s, s' := Last(r), Last(r');
            && Kept(s, s', t, b) && s'.list == s.list && s'.bits == s.bits
            && Fr(s'.freers, t) == if w.delay.UseDelayedFree? then Entering(b, PAGE, w) else Linking(b, PAGE, w)
  {
    r' := Go(r, FreeLoad(t));
    WordIs(Last(r));
  }

  lemma GoEnter(r: History, t: Tid, b: Addr, w: Word) returns (r': History)
    requires Ok(r) && Reachable(Last(r)) && Fr(Last(r).freers, t) == Entering(b, PAGE, w) && PageHas(Last(r), w)
    ensures OneMore(r, FreeEnter(t, true), r')
    ensures var s, s' := Last(r), Last(r');
            Kept(s, s', t, b) && s'.list == s.list && Bits(s'.bits, PAGE).Freeing?
  {
    WordIs(Last(r));
    r' := Go(r, FreeEnter(t, true));
  }

  lemma GoLink(r: History, t: Tid, b: Addr, w: Word) returns (r': History)
    requires Ok(r) && Fr(Last(r).freers, t) == Linking(b, PAGE, w)
    ensures OneMore(r, FreeLink(t), r')
    ensures var s, s' := Last(r), Last(r');
            && Kept(s, s', t, b) && s'.list == s.list && s'.bits == s.bits
            && Fr(s'.freers, t) == Pushing(b, PAGE, w)
  {
    r' := Go(r, FreeLink(t));
  }

  lemma GoPush(r: History, t: Tid, b: Addr, w: Word) returns (r': History)
    requires Ok(r) && Reachable(Last(r)) && Fr(Last(r).freers, t) == Pushing(b, PAGE, w) && PageHas(Last(r), w)
    ensures OneMore(r, FreePush(t, true), r')
    ensures var s, s' := Last(r), Last(r');
            && Kept(s, s', t, b) && s'.bits == s.bits && Fr(s'.freers, t).Idle?
            && s'.list == s.list[ThreadOf(PAGE) := [b] + Lst(s.list, ThreadOf(PAGE))]
  {
    WordIs(Last(r));
    r' := Go(r, FreePush(t, true));
  }

  /** The list and the bits of the page make up the word `w`. */
  ghost predicate PageHas(s: State, w: Word) {
    w == Word(At(Lst(s.list, ThreadOf(PAGE)), 0), Bits(s.bits, PAGE))
  }

  /** The word of the page, from its list and bits. */
  lemma WordIs(s: State)
    requires Reachable(s)
    ensures PageHas(s, s.PageWord(PAGE))
  {
    Heads(s);
  }

  // ---- The phases of the run ----

  /** All three blocks are allocated and nobody is freeing. */
  ghost predicate Stocked(s: State) {
    && s.owner.Ready? && Homes(s) && Lists(s, [], [], [], []) && Bits(s.bits, PAGE).UseDelayedFree?
    && Plc(s.place, A).Live? && Plc(s.place, B).Live? && Plc(s.place, C).Live?
    && Fr(s.freers, 1).Idle? && Fr(s.freers, 2).Idle? && Fr(s.freers, 3).Idle?
  }

  /** Thread 1 is inside its window with block `A`; the state of the others is given. */
  ghost predicate Window1(s: State, thread: seq<Addr>, two: Freer, three: Freer) {
    && s.owner.Ready? && Homes(s) && Lists(s, [], [], thread, []) && Bits(s.bits, PAGE).Freeing?
    && Fr(s.freers, 2) == two && Fr(s.freers, 3) == three
  }

  /** Thread 1 sets the bits to Freeing. */
  lemma EnterWindow(r: History) returns (r': History)
    requires Ok(r) && Stocked(Last(r))
    ensures Ok(r') && Window1(Last(r'), [], Idle, Idle)
    ensures Plc(Last(r').place, B).Live? && Plc(Last(r').place, C).Live?
  {
    var w := Word(NULL, UseDelayedFree);
    var r1 := GoStart(r, 1, A);
    var r2 := GoLoad(r1, 1, A, w);
    r' := GoEnter(r2, 1, A, w);
  }

  /** Thread 2 pushes `B` on `thread_free`. */
  lemma PushB(r: History, three: Freer) returns (r': History)
    requires Ok(r) && Window1(Last(r), [], Idle, three) && Plc(Last(r).place, B).Live?
    ensures Ok(r') && Window1(Last(r'), [B], Idle, three)
    ensures Extends(r, r') && NotBy(r, r', 3) && |r.steps| < |r'.steps|
    ensures Plc(Last(r').place, C) == Plc(Last(r).place, C)
  {
    var r1, r2 := LoadB(r, three);
    var r3;
    r3, r' := LinkB(r2, three);
    FourSteps(r, r1, r2, r3, r');
  }

  lemma LoadB(r: History, three: Freer) returns (r1: History, r2: History)
    requires Ok(r) && Window1(Last(r), [], Idle, three) && Plc(Last(r).place, B).Live?
    ensures OneMore(r, FreeStart(2, B), r1) && OneMore(r1, FreeLoad(2), r2)
    ensures Window1(Last(r2), [], Linking(B, PAGE, Word(NULL, Freeing)), three)
    ensures Plc(Last(r2).place, C) == Plc(Last(r).place, C)
  {
    r1 := GoStart(r, 2, B);
    r2 := GoLoad(r1, 2, B, Word(NULL, Freeing));
  }

  lemma LinkB(r: History, three: Freer) returns (r1: History, r2: History)
    requires Ok(r) && Window1(Last(r), [], Linking(B, PAGE, Word(NULL, Freeing)), three)
    ensures OneMore(r, FreeLink(2), r1) && OneMore(r1, FreePush(2, true), r2)
    ensures Window1(Last(r2), [B], Idle, three)
    ensures Plc(Last(r2).place, C) == Plc(Last(r).place, C)
  {
    r1 := GoLink(r, 2, B, Word(NULL, Freeing));
    r2 := GoPush(r1, 2, B, Word(NULL, Freeing));
  }

  /** Four steps of thread 2 are not steps of thread 3. */
  lemma FourSteps(r: History, r1: History, r2: History, r3: History, r4: History)
    requires Extends(r, r1) && Extends(r1, r2) && Extends(r2, r3) && Extends(r3, r4)
    requires r1.steps == r.steps + [FreeStart(2, B)] && r2.steps == r1.steps + [FreeLoad(2)]
    requires r3.steps == r2.steps + [FreeLink(2)] && r4.steps == r3.steps + [FreePush(2, true)]
    ensures Extends(r, r4) && NotBy(r, r4, 3) && |r.steps| < |r4.steps|
  {
  }

  /** Thread 3 loads the head `B` and links its block `C` to it. */
  lemma LoadC(r: History) returns (r1: History, r2: History, r': History)
    requires Ok(r) && Window1(Last(r), [B], Idle, Idle) && Plc(Last(r).place, C).Live?
    ensures OneMore(r1, FreeLoad(3), r2) && OneMore(r2, FreeLink(3), r')
    ensures Fr(Last(r2).freers, 3) == Linking(C, PAGE, Word(B, Freeing))
    ensures Window1(Last(r'), [B], Idle, Pushing(C, PAGE, Word(B, Freeing)))
  {
    var w := Word(B, Freeing);
    r1 := GoStart(r, 3, C);
    r2 := GoLoad(r1, 3, C, w);
    r' := GoLink(r2, 3, C, w);
  }

  // ---- The owner collects the page and allocates `B` again ----

  /** The owner is at `o` with these lists, threads 1 and 3 wait where they are. */
  ghost predicate AtOwner(s: State, o: Owner, free: seq<Addr>, local: seq<Addr>, thread: seq<Addr>, taken: seq<Addr>,
                          three: Freer)
  {
    && s.owner == o && Homes(s) && Lists(s, free, local, thread, taken) && Bits(s.bits, PAGE).Freeing?
    && Fr(s.freers, 2).Idle? && Fr(s.freers, 3) == three
  }

  lemma GoCollect(r: History, three: Freer) returns (r': History)
    requires Ok(r) && AtOwner(Last(r), Ready, [], [], [B], [], three)
    ensures OneMore(r, StartCollect(PAGE, false), r')
    ensures AtOwner(Last(r'), CollectLoad(PAGE, false, Back), [], [], [B], [], three)
  {
    r' := Go(r, StartCollect(PAGE, false));
  }

  lemma GoCollectLoad(r: History, three: Freer) returns (r': History)
    requires Ok(r) && AtOwner(Last(r), CollectLoad(PAGE, false, Back), [], [], [B], [], three)
    ensures OneMore(r, Run(true), r')
    ensures AtOwner(Last(r'), CollectTake(PAGE, false, Back), [], [], [B], [], three)
  {
    r' := Go(r, Run(true));
  }

  lemma GoCollectTake(r: History, three: Freer) returns (r': History)
    requires Ok(r) && Reachable(Last(r)) && AtOwner(Last(r), CollectTake(PAGE, false, Back), [], [], [B], [], three)
    ensures OneMore(r, Run(true), r')
    ensures AtOwner(Last(r'), CollectAppend(PAGE, false, Back), [], [], [], [B], three)
  {
    Heads(Last(r));
    TakeIs(Last(r), three);
    r' := Go(r, Run(true));
  }

  lemma TakeIs(s: State, three: Freer)
    requires AtOwner(s, CollectTake(PAGE, false, Back), [], [], [B], [], three) && Hd(s.head, ThreadOf(PAGE)) == B
    ensures AtOwner(TakeThreadFree(s, PAGE, false, Back), CollectAppend(PAGE, false, Back), [], [], [], [B], three)
  {
  }

  lemma GoCollectAppend(r: History, three: Freer) returns (r': History)
    requires Ok(r) && AtOwner(Last(r), CollectAppend(PAGE, false, Back), [], [], [], [B], three)
    ensures OneMore(r, Run(true), r')
    ensures AtOwner(Last(r'), CollectMove(PAGE, false, Back), [], [B], [], [], three)
  {
    r' := Go(r, Run(true));
  }

  lemma GoCollectMove(r: History, three: Freer) returns (r': History)
    requires Ok(r) && Reachable(Last(r)) && AtOwner(Last(r), CollectMove(PAGE, false, Back), [], [B], [], [], three)
    ensures OneMore(r, Run(true), r')
    ensures AtOwner(Last(r'), Ready, [B], [], [], [], three)
  {
    Heads(Last(r));
    MoveIs(Last(r), three);
    r' := Go(r, Run(true));
  }

  lemma MoveIs(s: State, three: Freer)
    requires AtOwner(s, CollectMove(PAGE, false, Back), [], [B], [], [], three)
    requires Hd(s.head, LocalOf(PAGE)) == B && Hd(s.head, FreeOf(PAGE)) == NULL
    ensures AtOwner(MoveLocalFree(s, PAGE, false).(owner := Ready), Ready, [B], [], [], [], three)
  {
  }

  lemma GoMalloc(r: History, three: Freer) returns (r': History)
    requires Ok(r) && Reachable(Last(r)) && AtOwner(Last(r), Ready, [B], [], [], [], three)
    ensures OneMore(r, Malloc(PAGE), r')
    ensures AtOwner(Last(r'), Ready, [], [], [], [], three) && Plc(Last(r').place, B).Live?
  {
    assert [B] + [] == [B];
    PopStep(Last(r), [], B);
    r' := Go(r, Malloc(PAGE));
  }

  lemma Recycle(r: History, three: Freer) returns (r': History)
    requires Ok(r) && AtOwner(Last(r), Ready, [], [], [B], [], three)
    ensures Ok(r') && AtOwner(Last(r'), Ready, [], [], [], [], three) && Plc(Last(r').place, B).Live?
    ensures Extends(r, r') && NotBy(r, r', 3) && |r.steps| < |r'.steps|
  {
    var r1 := GoCollect(r, three);
    var r2 := GoCollectLoad(r1, three);
    var r3 := GoCollectTake(r2, three);
    var r4 := GoCollectAppend(r3, three);
    var r5 := GoCollectMove(r4, three);
    r' := GoMalloc(r5, three);
    SixSteps(r, r1, r2, r3, r4, r5, r');
  }

  lemma SixSteps(r: History, r1: History, r2: History, r3: History, r4: History, r5: History, r6: History)
    requires Extends(r, r1) && Extends(r1, r2) && Extends(r2, r3)
    requires Extends(r3, r4) && Extends(r4, r5) && Extends(r5, r6)
    requires r1.steps == r.steps + [StartCollect(PAGE, false)] && r2.steps == r1.steps + [Run(true)]
    requires r3.steps == r2.steps + [Run(true)] && r4.steps == r3.steps + [Run(true)]
    requires r5.steps == r4.steps + [Run(true)] && r6.steps == r5.steps + [Malloc(PAGE)]
    ensures Extends(r, r6) && NotBy(r, r6, 3) && |r.steps| < |r6.steps|
  {
  }

  // ---- The first phase ----

  const SPAN: Span := Span(A, 8, [A, B, C])

  ghost predicate Fresh(s: State, free: seq<Addr>) {
    && s.owner.Ready? && Homes(s) && Lists(s, free, [], [], []) && Bits(s.bits, PAGE).UseDelayedFree?
    && Fr(s.freers, 1).Idle? && Fr(s.freers, 2).Idle? && Fr(s.freers, 3).Idle?
  }

  lemma Empty() returns (r: History)
    ensures Ok(r) && Init(Last(r)) && r.steps == []
  {
    var s := State(map[], map[], map[], map[], map[], map[], map[], Ready, map[], map[], map[], map[], map[], [], []);
    r := History([s], []);
  }

  /** The page is set up and has no block yet. */
  ghost predicate Bare(s: State) {
    && s.owner.Ready? && s.span == map[PAGE := SPAN] && Cap(s.cap, PAGE) == 0 && s.bits == map[PAGE := UseDelayedFree]
    && s.freers == map[] && s.list == map[] && s.home == map[]
  }

  lemma GoEnable(r: History) returns (r': History)
    requires Ok(r) && Init(Last(r))
    ensures Ok(r') && Reachable(Last(r')) && Bare(Last(r'))
  {
    assert Regular(SPAN);
    r' := Go(r, Enable(PAGE, SPAN));
  }

  lemma CarveIs(s: State)
    requires Bare(s)
    ensures Fresh(CarveBlocks(s, PAGE, [A, B, C]), [A, B, C])
  {
    var s' := CarveBlocks(s, PAGE, [A, B, C]);
    CarveListsIs(s);
    HomesIs(s'.home);
    assert s'.span == s.span && s'.owner == s.owner && s'.bits == s.bits && s'.freers == s.freers;
  }

  lemma CarveListsIs(s: State)
    requires s.list == map[]
    ensures Lists(CarveBlocks(s, PAGE, [A, B, C]), [A, B, C], [], [], [])
  {
    assert [A, B, C] + [] == [A, B, C];
  }

  lemma NextThree(s: State)
    requires Bare(s)
    ensures NextBlocks(s, PAGE, 3) == [A, B, C] && Enabled(s, Extend(PAGE, 3))
  {
    assert SPAN.blocks[0..3] == [A, B, C];
  }

  lemma HomesIs(home: map<Addr, Page>)
    requires home == map[] + HomeAt([A, B, C], PAGE)
    ensures Home(home, A) == PAGE && Home(home, B) == PAGE && Home(home, C) == PAGE
  {
    assert A in [A, B, C] && B in [A, B, C] && C in [A, B, C];
  }

  lemma GoExtend(r: History) returns (r': History)
    requires Ok(r) && Bare(Last(r))
    ensures Ok(r') && Reachable(Last(r')) && Fresh(Last(r'), [A, B, C])
  {
    NextThree(Last(r));
    CarveIs(Last(r));
    r' := Go(r, Extend(PAGE, 3));
  }

  lemma GoMallocFirst(r: History, b: Addr, l: seq<Addr>) returns (r': History)
    requires Ok(r) && Reachable(Last(r)) && Fresh(Last(r), [b] + l)
    ensures Ok(r') && Reachable(Last(r')) && Fresh(Last(r'), l) && Last(r').place == Last(r).place[b := Live]
  {
    PopStep(Last(r), l, b);
    r' := Go(r, Malloc(PAGE));
  }

  lemma StockUp() returns (r: History)
    ensures Ok(r) && Stocked(Last(r))
  {
    var r0 := Empty();
    var r1 := GoEnable(r0);
    var r2 := GoExtend(r1);
    r := AllocateAll(r2);
  }

  lemma AllocateAll(r: History) returns (r': History)
    requires Ok(r) && Reachable(Last(r)) && Fresh(Last(r), [A, B, C])
    ensures Ok(r') && Stocked(Last(r'))
  {
    FirstOfThree();
    var r1 := GoMallocFirst(r, A, [B, C]);
    var r2 := GoMallocFirst(r1, B, [C]);
    r' := GoMallocFirst(r2, C, []);
  }

  lemma FirstOfThree()
    ensures [A, B, C] == [A] + [B, C] && [B, C] == [B] + [C] && [C] == [C] + []
  {
  }

  // ---- The whole run ----

  lemma Setup() returns (r1: History, r2: History, r3: History)
    ensures OneMore(r1, FreeLoad(3), r2) && OneMore(r2, FreeLink(3), r3)
    ensures Fr(Last(r2).freers, 3) == Linking(C, PAGE, Word(B, Freeing))
    ensures Window1(Last(r3), [B], Idle, Pushing(C, PAGE, Word(B, Freeing)))
  {
    var r := StockUp();
    r := EnterWindow(r);
    r := PushB(r, Idle);
    r1, r2, r3 := LoadC(r);
  }

  /** The ABA situation is reached: `AbaSafePush` is not about runs that cannot be. */
  lemma AbaHappens() returns (r: History, i: nat, j: nat, k: nat)
    ensures Aba(r, 3, i, j, k)
  {
    var r1, r2, r3 := Setup();
    var r4, r5;
    r4, r5, r := Replay(r3);
    i, j, k := |r1.steps|, |r4.steps|, |r5.steps|;
    AbaIs(r1, r2, r3, r4, r5, r);
  }

  /** `B` is allocated, freed remotely again, and then thread 3 goes on. */
  lemma Replay(r3: History) returns (r4: History, r5: History, r: History)
    requires Ok(r3) && Window1(Last(r3), [B], Idle, Pushing(C, PAGE, Word(B, Freeing)))
    ensures Ok(r4) && Extends(r3, r4) && NotBy(r3, r4, 3) && |r3.steps| < |r4.steps|
    ensures Extends(r4, r5) && NotBy(r4, r5, 3) && |r4.steps| < |r5.steps| && OneMore(r5, FreePush(3, true), r)
    ensures Plc(Last(r4).place, B).Live? && Last(r4).PageWord(PAGE).ptr == NULL
  {
    var three := Pushing(C, PAGE, Word(B, Freeing));
    r4 := Recycle(r3, three);
    ReachableAt(r4.trace, r4.steps, |r4.steps|);
    WordIs(Last(r4));
    r5 := PushB(r4, three);
    r := LastPush(r5);
  }

  lemma LastPush(r5: History) returns (r: History)
    requires Ok(r5) && Window1(Last(r5), [B], Idle, Pushing(C, PAGE, Word(B, Freeing)))
    ensures OneMore(r5, FreePush(3, true), r)
  {
    ReachableAt(r5.trace, r5.steps, |r5.steps|);
    r := GoPush(r5, 3, C, Word(B, Freeing));
  }

  lemma AbaIs(r1: History, r2: History, r3: History, r4: History, r5: History, r: History)
    requires OneMore(r1, FreeLoad(3), r2) && OneMore(r2, FreeLink(3), r3)
    requires Ok(r4) && Extends(r3, r4) && NotBy(r3, r4, 3) && Extends(r4, r5) && NotBy(r4, r5, 3)
    requires |r3.steps| < |r4.steps| && OneMore(r5, FreePush(3, true), r) && |r4.steps| < |r5.steps|
    requires Fr(Last(r2).freers, 3) == Linking(C, PAGE, Word(B, Freeing))
    requires Plc(Last(r4).place, B).Live? && Last(r4).PageWord(PAGE).ptr == NULL
    ensures Aba(r, 3, |r1.steps|, |r4.steps|, |r5.steps|)
  {
    AbaSteps(r1.steps, r2.steps, r3.steps, r4.steps, r5.steps, r.steps);
    assert r.trace[|r2.steps|] == Last(r2) && r.trace[|r4.steps|] == Last(r4);
  }

  lemma AbaSteps(
    s1: seq<Step>, s2: seq<Step>, s3: seq<Step>, s4: seq<Step>, s5: seq<Step>, s: seq<Step>)
    requires s2 == s1 + [FreeLoad(3)] && s3 == s2 + [FreeLink(3)] && s3 <= s4 <= s5 && s == s5 + [FreePush(3, true)]
    requires forall m :: |s3| <= m < |s4| ==> NotOf(s4[m], 3)
    requires forall m :: |s4| <= m < |s5| ==> NotOf(s5[m], 3)
    ensures s[|s1|] == FreeLoad(3) && s[|s5|] == FreePush(3, true)
    ensures forall m :: |s1| < m < |s5| ==> NotOf(s[m], 3)
  {
    forall m | |s1| < m < |s5| ensures NotOf(s[m], 3) {
      assert s[m] == if m < |s3| then s3[m] else if m < |s4| then s4[m] else s5[m];
    }
  }
}
