/**
 * The cross-thread free protocol as a transition system.
 *
 * One owner thread allocates from its pages and reclaims blocks; any number of other
 * threads free blocks concurrently.  Every step is one atomic access to shared memory, or
 * a piece of work on memory that only the stepping thread owns.  The compare-exchange
 * steps carry a flag: with `ok` they need the expected value to be there, without it they
 * fail, which a weak compare-exchange may do at any time.
 *
 * The first group of fields of `State` is what the program stores.  The second group
 * is history: it records what the lists are meant to contain and who holds each block.  Steps
 * read the history in two ways only.  Appending a list reads its length and its last block,
 * which the program finds by walking it.  Freeing or writing to a block requires it to be
 * `Live`, which is what the user promises.  The page of a block is found from its address and
 * the pages set up, `PageOf`.
 */
module Protocol {
  import opened Chains

  type Page = nat
  type Tid = nat

  /** The two low bits of a page's atomic word, in the order of their encoding 0, 1, 2, 3. */
  datatype Delay = UseDelayedFree | Freeing | NoDelayedFree | NeverDelayedFree

  /** A page's atomic word: head of its `thread_free` list and delay state. */
  datatype Word = Word(ptr: Addr, delay: Delay)

  /** What `fetch_xor(3)` does to the delay bits. */
  function Xor3(d: Delay): Delay {
    match d
    case UseDelayedFree => NeverDelayedFree
    case Freeing => NoDelayedFree
    case NoDelayedFree => Freeing
    case NeverDelayedFree => UseDelayedFree
  }

  /** Every list a block can be on.  `Taken` and `Drained` are local variables of the owner:
      the `thread_free` list it has just taken, and the heap's delayed list it is draining. */
  datatype ListId =
    | FreeOf(page: Page)
    | LocalOf(page: Page)
    | ThreadOf(page: Page)
    | Delayed
    | Taken
    | Drained

  /** Where a block is: not carved out of a page yet, allocated to the user, on a list, in the
      hands of a freeing thread, or popped by the owner from the list it is draining. */
  datatype Place =
    | Unborn
    | Live
    | In(id: ListId)
    | Held(t: Tid)
    | Popped

  /** The block starts of a page, in address order, from its first block at `start`. */
  datatype Span = Span(start: Addr, bsize: nat, blocks: seq<Addr>)

  /** Block `i` starts at `start + i * bsize`, and words fit in a block and are aligned. */
  ghost predicate Regular(g: Span) {
    && 0 < g.start && 0 < g.bsize && g.start % 8 == 0 && g.bsize % 8 == 0
    && forall i :: 0 <= i < |g.blocks| ==> g.blocks[i] == g.start + i * g.bsize
  }

  /** No byte of a block of `g` is a byte of a block of `h`. */
  ghost predicate Apart(g: Span, h: Span) {
    g.start + |g.blocks| * g.bsize <= h.start || h.start + |h.blocks| * h.bsize <= g.start
  }

  /** The page set up that has a block starting at `b`: what the program computes from the address.
      Spans lie apart, so there is at most one. */
  ghost function PageOf(span: map<Page, Span>, b: Addr): Page {
    if exists p: Page :: HasBlock(span, p, b) then var p: Page :| HasBlock(span, p, b); p else 0
  }

  ghost predicate HasBlock(span: map<Page, Span>, p: Page, b: Addr) {
    p in span && b in span[p].blocks
  }

  /** The index of a block of the page. */
  ghost function IndexOf(g: Span, a: Addr): (i: int)
    ensures a in g.blocks ==> 0 <= i < |g.blocks| && g.blocks[i] == a
    ensures a !in g.blocks ==> i == -1
  {
    if a in g.blocks then var i :| 0 <= i < |g.blocks| && g.blocks[i] == a; i else -1
  }

  /** Program counter and locals of a thread inside `free_block_mt`. */
  datatype Freer =
    | Idle
    | Loading(b: Addr, p: Page)                  // top of the retry loop
    | Linking(b: Addr, p: Page, w: Word)         // not UseDelayedFree: write the next pointer
    | Pushing(b: Addr, p: Page, w: Word)         // compare-exchange the block onto thread_free
    | Entering(b: Addr, p: Page, w: Word)        // compare-exchange the bits to Freeing
    | DelayLoading(b: Addr, p: Page)             // load the head of the heap's delayed list
    | DelayLinking(b: Addr, p: Page, next: Addr)
    | DelayPushing(b: Addr, p: Page, next: Addr)
    | Leaving(p: Page)                           // fetch_xor(3)

  /** What the owner does after `page_free_collect` returns. */
  datatype Cont =
    | Back
    | FreeDelayed(b: Addr, allFreed: bool)

  /** Program counter and locals of the owner thread. */
  datatype Owner =
    | Ready
    | CollectLoad(p: Page, force: bool, then_: Cont)
    | CollectTake(p: Page, force: bool, then_: Cont)
    | CollectAppend(p: Page, force: bool, then_: Cont)
    | CollectMove(p: Page, force: bool, then_: Cont)
    | DrainSwap
    | DrainNext(allFreed: bool)
    | TryLoad(b: Addr, p: Page, spins: nat, allFreed: bool)
    | TryCas(b: Addr, p: Page, w: Word, spins: nat, allFreed: bool)
    | PutLoad(b: Addr)
    | PutLink(b: Addr, next: Addr)
    | PutCas(b: Addr, next: Addr)
    | FreeIt(b: Addr, p: Page, allFreed: bool)
    | RetireCheck(p: Page, resume: Owner)

  /** What became of a block popped from the drained list. */
  datatype Outcome = Outcome(b: Addr, freed: bool)

  // Every table of the state is total: what was never stored reads as the initial value.

  function Hd(head: map<ListId, Addr>, id: ListId): Addr { if id in head then head[id] else NULL }
  function Lst(list: map<ListId, seq<Addr>>, id: ListId): seq<Addr> { if id in list then list[id] else [] }
  function Bits(bits: map<Page, Delay>, p: Page): Delay { if p in bits then bits[p] else UseDelayedFree }
  function Used(used: map<Page, int>, p: Page): int { if p in used then used[p] else 0 }
  function Cap(cap: map<Page, nat>, p: Page): nat { if p in cap then cap[p] else 0 }
  function Fr(freers: map<Tid, Freer>, t: Tid): Freer { if t in freers then freers[t] else Idle }
  function Plc(place: map<Addr, Place>, b: Addr): Place { if b in place then place[b] else Unborn }
  function Home(home: map<Addr, Page>, b: Addr): Page { if b in home then home[b] else 0 }
  function Rep(rep: map<Page, Addr>, p: Page): Addr { if p in rep then rep[p] else NULL }
  function Window(window: map<Page, Tid>, p: Page): Tid { if p in window then window[p] else 0 }

  datatype State = State(
    // stored by the program
    mem: map<Addr, Addr>,
    head: map<ListId, Addr>,
    bits: map<Page, Delay>,
    used: map<Page, int>,
    cap: map<Page, nat>,
    span: map<Page, Span>,
    freers: map<Tid, Freer>,
    owner: Owner,
    // history
    list: map<ListId, seq<Addr>>,
    place: map<Addr, Place>,
    home: map<Addr, Page>,
    rep: map<Page, Addr>,
    window: map<Page, Tid>,
    orig: seq<Addr>,
    done: seq<Outcome>)
  {
    function PageWord(p: Page): Word { Word(Hd(head, ThreadOf(p)), Bits(bits, p)) }
  }

  /** Everything starts empty: no page, no block, nobody freeing. */
  ghost predicate Init(s: State) {
    s == State(map[], map[], map[], map[], map[], map[], map[], Ready,
               map[], map[], map[], map[], map[], [], [])
  }

  datatype Step =
    // a thread running free_block_mt
    | FreeStart(t: Tid, b: Addr)
    | FreeLoad(t: Tid)
    | FreeLink(t: Tid)
    | FreePush(t: Tid, ok: bool)
    | FreeEnter(t: Tid, ok: bool)
    | DelayLoad(t: Tid)
    | DelayLink(t: Tid)
    | DelayPush(t: Tid, ok: bool)
    | Leave(t: Tid)
    // the user of a live block
    | Scribble(b: Addr, v: Addr)
    // the owner between operations, or for Retire also after freeing a delayed block
    | Enable(p: Page, g: Span)
    | Extend(p: Page, n: nat)
    | Malloc(p: Page)
    | LocalFree(b: Addr)
    | Retire(p: Page)
    | StartCollect(p: Page, force: bool)
    | StartDrain
    // the owner inside an operation: its next step is fixed by its program counter
    | Run(ok: bool)

  ghost predicate Enabled(s: State, st: Step) {
    match st
    case FreeStart(t, b) => Fr(s.freers, t).Idle? && Plc(s.place, b).Live?
    case FreeLoad(t) => Fr(s.freers, t).Loading?
    case FreeLink(t) => Fr(s.freers, t).Linking?
    case FreePush(t, ok) => Fr(s.freers, t).Pushing? && (ok ==> s.PageWord(Fr(s.freers, t).p) == Fr(s.freers, t).w)
    case FreeEnter(t, ok) => Fr(s.freers, t).Entering? && (ok ==> s.PageWord(Fr(s.freers, t).p) == Fr(s.freers, t).w)
    case DelayLoad(t) => Fr(s.freers, t).DelayLoading?
    case DelayLink(t) => Fr(s.freers, t).DelayLinking?
    case DelayPush(t, ok) => Fr(s.freers, t).DelayPushing? && (ok ==> Hd(s.head, Delayed) == Fr(s.freers, t).next)
    case Leave(t) => Fr(s.freers, t).Leaving?
    case Scribble(b, v) => Plc(s.place, b).Live?
    case Enable(p, g) =>
      && s.owner.Ready? && p !in s.span
      && Regular(g) && forall q :: q in s.span ==> Apart(g, s.span[q])
    case Extend(p, n) => s.owner.Ready? && p in s.span && 0 < n && Cap(s.cap, p) + n <= |s.span[p].blocks|
    case Malloc(p) => s.owner.Ready? && Hd(s.head, FreeOf(p)) != NULL
    case LocalFree(b) => s.owner.Ready? && Plc(s.place, b).Live?
    case Retire(p) => (s.owner.Ready? || s.owner.DrainNext?) && p in s.span && Used(s.used, p) == 0
    case StartCollect(p, force) => s.owner.Ready? && p in s.span
    case StartDrain => s.owner.Ready?
    case Run(ok) =>
      match s.owner
      case Ready => false
      case TryCas(b, p, w, spins, allFreed) => ok ==> s.PageWord(p) == w
      case PutCas(b, next) => ok ==> Hd(s.head, Delayed) == next
      case _ => true
  }

  /** Move all blocks of `l` to `to`. */
  function Relocate(place: map<Addr, Place>, l: seq<Addr>, to: Place): map<Addr, Place> {
    map a | a in place.Keys + (set b | b in l) :: if a in l then to else place[a]
  }

  function SetFreer(s: State, t: Tid, f: Freer): State {
    s.(freers := s.freers[t := f])
  }

  /** Put a block that is linked to the head of list `id` at its front. */
  function PushOn(s: State, id: ListId, b: Addr): State {
    s.(head := s.head[id := b], list := s.list[id := [b] + Lst(s.list, id)], place := s.place[b := In(id)])
  }

  /** Remove the first block of list `id` and put it at `to`. */
  function PopFrom(s: State, id: ListId, to: Place): State {
    var b := Hd(s.head, id);
    s.(head := s.head[id := Next(s.mem, b)],
       list := s.list[id := if Lst(s.list, id) == [] then [] else Lst(s.list, id)[1..]],
       place := s.place[b := to])
  }

  /** Hand the whole of list `src` to the empty list `dst`. */
  function TakeAll(s: State, src: ListId, dst: ListId): State {
    s.(head := s.head[src := NULL][dst := Hd(s.head, src)],
       list := s.list[src := []][dst := Lst(s.list, src)],
       place := Relocate(s.place, Lst(s.list, src), In(dst)))
  }

  /** Link the last block of the non-empty list `src` to the head of `dst`: `dst` becomes `src`
      followed by `dst`. */
  function AppendAll(s: State, src: ListId, dst: ListId): State
    requires Lst(s.list, src) != []
  {
    var front := Lst(s.list, src);
    s.(mem := s.mem[front[|front| - 1] := Hd(s.head, dst)],
       head := s.head[src := NULL][dst := Hd(s.head, src)],
       list := s.list[src := []][dst := front + Lst(s.list, dst)],
       place := Relocate(s.place, front, In(dst)))
  }

  function HomeAt(bs: seq<Addr>, p: Page): map<Addr, Page> { map a | a in bs :: p }

  /** The `n` blocks of page `p` after those below its capacity. */
  function NextBlocks(s: State, p: Page, n: nat): seq<Addr> {
    if p in s.span && Cap(s.cap, p) + n <= |s.span[p].blocks|
    then s.span[p].blocks[Cap(s.cap, p)..Cap(s.cap, p) + n] else []
  }

  /** Link the new blocks `bs` of page `p` in front of its free list. */
  function CarveBlocks(s: State, p: Page, bs: seq<Addr>): State {
    s.(mem := LinkRun(s.mem, bs, Hd(s.head, FreeOf(p))),
       head := s.head[FreeOf(p) := At(bs + Lst(s.list, FreeOf(p)), 0)],
       list := s.list[FreeOf(p) := bs + Lst(s.list, FreeOf(p))],
       place := Relocate(s.place, bs, In(FreeOf(p))),
       home := s.home + HomeAt(bs, p),
       cap := s.cap[p := Cap(s.cap, p) + |bs|])
  }

  /** Free a block to its page on the owner's own thread. */
  function FreeToPage(s: State, b: Addr, p: Page): State {
    var linked := s.(mem := s.mem[b := Hd(s.head, FreeOf(p))]);
    PushOn(linked, FreeOf(p), b).(used := s.used[p := Used(s.used, p) - 1])
  }

  function ApplyFreer(s: State, t: Tid, ok: bool): State {
    match Fr(s.freers, t)
    case Idle => s
    case Loading(b, p) =>
      var w := s.PageWord(p);
      SetFreer(s, t, if w.delay.UseDelayedFree? then Entering(b, p, w) else Linking(b, p, w))
    case Linking(b, p, w) =>
      SetFreer(s.(mem := s.mem[b := w.ptr]), t, Pushing(b, p, w))
    case Pushing(b, p, w) =>
      if ok then SetFreer(PushOn(s, ThreadOf(p), b), t, Idle)
      else SetFreer(s, t, Loading(b, p))
    case Entering(b, p, w) =>
      if ok then
        SetFreer(s.(bits := s.bits[p := Freeing], rep := s.rep[p := b], window := s.window[p := t]),
                 t, DelayLoading(b, p))
      else SetFreer(s, t, Loading(b, p))
    case DelayLoading(b, p) => SetFreer(s, t, DelayLinking(b, p, Hd(s.head, Delayed)))
    case DelayLinking(b, p, next) =>
      SetFreer(s.(mem := s.mem[b := next]), t, DelayPushing(b, p, next))
    case DelayPushing(b, p, next) =>
      if ok then SetFreer(PushOn(s, Delayed, b), t, Leaving(p))
      else SetFreer(s, t, DelayLoading(b, p))
    case Leaving(p) => SetFreer(s.(bits := s.bits[p := Xor3(Bits(s.bits, p))]), t, Idle)
  }

  /** `page_free_collect` is over: return to the caller. */
  function Resume(p: Page, k: Cont): Owner {
    match k
    case Back => Ready
    case FreeDelayed(b, allFreed) => FreeIt(b, p, allFreed)
  }

  /** What `try_use_delayed_free` does on loading `w`: spin while another thread is in its window
      and then give up, compare-exchange away NoDelayedFree, or have nothing to do. */
  function TryNext(b: Addr, p: Page, w: Word, spins: nat, allFreed: bool): Owner {
    match w.delay
    case Freeing => if spins >= 4 then PutLoad(b) else TryLoad(b, p, spins + 1, allFreed)
    case NoDelayedFree => TryCas(b, p, w, spins, allFreed)
    case _ => CollectLoad(p, false, FreeDelayed(b, allFreed))
  }

  /** Take the whole `thread_free` list of the page, leaving its delay bits; nothing follows when it is
      empty. */
  function TakeThreadFree(s: State, p: Page, force: bool, k: Cont): State {
    if Hd(s.head, ThreadOf(p)) == NULL then s.(owner := CollectMove(p, force, k))
    else TakeAll(s, ThreadOf(p), Taken).(owner := CollectAppend(p, force, k))
  }

  /** Make `local_free` the new `free` list, or append it to a non-empty one when forced. */
  function MoveLocalFree(s: State, p: Page, force: bool): State {
    if Hd(s.head, LocalOf(p)) == NULL then s
    else if Hd(s.head, FreeOf(p)) == NULL then TakeAll(s, LocalOf(p), FreeOf(p))
    else if force && Lst(s.list, LocalOf(p)) != [] then AppendAll(s, LocalOf(p), FreeOf(p))
    else s
  }

  ghost function PopDrained(s: State, allFreed: bool): State {
    var b := Hd(s.head, Drained);
    PopFrom(s, Drained, Popped).(owner := TryLoad(b, PageOf(s.span, b), 0, allFreed))
  }

  ghost function ApplyOwner(s: State, ok: bool): State {
    match s.owner
    case Ready => s
    case CollectLoad(p, force, k) =>
      s.(owner := if force || s.PageWord(p) != Word(NULL, UseDelayedFree)
                  then CollectTake(p, force, k) else CollectMove(p, force, k))
    case CollectTake(p, force, k) => TakeThreadFree(s, p, force, k)
    case CollectAppend(p, force, k) =>
      if Lst(s.list, Taken) == [] then s
      else AppendAll(s, Taken, LocalOf(p)).(used := s.used[p := Used(s.used, p) - |Lst(s.list, Taken)|],
                                            owner := CollectMove(p, force, k))
    case CollectMove(p, force, k) => MoveLocalFree(s, p, force).(owner := Resume(p, k))
    case DrainSwap =>
      TakeAll(s, Delayed, Drained).(owner := DrainNext(true), orig := Lst(s.list, Delayed), done := [])
    case DrainNext(allFreed) => if Hd(s.head, Drained) == NULL then s.(owner := Ready) else PopDrained(s, allFreed)
    case TryLoad(b, p, spins, allFreed) =>
      s.(owner := TryNext(b, p, s.PageWord(p), spins, allFreed))
    case TryCas(b, p, w, spins, allFreed) =>
      if ok then s.(bits := s.bits[p := UseDelayedFree],
                    owner := CollectLoad(p, false, FreeDelayed(b, allFreed)))
      else s.(owner := TryLoad(b, p, spins, allFreed))
    case PutLoad(b) => s.(owner := PutLink(b, Hd(s.head, Delayed)))
    case PutLink(b, next) => s.(mem := s.mem[b := next], owner := PutCas(b, next))
    case PutCas(b, next) =>
      if ok then PushOn(s, Delayed, b).(owner := DrainNext(false), done := s.done + [Outcome(b, false)])
      else s.(owner := PutLoad(b))
    case FreeIt(b, p, allFreed) =>
      FreeToPage(s, b, p).(owner := DrainNext(allFreed), done := s.done + [Outcome(b, true)])
    case RetireCheck(p, resume) =>
      if Bits(s.bits, p).Freeing? then s
      else s.(span := s.span - {p}, owner := resume)
  }

  ghost function Apply(s: State, st: Step): State {
    match st
    case FreeStart(t, b) =>
      SetFreer(s, t, Loading(b, PageOf(s.span, b))).(place := s.place[b := Held(t)])
    case FreeLoad(t) => ApplyFreer(s, t, true)
    case FreeLink(t) => ApplyFreer(s, t, true)
    case FreePush(t, ok) => ApplyFreer(s, t, ok)
    case FreeEnter(t, ok) => ApplyFreer(s, t, ok)
    case DelayLoad(t) => ApplyFreer(s, t, true)
    case DelayLink(t) => ApplyFreer(s, t, true)
    case DelayPush(t, ok) => ApplyFreer(s, t, ok)
    case Leave(t) => ApplyFreer(s, t, true)
    case Scribble(b, v) => s.(mem := s.mem[b := v])
    case Enable(p, g) =>
      s.(span := s.span[p := g], cap := s.cap[p := 0], used := s.used[p := 0],
         bits := s.bits[p := UseDelayedFree])
    case Extend(p, n) => CarveBlocks(s, p, NextBlocks(s, p, n))
    case Malloc(p) => PopFrom(s, FreeOf(p), Live).(used := s.used[p := Used(s.used, p) + 1])
    case LocalFree(b) => FreeToPage(s, b, PageOf(s.span, b))
    case Retire(p) =>
      s.(head := s.head[FreeOf(p) := NULL][LocalOf(p) := NULL],
         list := s.list[FreeOf(p) := []][LocalOf(p) := []],
         place := Relocate(s.place, Lst(s.list, FreeOf(p)) + Lst(s.list, LocalOf(p)), Unborn),
         cap := s.cap[p := 0],
         owner := RetireCheck(p, s.owner))
    case StartCollect(p, force) => s.(owner := CollectLoad(p, force, Back))
    case StartDrain =>
      s.(owner := if Hd(s.head, Delayed) == NULL then Ready else DrainSwap)
    case Run(ok) => ApplyOwner(s, ok)
  }

  ghost predicate StepsTo(s: State, st: Step, s': State) {
    Enabled(s, st) && s' == Apply(s, st)
  }

  // Case distinctions, for proofs about all program counters at once.

  lemma FreerCases(f: Freer)
    ensures || f.Idle? || f.Loading? || f.Linking? || f.Pushing? || f.Entering? || f.DelayLoading?
            || f.DelayLinking? || f.DelayPushing? || f.Leaving?
  {
  }

  lemma OwnerCases(o: Owner)
    ensures || o.Ready? || o.CollectLoad? || o.CollectTake? || o.CollectAppend? || o.CollectMove?
            || o.DrainSwap? || o.DrainNext? || o.TryLoad? || o.TryCas? || o.PutLoad? || o.PutLink?
            || o.PutCas? || o.FreeIt? || o.RetireCheck?
  {
  }

  lemma StepCases(st: Step)
    ensures || st.FreeStart? || st.FreeLoad? || st.FreeLink? || st.FreePush? || st.FreeEnter?
            || st.DelayLoad? || st.DelayLink? || st.DelayPush? || st.Leave? || st.Scribble?
            || st.Enable? || st.Extend? || st.Malloc? || st.LocalFree? || st.Retire?
            || st.StartCollect? || st.StartDrain? || st.Run?
  {
  }

  /** `trace` is a run: it starts empty and every state follows from the one before by `steps`. */
  ghost predicate IsRun(trace: seq<State>, steps: seq<Step>) {
    && |trace| == |steps| + 1
    && Init(trace[0])
    && forall i :: 0 <= i < |steps| ==> StepsTo(trace[i], steps[i], trace[i + 1])
  }
}
