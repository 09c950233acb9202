/**
 * When `try_use_delayed_free` gives up: a block goes back to the delayed list exactly when the owner has found its
 * page in state Freeing five times in one pass.
 */
module ProtocolSpin {
  import opened Chains
  import opened Protocol
  import opened ProtocolInv
  import opened ProtocolRuns
  import opened ProtocolTheorems
  import opened ProtocolPasses
  import opened ProtocolProgress
  import opened ProtocolCollect

  /** How often `try_use_delayed_free` finds another thread in its window before it gives up. */
  const TRIES: nat := 5

  /** With this step the owner loads the word of the page of `b`, for `b`, and finds Freeing. */
  ghost predicate FindsFreeing(s: State, st: Step, b: Addr) {
    st.Run? && s.owner.TryLoad? && s.owner.b == b && Bits(s.bits, PageOf(s.span, b)).Freeing?
  }

  ghost function One(yes: bool): nat { if yes then 1 else 0 }

  /** In how many states from `i` up to `j` the owner does so. */
  ghost function FreeingLoads(trace: seq<State>, steps: seq<Step>, i: nat, j: nat, b: Addr): nat
    requires j <= |steps| < |trace|
    decreases j
  {
    if j <= i then 0
    else FreeingLoads(trace, steps, i, j - 1, b) + One(FindsFreeing(trace[j - 1], steps[j - 1], b))
  }

  // ---- What the number of loads says about a block ----

  /** The owner has `b` in its hands. */
  ghost predicate InHandIs(o: Owner, b: Addr) { OwnerHolds(o) && OwnerBlock(o) == b }

  /** What `n` loads that found Freeing mean while the block is in the owner's hands. */
  ghost predicate HandLoads(o: Owner, n: nat) {
    match o
    case TryLoad(_, _, spins, _) => n == spins < TRIES
    case TryCas(_, _, _, spins, _) => n == spins < TRIES
    case PutLoad(_) => n == TRIES
    case PutLink(_, _) => n == TRIES
    case PutCas(_, _) => n == TRIES
    case _ => n < TRIES
  }

  /** What they mean once it has been handled. */
  ghost predicate OutcomeLoads(o: Outcome, n: nat) {
    if o.freed then n < TRIES else n == TRIES
  }

  ghost predicate Loads(s: State, b: Addr, n: nat) {
    && (forall m :: 0 <= m < |s.done| && s.done[m].b == b ==> OutcomeLoads(s.done[m], n))
    && (InHandIs(s.owner, b) ==> HandLoads(s.owner, n))
    && (b !in Handled(s.done) && !InHandIs(s.owner, b) ==> n == 0)
  }

  /** The list taken has no repetition, so a block in hand or still to come has not been handled. */
  lemma NotHandled(s: State, b: Addr)
    requires PassInv(s) && Draining(s.owner) && NoDup(s.orig)
    requires InHandIs(s.owner, b) || b in Lst(s.list, Drained)
    ensures b !in Handled(s.done)
  {
    var h, rest := Handled(s.done), InHand(s.owner) + Lst(s.list, Drained);
    assert s.orig == h + rest;
    assert b in rest;
    if b in h { Twice(h, rest, b); }
  }

  lemma Twice(h: seq<Addr>, rest: seq<Addr>, b: Addr)
    requires b in h && b in rest
    ensures !NoDup(h + rest)
  {
    var x :| 0 <= x < |h| && h[x] == b;
    var y :| 0 <= y < |rest| && rest[y] == b;
    assert (h + rest)[x] == (h + rest)[|h| + y];
  }

  lemma NotYetDone(s: State, b: Addr)
    requires b !in Handled(s.done)
    ensures forall m :: 0 <= m < |s.done| ==> s.done[m].b != b
  {
    forall m | 0 <= m < |s.done| ensures s.done[m].b != b { assert Handled(s.done)[m] == s.done[m].b; }
  }

  lemma DoneIs(s: State, b: Addr)
    requires b in Handled(s.done)
    ensures exists m :: 0 <= m < |s.done| && s.done[m].b == b
  {
    var m :| 0 <= m < |s.done| && Handled(s.done)[m] == b;
    assert s.done[m].b == b;
  }

  // ---- What one step of a pass does to the block in hand ----

  /** With this step the owner finds the page of the block in its hands in state Freeing. */
  ghost predicate Sees(s: State, st: Step) {
    st.Run? && s.owner.TryLoad? && Bits(s.bits, s.owner.p).Freeing?
  }

  /** The owner goes on with the same block, or none, in its hands. */
  ghost predicate SameBlock(o: Owner, o': Owner) {
    && (OwnerHolds(o) <==> OwnerHolds(o')) && (OwnerHolds(o) ==> OwnerBlock(o') == OwnerBlock(o))
  }

  /** Where `try_use_delayed_free` and what follows it go from one program counter to the next. */
  ghost predicate Moves(o: Owner, o': Owner, sees: bool) {
    match o
    case TryLoad(_, _, spins, _) =>
      if sees then (if spins < TRIES - 1 then o'.TryLoad? && o'.spins == spins + 1 else o'.PutLoad?)
      else o' == o || (o'.TryCas? && o'.spins == spins) || o'.CollectLoad?
    case TryCas(_, _, _, spins, _) => !sees && (o' == o || (o'.TryLoad? && o'.spins == spins) || o'.CollectLoad?)
    case PutLoad(_) => !sees && Putting(o')
    case PutLink(_, _) => !sees && Putting(o')
    case PutCas(_, _) => !sees && Putting(o')
    case _ => !sees && (o' == o || Collecting(o') || o'.FreeIt?)
  }

  ghost predicate Keeps(s: State, s': State, sees: bool) {
    && s'.done == s.done && SameBlock(s.owner, s'.owner)
    && (if OwnerHolds(s.owner) then Moves(s.owner, s'.owner, sees) else !sees)
  }

  /** The owner is done with its block: it put it back, or freed it. */
  ghost predicate Settles(s: State, s': State, sees: bool) {
    && !sees && (s.owner.PutCas? || s.owner.FreeIt?) && !OwnerHolds(s'.owner)
    && s'.done == s.done + [Outcome(s.owner.b, s.owner.FreeIt?)]
  }

  ghost predicate TakesNext(s: State, s': State, sees: bool) {
    && !sees && s.owner.DrainNext? && s'.done == s.done
    && s'.owner.TryLoad? && s'.owner.spins == 0 && s'.owner.b in Lst(s.list, Drained)
  }

  ghost predicate HandStep(s: State, s': State, sees: bool) {
    Keeps(s, s', sees) || Settles(s, s', sees) || TakesNext(s, s', sees)
  }

  lemma Advance(s: State, s': State, sees: bool, b: Addr, n: nat)
    requires HandStep(s, s', sees) && PassInv(s) && Draining(s.owner) && NoDup(s.orig) && Loads(s, b, n)
    ensures Loads(s', b, n + One(sees && InHandIs(s.owner, b)))
  {
    if TakesNext(s, s', sees) {
      NotHandled(s, s'.owner.b);
      NotYetDone(s, s'.owner.b);
    } else if Settles(s, s', sees) {
      SettleLoads(s, s', b, n, Outcome(s.owner.b, s.owner.FreeIt?));
    } else {
      KeepLoads(s, s', sees, b, n);
    }
  }

  lemma KeepLoads(s: State, s': State, sees: bool, b: Addr, n: nat)
    requires Keeps(s, s', sees) && PassInv(s) && Draining(s.owner) && NoDup(s.orig) && Loads(s, b, n)
    ensures Loads(s', b, n + One(sees && InHandIs(s.owner, b)))
  {
    if InHandIs(s.owner, b) {
      NotHandled(s, b);
      NotYetDone(s, b);
      MoveLoads(s.owner, s'.owner, sees, n);
    }
  }

  lemma MoveLoads(o: Owner, o': Owner, sees: bool, n: nat)
    requires Moves(o, o', sees) && HandLoads(o, n)
    ensures HandLoads(o', n + One(sees))
  {
  }

  lemma SettleLoads(s: State, s': State, b: Addr, n: nat, o: Outcome)
    requires Loads(s, b, n) && InHandIs(s.owner, o.b) && !OwnerHolds(s'.owner) && s'.done == s.done + [o]
    requires o.b == b ==> OutcomeLoads(o, n)
    ensures Loads(s', b, n)
  {
    forall m | 0 <= m < |s'.done| && s'.done[m].b == b ensures OutcomeLoads(s'.done[m], n) {
      if m < |s.done| { assert s'.done[m] == s.done[m]; }
    }
    ProtocolOwner.HandledMore(s.done, o);
  }

  // ---- Every step of a pass is such a step ----

  lemma TryHands(s: State, ok: bool)
    requires s.owner.TryLoad?
    ensures Keeps(s, ApplyOwner(s, ok), Sees(s, Run(ok)))
  {
    var o := s.owner;
    var o' := TryNext(o.b, o.p, s.PageWord(o.p), o.spins, o.allFreed);
    assert ApplyOwner(s, ok) == s.(owner := o');
    TryMoves(o, o', s.PageWord(o.p));
  }

  lemma TryMoves(o: Owner, o': Owner, w: Word)
    requires o.TryLoad? && o' == TryNext(o.b, o.p, w, o.spins, o.allFreed)
    ensures SameBlock(o, o') && Moves(o, o', w.delay.Freeing?)
  {
  }

  lemma TryCasHands(s: State, ok: bool)
    requires s.owner.TryCas?
    ensures Keeps(s, ApplyOwner(s, ok), false)
  {
    if ok {
    }
  }

  lemma PutHands(s: State, ok: bool)
    requires s.owner.PutLoad? || s.owner.PutLink?
    ensures Keeps(s, ApplyOwner(s, ok), false)
  {
    if s.owner.PutLoad? {
    }
  }

  lemma PutCasHands(s: State, ok: bool)
    requires s.owner.PutCas?
    ensures HandStep(s, ApplyOwner(s, ok), false)
  {
    if ok { PutBackHands(s); } else { FailedPutHands(s); }
  }

  lemma PutBackHands(s: State)
    requires s.owner.PutCas?
    ensures Settles(s, ApplyOwner(s, true), false)
  {
  }

  lemma FailedPutHands(s: State)
    requires s.owner.PutCas?
    ensures Keeps(s, ApplyOwner(s, false), false)
  {
  }

  lemma FreeItHands(s: State, ok: bool)
    requires s.owner.FreeIt?
    ensures Settles(s, ApplyOwner(s, ok), false)
  {
  }

  lemma CollectHands(s: State, ok: bool)
    requires Inv(s) && Collecting(s.owner) && s.owner.then_.FreeDelayed?
    ensures Keeps(s, ApplyOwner(s, ok), false)
  {
    RunIs(s, ok);
    OwnerRecord(s, ok);
    StepHands(s, ApplyOwner(s, ok));
  }

  lemma StepHands(s: State, s': State)
    requires Collecting(s.owner) && s.owner.then_.FreeDelayed? && CollectStep(s, s') && s'.done == s.done
    ensures Keeps(s, s', false)
  {
  }

  lemma NextHands(s: State, ok: bool)
    requires Inv(s) && s.owner.DrainNext? && Draining(ApplyOwner(s, ok).owner)
    ensures TakesNext(s, ApplyOwner(s, ok), false)
  {
    if Hd(s.head, Drained) == NULL {
      DrainOver(s, ok);
    } else {
      FirstOf(s, Drained);
      PopHands(s, ok);
    }
  }

  lemma DrainOver(s: State, ok: bool)
    requires s.owner.DrainNext? && Hd(s.head, Drained) == NULL
    ensures ApplyOwner(s, ok).owner.Ready?
  {
  }

  lemma PopHands(s: State, ok: bool)
    requires s.owner.DrainNext? && Hd(s.head, Drained) != NULL && Hd(s.head, Drained) in Lst(s.list, Drained)
    ensures TakesNext(s, ApplyOwner(s, ok), false)
  {
  }

  lemma CheckHands(s: State, ok: bool)
    requires Inv(s) && s.owner.RetireCheck? && s.owner.resume.DrainNext?
    ensures Keeps(s, ApplyOwner(s, ok), false)
  {
    ProtocolPages.RetireCheckKeeps(s);
    ReleaseTurn(s, ok);
    ReleaseRecord(s, ok);
  }

  lemma RunHands(s: State, ok: bool)
    requires Inv(s) && Draining(s.owner) && Draining(ApplyOwner(s, ok).owner)
    ensures HandStep(s, ApplyOwner(s, ok), Sees(s, Run(ok)))
  {
    if s.owner.TryLoad? || s.owner.TryCas? || Putting(s.owner) || s.owner.FreeIt? {
      HandleHands(s, ok);
    } else {
      assert !Sees(s, Run(ok));
      QuietHands(s, ok);
    }
  }

  lemma QuietHands(s: State, ok: bool)
    requires Inv(s) && Draining(s.owner) && Draining(ApplyOwner(s, ok).owner)
    requires Collecting(s.owner) || s.owner.DrainNext? || s.owner.RetireCheck?
    ensures HandStep(s, ApplyOwner(s, ok), false)
  {
    if s.owner.DrainNext? {
      NextHands(s, ok);
    } else {
      KeptHands(s, ok);
    }
  }

  lemma KeptHands(s: State, ok: bool)
    requires Inv(s) && Draining(s.owner) && (Collecting(s.owner) || s.owner.RetireCheck?)
    ensures Keeps(s, ApplyOwner(s, ok), false)
  {
    if s.owner.RetireCheck? {
      CheckHands(s, ok);
    } else {
      CollectHands(s, ok);
    }
  }

  lemma HandleHands(s: State, ok: bool)
    requires s.owner.TryLoad? || s.owner.TryCas? || Putting(s.owner) || s.owner.FreeIt?
    ensures HandStep(s, ApplyOwner(s, ok), Sees(s, Run(ok)))
  {
    match s.owner
    case TryLoad(_, _, _, _) => TryHands(s, ok);
    case TryCas(_, _, _, _, _) => TryCasHands(s, ok);
    case PutLoad(_) => PutHands(s, ok);
    case PutLink(_, _) => PutHands(s, ok);
    case PutCas(_, _) => PutCasHands(s, ok);
    case FreeIt(_, _, _) => FreeItHands(s, ok);
  }

  lemma SameHandsStep(s: State, s': State)
    requires Draining(s.owner) && s'.done == s.done
    requires s'.owner == s.owner || (!OwnerHolds(s.owner) && !OwnerHolds(s'.owner))
    ensures HandStep(s, s', false)
  {
  }

  lemma OtherHands(s: State, st: Step)
    requires Enabled(s, st) && !st.Run? && Draining(s.owner)
    ensures HandStep(s, Apply(s, st), false)
  {
    if IsFreerStep(st) { FreerStepRecord(s, st); } else { OtherRecord(s, st); }
    if OfOthers(st) {
      OthersGrow(s, st);
    } else {
      PassStepCases(s, st);
      RetireRank(s, st.p);
    }
    SameHandsStep(s, Apply(s, st));
  }

  lemma StepHandsIs(s: State, st: Step, s': State)
    requires Inv(s) && StepsTo(s, st, s') && Draining(s.owner) && Draining(s'.owner)
    ensures HandStep(s, s', Sees(s, st))
  {
    if st.Run? {
      RunStepIs(s, st.ok);
      RunHands(s, st.ok);
    } else {
      OtherHands(s, st);
    }
  }

  // ---- Whole passes ----

  /** Step `k` of the run is a step of a pass. */
  ghost predicate HandStepAt(trace: seq<State>, steps: seq<Step>, k: nat) {
    && k < |steps| && k + 1 < |trace| && PassInv(trace[k]) && Draining(trace[k].owner)
    && trace[k + 1].orig == trace[k].orig
    && HandStep(trace[k], trace[k + 1], Sees(trace[k], steps[k]))
    && (trace[k].owner.TryLoad? ==> trace[k].owner.p == PageOf(trace[k].span, trace[k].owner.b))
  }

  lemma HandStepIs(trace: seq<State>, steps: seq<Step>, k: nat)
    requires IsRun(trace, steps) && k < |steps| && Draining(trace[k].owner) && Draining(trace[k + 1].owner)
    ensures HandStepAt(trace, steps, k)
  {
    RunKeepsInv(trace, steps, k);
    StepTaken(trace, steps, k);
    StepHandsIs(trace[k], steps[k], trace[k + 1]);
    StepRecord(trace[k], steps[k], trace[k + 1]);
    if trace[k].owner.TryLoad? { PageOfIs(trace[k], trace[k].owner.b); }
  }

  lemma FirstLoads(trace: seq<State>, steps: seq<Step>, i: nat, b: Addr)
    requires InPass(trace, steps, i, i + 1)
    ensures Loads(trace[i + 1], b, FreeingLoads(trace, steps, i, i + 1, b)) && NoDup(trace[i + 1].orig)
  {
    RunKeepsInv(trace, steps, i);
    StepTaken(trace, steps, i);
    RunStepIs(trace[i], steps[i].ok);
    PassStart(trace[i], steps[i].ok);
    SwapTurn(trace[i], steps[i].ok);
    assert ListInv(trace[i], Delayed);
    NoLoadsYet(trace[i + 1], b);
    assert FreeingLoads(trace, steps, i, i, b) == 0;
  }

  lemma NoLoadsYet(s: State, b: Addr)
    requires s.owner.DrainNext? && s.done == []
    ensures Loads(s, b, 0)
  {
  }

  lemma {:induction false} CountLoads(trace: seq<State>, steps: seq<Step>, i: nat, j: nat, b: Addr)
    requires i < j <= |steps| < |trace| && forall x :: i < x < j ==> HandStepAt(trace, steps, x)
    requires Loads(trace[i + 1], b, FreeingLoads(trace, steps, i, i + 1, b)) && NoDup(trace[i + 1].orig)
    ensures Loads(trace[j], b, FreeingLoads(trace, steps, i, j, b)) && NoDup(trace[j].orig)
  {
    if j > i + 1 {
      var k := j - 1;
      CountLoads(trace, steps, i, k, b);
      assert HandStepAt(trace, steps, k);
      Advance(trace[k], trace[j], Sees(trace[k], steps[k]), b, FreeingLoads(trace, steps, i, k, b));
    }
  }

  lemma PassLoads(trace: seq<State>, steps: seq<Step>, i: nat, j: nat, b: Addr)
    requires InPass(trace, steps, i, j)
    ensures Loads(trace[j], b, FreeingLoads(trace, steps, i, j, b)) && NoDup(trace[j].orig)
  {
    FirstLoads(trace, steps, i, b);
    forall x | i < x < j ensures HandStepAt(trace, steps, x) { HandStepIs(trace, steps, x); }
    CountLoads(trace, steps, i, j, b);
  }

  /** The owner puts a block back only after finding the page of that block in state Freeing in exactly five
      states of the pass, and it never finds it so more often. */
  lemma GivesUpAfterFive(trace: seq<State>, steps: seq<Step>, i: nat, j: nat, b: Addr)
    requires InPass(trace, steps, i, j)
    ensures FreeingLoads(trace, steps, i, j, b) <= TRIES
    ensures Putting(trace[j].owner) ==> FreeingLoads(trace, steps, i, j, trace[j].owner.b) == TRIES
  {
    PassLoads(trace, steps, i, j, b);
    if Putting(trace[j].owner) { PassLoads(trace, steps, i, j, trace[j].owner.b); }
    LoadsBounded(trace[j], b, FreeingLoads(trace, steps, i, j, b));
  }

  lemma LoadsBounded(s: State, b: Addr, n: nat)
    requires Loads(s, b, n)
    ensures n <= TRIES
  {
    if b in Handled(s.done) { DoneIs(s, b); }
  }

  /** What becomes of every block of the delayed list: it is freed if the owner found its page in state Freeing
      fewer than five times, and put back if it did so five times. */
  lemma FreedUnlessFive(trace: seq<State>, steps: seq<Step>, i: nat, j: nat, b: Addr)
    requires InPass(trace, steps, i, j) && OnChain(trace[i], Delayed, b)
    requires trace[j].owner.DrainNext? && Hd(trace[j].head, Drained) == NULL
    ensures exists m :: 0 <= m < |trace[j].done| && trace[j].done[m].b == b
    ensures forall m :: 0 <= m < |trace[j].done| && trace[j].done[m].b == b ==>
              (trace[j].done[m].freed <==> FreeingLoads(trace, steps, i, j, b) < TRIES)
  {
    DelayedPass(trace, steps, i, j);
    RunKeepsInv(trace, steps, i);
    PassLoads(trace, steps, i, j, b);
    FreedOrFive(trace[i], trace[j], b, FreeingLoads(trace, steps, i, j, b));
  }

  lemma FreedOrFive(s: State, s': State, b: Addr, n: nat)
    requires Inv(s) && OnChain(s, Delayed, b) && Handled(s'.done) == Lst(s.list, Delayed) && Loads(s', b, n)
    ensures exists m :: 0 <= m < |s'.done| && s'.done[m].b == b
    ensures forall m :: 0 <= m < |s'.done| && s'.done[m].b == b ==> (s'.done[m].freed <==> n < TRIES)
  {
    OnChainIff(s, Delayed, b);
    assert BlockInv(s, b);
    DoneIs(s', b);
  }

  // ---- A page that leaves Freeing ----

  /** Nothing but a compare-exchange that replaces UseDelayedFree sets the bits to Freeing, so while the owner
      has not checked its block a page that has left Freeing stays out of it. */
  lemma FreerKeepsOut(s: State, t: Tid, ok: bool, p: Page)
    requires Inv(s) && Bits(s.bits, p).NoDelayedFree?
    requires Fr(s.freers, t).Entering? && ok ==> s.PageWord(Fr(s.freers, t).p) == Fr(s.freers, t).w
    ensures !Bits(ApplyFreer(s, t, ok).bits, p).Freeing?
  {
    assert ThreadInv(s, t);
    FreerCases(Fr(s.freers, t));
    if Fr(s.freers, t).Entering? && ok {
      EnterElsewhere(s, t, p);
    } else if Fr(s.freers, t).Leaving? {
      LeaveElsewhere(s, t, p);
    } else {
      FreerKeepsBits(s, t, ok);
    }
  }

  lemma EnterElsewhere(s: State, t: Tid, p: Page)
    requires FreerOk(s, t) && Fr(s.freers, t).Entering? && s.PageWord(Fr(s.freers, t).p) == Fr(s.freers, t).w
    requires Bits(s.bits, p).NoDelayedFree?
    ensures !Bits(ApplyFreer(s, t, true).bits, p).Freeing?
  {
  }

  lemma LeaveElsewhere(s: State, t: Tid, p: Page)
    requires WindowOk(s, t) && Fr(s.freers, t).Leaving? && Bits(s.bits, p).NoDelayedFree?
    ensures forall ok :: !Bits(ApplyFreer(s, t, ok).bits, p).Freeing?
  {
  }

  lemma FreerKeepsBits(s: State, t: Tid, ok: bool)
    requires !Fr(s.freers, t).Leaving? && (Fr(s.freers, t).Entering? ==> !ok)
    ensures ApplyFreer(s, t, ok).bits == s.bits
  {
    FreerCases(Fr(s.freers, t));
  }

  lemma FreerStepKeepsOut(s: State, st: Step, p: Page)
    requires Inv(s) && Enabled(s, st) && IsFreerStep(st) && Bits(s.bits, p).NoDelayedFree?
    ensures !Bits(Apply(s, st).bits, p).Freeing?
  {
    match st
    case FreeLoad(t) => FreerKeepsOut(s, t, true, p);
    case FreeLink(t) => FreerKeepsOut(s, t, true, p);
    case FreePush(t, ok) => FreerKeepsOut(s, t, ok, p);
    case FreeEnter(t, ok) => FreerKeepsOut(s, t, ok, p);
    case DelayLoad(t) => FreerKeepsOut(s, t, true, p);
    case DelayLink(t) => FreerKeepsOut(s, t, true, p);
    case DelayPush(t, ok) => FreerKeepsOut(s, t, ok, p);
    case Leave(t) => FreerKeepsOut(s, t, true, p);
  }

  lemma UncheckedKeepsOut(s: State, ok: bool, p: Page)
    requires Unchecked(s.owner) && !Bits(s.bits, p).Freeing?
    ensures !Bits(ApplyOwner(s, ok).bits, p).Freeing?
  {
    if s.owner.TryLoad? || s.owner.TryCas? {
      TryKeepsOut(s, ok, p);
    } else {
      PutKeepsOut(s, ok);
    }
  }

  lemma TryKeepsOut(s: State, ok: bool, p: Page)
    requires (s.owner.TryLoad? || s.owner.TryCas?) && !Bits(s.bits, p).Freeing?
    ensures !Bits(ApplyOwner(s, ok).bits, p).Freeing?
  {
    if s.owner.TryCas? {
    }
  }

  lemma PutKeepsOut(s: State, ok: bool)
    requires Putting(s.owner)
    ensures ApplyOwner(s, ok).bits == s.bits
  {
    if s.owner.PutLink? {
      OwnerWrites(s, ok);
    } else if s.owner.PutCas? && ok {
      PutBackLists(s);
    } else if s.owner.PutCas? {
      FailedPutBits(s);
    } else {
      PutLoadBits(s, ok);
    }
  }

  lemma FailedPutBits(s: State)
    requires s.owner.PutCas?
    ensures ApplyOwner(s, false).bits == s.bits
  {
  }

  lemma PutLoadBits(s: State, ok: bool)
    requires s.owner.PutLoad?
    ensures ApplyOwner(s, ok).bits == s.bits
  {
  }

  lemma StepKeepsOut(s: State, st: Step, s': State, p: Page)
    requires Inv(s) && StepsTo(s, st, s') && Unchecked(s.owner) && Bits(s.bits, p).NoDelayedFree?
    ensures !Bits(s'.bits, p).Freeing?
  {
    if IsFreerStep(st) {
      FreerStepKeepsOut(s, st, p);
    } else if st.Run? {
      RunStepIs(s, st.ok);
      UncheckedKeepsOut(s, st.ok, p);
    } else {
      StepCases(st);
    }
  }

  /** Block `b` has been handled, or is in the owner's hands and its page is not in state Freeing. */
  ghost predicate Clear(s: State, b: Addr) {
    || b in Handled(s.done)
    || (InHandIs(s.owner, b) && (Unchecked(s.owner) ==> !Bits(s.bits, PageOf(s.span, b)).Freeing?))
  }

  /** Steps of a pass keep it so, and the owner does not find Freeing for the block again. */
  ghost predicate ClearAt(trace: seq<State>, steps: seq<Step>, k: nat, b: Addr) {
    && k < |steps| && k + 1 < |trace|
    && (Clear(trace[k], b) ==> Clear(trace[k + 1], b) && !FindsFreeing(trace[k], steps[k], b))
  }

  lemma ClearStep(trace: seq<State>, steps: seq<Step>, k: nat, b: Addr)
    requires IsRun(trace, steps) && k < |steps| && HandStepAt(trace, steps, k) && NoDup(trace[k].orig)
    ensures ClearAt(trace, steps, k, b)
  {
    if Clear(trace[k], b) {
      RunKeepsInv(trace, steps, k);
      StepTaken(trace, steps, k);
      StaysClear(trace[k], steps[k], trace[k + 1], b);
    }
  }

  lemma StaysClear(s: State, st: Step, s': State, b: Addr)
    requires Inv(s) && StepsTo(s, st, s') && Draining(s.owner) && NoDup(s.orig) && HandStep(s, s', Sees(s, st))
    requires Clear(s, b)
    ensures Clear(s', b) && !FindsFreeing(s, st, b)
  {
    if b in Handled(s.done) {
      if InHandIs(s.owner, b) { NotHandled(s, b); }
      HandledStays(s, s', Sees(s, st), b);
    } else if Unchecked(s.owner) {
      UncheckedClear(s, st, s', b);
    } else {
      CheckedClear(s, s', Sees(s, st), b);
    }
  }

  lemma HandledStays(s: State, s': State, sees: bool, b: Addr)
    requires HandStep(s, s', sees) && b in Handled(s.done)
    ensures b in Handled(s'.done)
  {
    if Settles(s, s', sees) {
      ProtocolOwner.HandledMore(s.done, Outcome(s.owner.b, s.owner.FreeIt?));
    }
  }

  lemma HandledNow(s: State, s': State, sees: bool)
    requires Settles(s, s', sees)
    ensures s.owner.b in Handled(s'.done)
  {
    ProtocolOwner.HandledMore(s.done, Outcome(s.owner.b, s.owner.FreeIt?));
    var h := Handled(s.done) + [s.owner.b];
    assert h[|h| - 1] == s.owner.b;
  }

  lemma CheckedClear(s: State, s': State, sees: bool, b: Addr)
    requires HandStep(s, s', sees) && InHandIs(s.owner, b) && !Unchecked(s.owner)
    ensures Clear(s', b)
  {
    if Settles(s, s', sees) { HandledNow(s, s', sees); }
  }

  lemma UncheckedClear(s: State, st: Step, s': State, b: Addr)
    requires Inv(s) && StepsTo(s, st, s') && Draining(s.owner) && HandStep(s, s', Sees(s, st))
    requires InHandIs(s.owner, b) && Unchecked(s.owner) && !Bits(s.bits, PageOf(s.span, b)).Freeing?
    ensures Clear(s', b)
  {
    if Settles(s, s', Sees(s, st)) {
      HandledNow(s, s', Sees(s, st));
    } else {
      PageOfIs(s, b);
      ProtocolOwner.PoppedWaits(s);
      StepKeepsOut(s, st, s', PageOf(s.span, b));
      UncheckedSpan(s, st);
    }
  }

  lemma UncheckedSpan(s: State, st: Step)
    requires Enabled(s, st) && Unchecked(s.owner)
    ensures Apply(s, st).span == s.span
  {
    if OfOthers(st) {
      OthersGrow(s, st);
    } else {
      PassStepCases(s, st);
      UncheckedRunSpan(s, st.ok);
    }
  }

  lemma UncheckedRunSpan(s: State, ok: bool)
    requires Unchecked(s.owner)
    ensures ApplyOwner(s, ok).span == s.span
  {
    if FailedCas(s, Run(ok)) {
      FailedRank(s);
    } else {
      HandleSteady(s, ok);
    }
  }

  lemma {:induction false} NoMoreLoads(trace: seq<State>, steps: seq<Step>, i: nat, k: nat, j: nat, b: Addr)
    requires i <= k <= j <= |steps| < |trace| && Clear(trace[k], b)
    requires forall x :: k <= x < j ==> ClearAt(trace, steps, x, b)
    ensures Clear(trace[j], b) && FreeingLoads(trace, steps, i, j, b) == FreeingLoads(trace, steps, i, k, b)
  {
    if k < j {
      NoMoreLoads(trace, steps, i, k, j - 1, b);
      assert ClearAt(trace, steps, j - 1, b);
    }
  }

  /** The freeing thread leaves in time.  If, while the owner is trying a block and has not given up, its page is
      seen in any other state than Freeing, the pass frees that block. */
  lemma FreedIfLeft(trace: seq<State>, steps: seq<Step>, i: nat, k: nat, j: nat, b: Addr)
    requires InPass(trace, steps, i, j) && i < k <= j
    requires trace[k].owner.TryLoad? || trace[k].owner.TryCas?
    requires trace[k].owner.b == b && !Bits(trace[k].bits, PageOf(trace[k].span, b)).Freeing?
    requires trace[j].owner.DrainNext? && Hd(trace[j].head, Drained) == NULL
    ensures exists m :: 0 <= m < |trace[j].done| && trace[j].done[m] == Outcome(b, true)
  {
    forall x | k <= x < j ensures ClearAt(trace, steps, x, b) { PassClear(trace, steps, i, x, b); }
    PassLoads(trace, steps, i, k, b);
    PassLoads(trace, steps, i, j, b);
    LeftIsFreed(trace, steps, i, k, j, b);
  }

  lemma LeftIsFreed(trace: seq<State>, steps: seq<Step>, i: nat, k: nat, j: nat, b: Addr)
    requires i <= k <= j <= |steps| < |trace| && trace[j].owner.DrainNext?
    requires (trace[k].owner.TryLoad? || trace[k].owner.TryCas?) && trace[k].owner.b == b && Clear(trace[k], b)
    requires forall x :: k <= x < j ==> ClearAt(trace, steps, x, b)
    requires Loads(trace[k], b, FreeingLoads(trace, steps, i, k, b))
    requires Loads(trace[j], b, FreeingLoads(trace, steps, i, j, b))
    ensures exists m :: 0 <= m < |trace[j].done| && trace[j].done[m] == Outcome(b, true)
  {
    NoMoreLoads(trace, steps, i, k, j, b);
    FreedFew(trace[j], b, FreeingLoads(trace, steps, i, j, b));
  }

  lemma PassClear(trace: seq<State>, steps: seq<Step>, i: nat, x: nat, b: Addr)
    requires InPass(trace, steps, i, x) && x < |steps| && Draining(trace[x + 1].owner)
    ensures ClearAt(trace, steps, x, b)
  {
    HandStepIs(trace, steps, x);
    PassLoads(trace, steps, i, x, b);
    ClearStep(trace, steps, x, b);
  }

  lemma FreedFew(s: State, b: Addr, n: nat)
    requires s.owner.DrainNext? && Clear(s, b) && Loads(s, b, n) && n < TRIES
    ensures exists m :: 0 <= m < |s.done| && s.done[m] == Outcome(b, true)
  {
    DoneIs(s, b);
    var m :| 0 <= m < |s.done| && s.done[m].b == b;
    assert s.done[m] == Outcome(b, true);
  }
}
