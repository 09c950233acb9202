/**
 * Whole passes of `heap_delayed_free_partial`, and progress: the owner's rank falls with each of
 * its steps, and a freeing thread that runs alone finishes.
 */
module ProtocolPasses {
  import opened Chains
  import opened Protocol
  import opened ProtocolInv
  import opened ProtocolRuns

  // ---- What a step does to the record of a pass ----

  /** The owner has finished with the block of `o`: it is at the front of the free list of its page, or
      back at the front of the delayed list. */
  ghost predicate HandledBy(s: State, s': State, o: Outcome) {
    && OwnerHolds(s.owner) && OwnerBlock(s.owner) == o.b && s'.owner.DrainNext?
    && var id := if o.freed then FreeOf(PageOf(s.span, o.b)) else Delayed;
       Lst(s'.list, id) == [o.b] + Lst(s.list, id)
  }

  /** `done` is unchanged, or has grown by what this step did. */
  ghost predicate RecordStep(s: State, s': State) {
    && s'.orig == s.orig
    && (s'.done == s.done || exists o :: s'.done == s.done + [o] && HandledBy(s, s', o))
  }

  /** The record, the private list, the pages and the other threads stay as they are. */
  ghost predicate RecordKept(s: State, s': State) {
    && s'.orig == s.orig && s'.done == s.done && Lst(s'.list, Drained) == Lst(s.list, Drained)
    && s'.span == s.span && s'.freers == s.freers
  }

  lemma TakeTurn(s: State, p: Page, force: bool, k: Cont)
    ensures var s' := TakeThreadFree(s, p, force, k);
            RecordKept(s, s') && (s'.owner.CollectMove? || s'.owner.CollectAppend?)
  {
    if Hd(s.head, ThreadOf(p)) == NULL {
    }
  }

  lemma MoveTurn(s: State, p: Page, force: bool)
    ensures RecordKept(s, MoveLocalFree(s, p, force))
  {
    var s' := MoveLocalFree(s, p, force);
    if s' == s {
    } else if s' == TakeAll(s, LocalOf(p), FreeOf(p)) {
      TakeKeepsRecord(s, LocalOf(p), FreeOf(p));
    } else {
      assert s' == AppendAll(s, LocalOf(p), FreeOf(p));
      AppendKeepsRecord(s, LocalOf(p), FreeOf(p));
    }
  }

  lemma TakeKeepsRecord(s: State, src: ListId, dst: ListId)
    requires src != Drained && dst != Drained
    ensures RecordKept(s, TakeAll(s, src, dst))
  {
  }

  lemma AppendKeepsRecord(s: State, src: ListId, dst: ListId)
    requires src != Drained && dst != Drained && Lst(s.list, src) != []
    ensures RecordKept(s, AppendAll(s, src, dst))
  {
  }

  lemma NextTurn(s: State, allFreed: bool)
    requires Lst(s.list, Drained) != []
    ensures var s' := PopDrained(s, allFreed);
            && s'.orig == s.orig && s'.done == s.done && s'.owner.TryLoad? && s'.owner.spins == 0
            && Lst(s'.list, Drained) == Lst(s.list, Drained)[1..]
  {
  }

  lemma OwnerRecord(s: State, ok: bool)
    requires ListsInv(s) && !s.owner.DrainSwap? && !s.owner.FreeIt? && !s.owner.PutCas?
    ensures ApplyOwner(s, ok).orig == s.orig && ApplyOwner(s, ok).done == s.done
  {
    if s.owner.CollectTake? {
      TakeTurn(s, s.owner.p, s.owner.force, s.owner.then_);
    } else if s.owner.CollectMove? {
      MoveTurn(s, s.owner.p, s.owner.force);
    } else if s.owner.DrainNext? {
      HeadNull(s, Drained);
      if Hd(s.head, Drained) != NULL { NextTurn(s, s.owner.allFreed); }
    } else {
      PlainRecord(s, ok);
    }
  }

  lemma PlainRecord(s: State, ok: bool)
    requires !s.owner.DrainSwap? && !s.owner.FreeIt? && !s.owner.PutCas?
    requires !s.owner.CollectTake? && !s.owner.CollectMove? && !s.owner.DrainNext?
    ensures ApplyOwner(s, ok).orig == s.orig && ApplyOwner(s, ok).done == s.done
  {
    if s.owner.CollectAppend? {
      AppendRecord(s, ok);
    } else if s.owner.RetireCheck? {
      ReleaseRecord(s, ok);
    } else if s.owner.PutLoad? || s.owner.PutLink? {
      PutRecord(s, ok);
    } else {
      TryRecord(s, ok);
    }
  }

  lemma PutRecord(s: State, ok: bool)
    requires s.owner.PutLoad? || s.owner.PutLink?
    ensures ApplyOwner(s, ok).orig == s.orig && ApplyOwner(s, ok).done == s.done
  {
    if s.owner.PutLoad? {
    }
  }

  lemma TryRecord(s: State, ok: bool)
    requires s.owner.Ready? || s.owner.CollectLoad? || s.owner.TryLoad? || s.owner.TryCas?
    ensures ApplyOwner(s, ok).orig == s.orig && ApplyOwner(s, ok).done == s.done
  {
    OwnerCases(s.owner);
  }

  lemma AppendRecord(s: State, ok: bool)
    requires s.owner.CollectAppend?
    ensures ApplyOwner(s, ok).orig == s.orig && ApplyOwner(s, ok).done == s.done
  {
    if Lst(s.list, Taken) == [] {
    }
  }

  lemma ReleaseRecord(s: State, ok: bool)
    requires s.owner.RetireCheck?
    ensures ApplyOwner(s, ok).orig == s.orig && ApplyOwner(s, ok).done == s.done
  {
  }

  lemma FreeItRecord(s: State, ok: bool)
    requires Inv(s) && s.owner.FreeIt?
    ensures RecordStep(s, ApplyOwner(s, ok))
  {
    var s' := ApplyOwner(s, ok);
    var o := Outcome(s.owner.b, true);
    PageOfIs(s, o.b);
    assert s'.done == s.done + [o] && HandledBy(s, s', o);
  }

  lemma PutCasRecord(s: State, ok: bool)
    requires OwnerInv(s) && s.owner.PutCas?
    ensures RecordStep(s, ApplyOwner(s, ok))
  {
    var s' := ApplyOwner(s, ok);
    var o := Outcome(s.owner.b, false);
    assert ok ==> s'.done == s.done + [o] && HandledBy(s, s', o);
  }

  lemma FreerRecord(s: State, t: Tid, ok: bool)
    ensures ApplyFreer(s, t, ok).orig == s.orig && ApplyFreer(s, t, ok).done == s.done
  {
    FreerCases(Fr(s.freers, t));
  }

  lemma OwnerStepRecord(s: State, ok: bool)
    requires Inv(s) && !s.owner.DrainSwap?
    ensures RecordStep(s, ApplyOwner(s, ok))
  {
    if s.owner.FreeIt? {
      FreeItRecord(s, ok);
    } else if s.owner.PutCas? {
      PutCasRecord(s, ok);
    } else {
      OwnerRecord(s, ok);
    }
  }

  lemma StepRecord(s: State, st: Step, s': State)
    requires Inv(s) && StepsTo(s, st, s') && !s.owner.DrainSwap?
    ensures RecordStep(s, s')
  {
    if st.Run? {
      RunStepIs(s, st.ok);
      OwnerStepRecord(s, st.ok);
    } else if IsFreerStep(st) {
      FreerStepRecord(s, st);
    } else {
      OtherRecord(s, st);
    }
  }

  lemma RunStepIs(s: State, ok: bool)
    ensures Apply(s, Run(ok)) == ApplyOwner(s, ok)
  {
  }

  lemma FreerStepRecord(s: State, st: Step)
    requires IsFreerStep(st)
    ensures Apply(s, st).orig == s.orig && Apply(s, st).done == s.done
  {
    FreerRecord(s, st.t, true);
    FreerRecord(s, st.t, false);
  }

  lemma OtherRecord(s: State, st: Step)
    requires !st.Run? && !IsFreerStep(st)
    ensures Apply(s, st).orig == s.orig && Apply(s, st).done == s.done
  {
    StepCases(st);
  }

  // ---- Whole passes ----

  /** From the step that takes the delayed list at `i` up to state `j` the run is inside one pass. */
  ghost predicate InPass(trace: seq<State>, steps: seq<Step>, i: nat, j: nat) {
    && IsRun(trace, steps) && i < j < |trace|
    && trace[i].owner.DrainSwap? && steps[i].Run?
    && forall k :: i < k <= j ==> Draining(trace[k].owner)
  }

  /** Some step of the pass handled the block as recorded. */
  ghost predicate HandledIn(trace: seq<State>, i: nat, j: nat, o: Outcome)
    requires j < |trace|
  {
    exists k: nat :: i < k < j && HandledAt(trace, k, o)
  }

  /** Step `k` of the run handled the block as recorded. */
  ghost predicate HandledAt(trace: seq<State>, k: nat, o: Outcome) {
    k + 1 < |trace| && HandledBy(trace[k], trace[k + 1], o)
  }

  /** Every outcome on record at `j` is what some step of the pass did. */
  ghost predicate AllHandled(trace: seq<State>, i: nat, j: nat)
    requires j < |trace|
  {
    forall m :: 0 <= m < |trace[j].done| ==> HandledIn(trace, i, j, trace[j].done[m])
  }

  lemma StepTaken(trace: seq<State>, steps: seq<Step>, i: nat)
    requires IsRun(trace, steps) && i < |steps|
    ensures StepsTo(trace[i], steps[i], trace[i + 1])
  {
  }

  lemma PassStart(s: State, ok: bool)
    requires s.owner.DrainSwap?
    ensures ApplyOwner(s, ok).orig == Lst(s.list, Delayed) && ApplyOwner(s, ok).done == []
  {
  }

  lemma {:induction false} PassRecord(trace: seq<State>, steps: seq<Step>, i: nat, j: nat)
    requires InPass(trace, steps, i, j)
    ensures trace[j].orig == Lst(trace[i].list, Delayed)
    ensures AllHandled(trace, i, j)
  {
    if j == i + 1 {
      PassFirst(trace, steps, i);
    } else {
      PassShorter(trace, steps, i, j);
      PassRecord(trace, steps, i, j - 1);
      RunRecord(trace, steps, j - 1);
      RecordGrows(trace, i, j);
    }
  }

  lemma PassFirst(trace: seq<State>, steps: seq<Step>, i: nat)
    requires InPass(trace, steps, i, i + 1)
    ensures trace[i + 1].orig == Lst(trace[i].list, Delayed) && AllHandled(trace, i, i + 1)
  {
    StepTaken(trace, steps, i);
    PassStart(trace[i], steps[i].ok);
  }

  lemma PassShorter(trace: seq<State>, steps: seq<Step>, i: nat, j: nat)
    requires InPass(trace, steps, i, j) && i + 1 < j
    ensures InPass(trace, steps, i, j - 1) && Draining(trace[j - 1].owner) && !trace[j - 1].owner.DrainSwap?
  {
    assert Draining(trace[j - 1].owner);
  }

  lemma RunRecord(trace: seq<State>, steps: seq<Step>, i: nat)
    requires IsRun(trace, steps) && i < |steps| && !trace[i].owner.DrainSwap?
    ensures RecordStep(trace[i], trace[i + 1])
  {
    RunKeepsInv(trace, steps, i);
    StepTaken(trace, steps, i);
    StepRecord(trace[i], steps[i], trace[i + 1]);
  }

  lemma RecordNew(s: State, s': State, m: nat)
    requires RecordStep(s, s') && |s.done| <= m < |s'.done|
    ensures HandledBy(s, s', s'.done[m])
  {
    var o :| s'.done == s.done + [o] && HandledBy(s, s', o);
    assert s'.done[m] == o;
  }

  lemma RecordOld(s: State, s': State, m: nat)
    requires RecordStep(s, s') && m < |s.done|
    ensures m < |s'.done| && s'.done[m] == s.done[m]
  {
  }

  lemma HandledLater(trace: seq<State>, i: nat, j: nat, o: Outcome)
    requires i < j < |trace| && HandledIn(trace, i, j - 1, o)
    ensures HandledIn(trace, i, j, o)
  {
    var k: nat :| i < k < j - 1 && HandledAt(trace, k, o);
    assert i < k < j && HandledAt(trace, k, o);
  }

  lemma HandledNow(trace: seq<State>, i: nat, j: nat, k: nat, o: Outcome)
    requires i < k < j == k + 1 < |trace| && HandledBy(trace[k], trace[k + 1], o)
    ensures HandledIn(trace, i, j, o)
  {
    assert HandledAt(trace, k, o);
  }

  lemma RecordExtends(trace: seq<State>, i: nat, j: nat, m: nat)
    requires i + 1 < j < |trace| && m < |trace[j].done| && RecordStep(trace[j - 1], trace[j])
    requires m < |trace[j - 1].done| ==> HandledIn(trace, i, j - 1, trace[j - 1].done[m])
    ensures HandledIn(trace, i, j, trace[j].done[m])
  {
    if m < |trace[j - 1].done| {
      RecordOld(trace[j - 1], trace[j], m);
      HandledLater(trace, i, j, trace[j].done[m]);
    } else {
      RecordNew(trace[j - 1], trace[j], m);
      HandledNow(trace, i, j, j - 1, trace[j].done[m]);
    }
  }

  lemma RecordGrows(trace: seq<State>, i: nat, j: nat)
    requires i + 1 < j < |trace| && RecordStep(trace[j - 1], trace[j])
    requires AllHandled(trace, i, j - 1)
    ensures AllHandled(trace, i, j)
    ensures trace[j].orig == trace[j - 1].orig
  {
    forall m | 0 <= m < |trace[j].done| ensures HandledIn(trace, i, j, trace[j].done[m]) {
      RecordExtends(trace, i, j, m);
    }
  }

  /** A delayed-free pass.  When the loop ends, the blocks handled are exactly those of the delayed list
      taken at the start, in order; each was either freed to its page or put back by a step of this
      pass; and the result is true if and only if none was put back. */
  lemma DelayedPass(trace: seq<State>, steps: seq<Step>, i: nat, j: nat)
    requires InPass(trace, steps, i, j)
    requires trace[j].owner.DrainNext? && Hd(trace[j].head, Drained) == NULL
    ensures Handled(trace[j].done) == Lst(trace[i].list, Delayed)
    ensures Chain(trace[i].mem, Hd(trace[i].head, Delayed), Handled(trace[j].done))
    ensures AllHandled(trace, i, j)
    ensures trace[j].owner.allFreed <==> forall m :: 0 <= m < |trace[j].done| ==> trace[j].done[m].freed
  {
    PassRecord(trace, steps, i, j);
    RunKeepsInv(trace, steps, i);
    RunKeepsInv(trace, steps, j);
    HeadNull(trace[j], Drained);
    assert ListInv(trace[i], Delayed);
    PassEnd(trace[j]);
  }

  lemma PassEnd(s: State)
    requires PassInv(s) && s.owner.DrainNext? && Lst(s.list, Drained) == []
    ensures Handled(s.done) == s.orig
    ensures s.owner.allFreed <==> AllOutcomesFreed(s.done)
  {
    assert InHand(s.owner) == [];
  }

  /** However many blocks come back to the shared list, a pass handles only the blocks it took: those
      handled, the one in hand and those left always add up to the list taken. */
  lemma PassBounded(trace: seq<State>, steps: seq<Step>, i: nat, j: nat)
    requires InPass(trace, steps, i, j)
    ensures |trace[j].done| + |InHand(trace[j].owner)| + |Lst(trace[j].list, Drained)| == |Lst(trace[i].list, Delayed)|
  {
    PassRecord(trace, steps, i, j);
    RunKeepsInv(trace, steps, j);
  }

  // ---- The owner makes progress ----

  /** A measure of the owner's remaining work, by its program counter and its private list. */
  ghost function Rank(s: State): nat {
    16 * |Lst(s.list, Drained)| +
    match s.owner
    case Ready => 0
    case CollectLoad(_, _, _) => 6
    case CollectTake(_, _, _) => 5
    case CollectAppend(_, _, _) => 4
    case CollectMove(_, _, _) => 3
    case DrainSwap => 16 * |Lst(s.list, Delayed)| + 2
    case DrainNext(_) => 1
    case TryLoad(_, _, spins, _) => if spins < 4 then 15 - spins else 11
    case TryCas(_, _, _, _, _) => 10
    case PutLoad(_) => 4
    case PutLink(_, _) => 3
    case PutCas(_, _) => 2
    case FreeIt(_, _, _) => 2
    case RetireCheck(_, _) => 2
  }

  /** Every step fixed by the owner's program counter, except a failed compare-exchange, lowers the rank. */
  lemma OwnerProgress(s: State, ok: bool)
    requires Reachable(s) && Enabled(s, Run(ok))
    requires (s.owner.TryCas? || s.owner.PutCas?) ==> ok
    ensures Rank(ApplyOwner(s, ok)) < Rank(s)
  {
    ReachableInv(s);
    if s.owner.RetireCheck? {
      RetireFalls(s, ok);
    } else if s.owner.DrainNext? || s.owner.DrainSwap? {
      DrainFalls(s, ok);
    } else if Collecting(s.owner) {
      CollectFalls(s, ok);
    } else {
      HandleFalls(s, ok);
    }
  }

  lemma RetireFalls(s: State, ok: bool)
    requires Inv(s) && s.owner.RetireCheck?
    ensures Rank(ApplyOwner(s, ok)) < Rank(s)
  {
    ProtocolPages.RetireCheckKeeps(s);
  }

  lemma DrainFalls(s: State, ok: bool)
    requires ListsInv(s) && OwnerInv(s) && (s.owner.DrainNext? || s.owner.DrainSwap?)
    ensures Rank(ApplyOwner(s, ok)) < Rank(s)
  {
    if s.owner.DrainNext? {
      HeadNull(s, Drained);
      if Hd(s.head, Drained) != NULL { NextTurn(s, s.owner.allFreed); }
    }
  }

  lemma CollectFalls(s: State, ok: bool)
    requires OwnerInv(s) && Collecting(s.owner)
    ensures Rank(ApplyOwner(s, ok)) < Rank(s)
  {
    match s.owner
    case CollectLoad(_, _, _) => LoadFalls(s, ok);
    case CollectTake(p, force, k) => TakeTurn(s, p, force, k);
    case CollectAppend(_, _, _) => AppendFalls(s, ok);
    case CollectMove(p, force, k) => MoveFalls(s, p, force, k);
  }

  lemma LoadFalls(s: State, ok: bool)
    requires s.owner.CollectLoad?
    ensures Rank(ApplyOwner(s, ok)) < Rank(s)
  {
    var o := ApplyOwner(s, ok).owner;
    assert o.CollectTake? || o.CollectMove?;
  }

  lemma AppendFalls(s: State, ok: bool)
    requires OwnerInv(s) && s.owner.CollectAppend?
    ensures Rank(ApplyOwner(s, ok)) < Rank(s)
  {
  }

  lemma MoveFalls(s: State, p: Page, force: bool, k: Cont)
    requires s.owner == CollectMove(p, force, k)
    ensures Rank(MoveLocalFree(s, p, force).(owner := Resume(p, k))) < Rank(s)
  {
    MoveTurn(s, p, force);
    if k.Back? {
    }
  }

  lemma HandleFalls(s: State, ok: bool)
    requires (s.owner.TryCas? || s.owner.PutCas?) ==> ok
    requires OwnerHolds(s.owner) && !Collecting(s.owner)
    ensures Rank(ApplyOwner(s, ok)) < Rank(s)
  {
    match s.owner
    case TryLoad(_, _, _, _) => TryLoadFalls(s, ok);
    case TryCas(_, _, _, _, _) => TryCasFalls(s);
    case PutLoad(_) => PutLoadFalls(s, ok);
    case PutLink(_, _) => PutLinkFalls(s, ok);
    case PutCas(_, _) => PutCasFalls(s);
    case FreeIt(_, _, _) => FreeItFalls(s, ok);
  }

  lemma TryLoadFalls(s: State, ok: bool)
    requires s.owner.TryLoad?
    ensures Rank(ApplyOwner(s, ok)) < Rank(s)
  {
    var o := ApplyOwner(s, ok).owner;
    assert o.PutLoad? || o.TryLoad? || o.TryCas? || o.CollectLoad?;
  }

  lemma TryCasFalls(s: State)
    requires s.owner.TryCas?
    ensures Rank(ApplyOwner(s, true)) < Rank(s)
  {
    assert ApplyOwner(s, true).owner.CollectLoad?;
  }

  lemma PutLoadFalls(s: State, ok: bool)
    requires s.owner.PutLoad?
    ensures Rank(ApplyOwner(s, ok)) < Rank(s)
  {
    assert ApplyOwner(s, ok).owner.PutLink?;
  }

  lemma PutLinkFalls(s: State, ok: bool)
    requires s.owner.PutLink?
    ensures Rank(ApplyOwner(s, ok)) < Rank(s)
  {
    assert ApplyOwner(s, ok).owner.PutCas?;
  }

  lemma PutCasFalls(s: State)
    requires s.owner.PutCas?
    ensures Rank(ApplyOwner(s, true)) < Rank(s)
  {
    assert ApplyOwner(s, true).owner.DrainNext?;
  }

  lemma FreeItFalls(s: State, ok: bool)
    requires s.owner.FreeIt?
    ensures Rank(ApplyOwner(s, ok)) < Rank(s)
  {
    assert ApplyOwner(s, ok).owner.DrainNext?;
  }

  // ---- A freeing thread makes progress ----

  /** Whether the compare-exchange a thread is at finds what it expects. */
  ghost predicate Matches(s: State, t: Tid) {
    match Fr(s.freers, t)
    case Pushing(_, p, w) => s.PageWord(p) == w
    case Entering(_, p, w) => s.PageWord(p) == w
    case DelayPushing(_, _, next) => Hd(s.head, Delayed) == next
    case _ => true
  }

  /** The step of a thread that runs alone and whose compare-exchanges do not fail spuriously. */
  ghost function NextStep(s: State, t: Tid): Step
    requires !Fr(s.freers, t).Idle?
  {
    match Fr(s.freers, t)
    case Loading(_, _) => FreeLoad(t)
    case Linking(_, _, _) => FreeLink(t)
    case Pushing(_, _, _) => FreePush(t, Matches(s, t))
    case Entering(_, _, _) => FreeEnter(t, Matches(s, t))
    case DelayLoading(_, _) => DelayLoad(t)
    case DelayLinking(_, _, _) => DelayLink(t)
    case DelayPushing(_, _, _) => DelayPush(t, Matches(s, t))
    case Leaving(_) => Leave(t)
  }

  /** How many more steps the thread needs: more when what it loaded is stale. */
  ghost function SoloRank(s: State, t: Tid): nat {
    match Fr(s.freers, t)
    case Idle => 0
    case Loading(_, _) => 6
    case Linking(_, p, w) => if s.PageWord(p) == w then 2 else 8
    case Pushing(_, p, w) => if s.PageWord(p) == w then 1 else 7
    case Entering(_, p, w) => if s.PageWord(p) == w then 5 else 7
    case DelayLoading(_, _) => 4
    case DelayLinking(_, _, next) => if Hd(s.head, Delayed) == next then 3 else 6
    case DelayPushing(_, _, next) => if Hd(s.head, Delayed) == next then 2 else 5
    case Leaving(_) => 1
  }

  lemma SoloLoad(s: State, t: Tid)
    requires Fr(s.freers, t).Loading? || Fr(s.freers, t).DelayLoading?
    ensures SoloRank(ApplyFreer(s, t, true), t) < SoloRank(s, t)
  {
    var f, f' := Fr(s.freers, t), Fr(ApplyFreer(s, t, true).freers, t);
    assert ApplyFreer(s, t, true) == SetFreer(s, t, f');
  }

  lemma SoloLink(s: State, t: Tid)
    requires Fr(s.freers, t).Linking? || Fr(s.freers, t).DelayLinking?
    ensures SoloRank(ApplyFreer(s, t, true), t) < SoloRank(s, t)
  {
    var f, s' := Fr(s.freers, t), ApplyFreer(s, t, true);
    assert s'.head == s.head && s'.bits == s.bits;
  }

  lemma SoloMiss(s: State, t: Tid)
    requires Fr(s.freers, t).Pushing? || Fr(s.freers, t).Entering? || Fr(s.freers, t).DelayPushing?
    requires !Matches(s, t)
    ensures SoloRank(ApplyFreer(s, t, false), t) < SoloRank(s, t)
  {
    FreerCases(Fr(s.freers, t));
    var f' := Fr(ApplyFreer(s, t, false).freers, t);
    assert f'.Loading? || f'.DelayLoading?;
  }

  lemma SoloHit(s: State, t: Tid)
    requires || Fr(s.freers, t).Pushing? || Fr(s.freers, t).Entering? || Fr(s.freers, t).DelayPushing?
             || Fr(s.freers, t).Leaving?
    requires Matches(s, t)
    ensures SoloRank(ApplyFreer(s, t, true), t) < SoloRank(s, t)
  {
    var f' := Fr(ApplyFreer(s, t, true).freers, t);
    assert f'.Idle? || f'.DelayLoading? || f'.Leaving?;
  }

  lemma SoloStep(s: State, t: Tid, s': State)
    requires !Fr(s.freers, t).Idle? && s' == ApplyFreer(s, t, Matches(s, t))
    ensures StepsTo(s, NextStep(s, t), s')
  {
    FreerCases(Fr(s.freers, t));
  }

  /** The state after thread `t` has taken `n` steps alone, or as many as it needs to finish. */
  ghost function Solo(s: State, t: Tid, n: nat): State
    decreases n
  {
    if n == 0 || Fr(s.freers, t).Idle? then s else Solo(ApplyFreer(s, t, Matches(s, t)), t, n - 1)
  }

  lemma SoloFalls(s: State, t: Tid)
    requires !Fr(s.freers, t).Idle?
    ensures SoloRank(ApplyFreer(s, t, Matches(s, t)), t) < SoloRank(s, t)
  {
    match Fr(s.freers, t)
    case Loading(_, _) => SoloLoad(s, t);
    case DelayLoading(_, _) => SoloLoad(s, t);
    case Linking(_, _, _) => SoloLink(s, t);
    case DelayLinking(_, _, _) => SoloLink(s, t);
    case _ => if Matches(s, t) { SoloHit(s, t); } else { SoloMiss(s, t); }
  }

  lemma {:induction false} SoloRuns(s: State, t: Tid, n: nat)
    requires Reachable(s) && SoloRank(s, t) <= n
    ensures Fr(Solo(s, t, n).freers, t).Idle? && Reachable(Solo(s, t, n))
    decreases n
  {
    if !Fr(s.freers, t).Idle? {
      SoloFalls(s, t);
      SoloReach(s, t);
      SoloRuns(ApplyFreer(s, t, Matches(s, t)), t, n - 1);
    }
  }

  lemma SoloReach(s: State, t: Tid)
    requires Reachable(s) && !Fr(s.freers, t).Idle?
    ensures Reachable(ApplyFreer(s, t, Matches(s, t)))
  {
    SoloStep(s, t, ApplyFreer(s, t, Matches(s, t)));
    ReachableStep(s, NextStep(s, t), ApplyFreer(s, t, Matches(s, t)));
  }

  /** Wherever a thread is stopped inside a free, and whatever the others did meanwhile, at most eight
      more steps of its own finish the free: no thread waits for another. */
  lemma SoloFinishes(s: State, t: Tid)
    requires Reachable(s)
    ensures Fr(Solo(s, t, 8).freers, t).Idle? && Reachable(Solo(s, t, 8))
  {
    SoloRuns(s, t, 8);
  }
}
