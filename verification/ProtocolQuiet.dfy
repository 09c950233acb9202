/**
 * Reclamation: a pass of `heap_delayed_free_partial` that no freeing thread interferes with brings every
 * remotely freed block home.
 */
module ProtocolQuiet {
  import opened Chains
  import opened Protocol
  import opened ProtocolInv
  import opened ProtocolRuns
  import opened ProtocolPages
  import opened ProtocolTheorems
  import opened ProtocolPasses

  /** No thread is inside `free_block_mt`. */
  ghost predicate Quiet(s: State) { forall t :: Fr(s.freers, t).Idle? }

  /** Nothing has come back to the delayed list, and nothing is on its way there. */
  ghost predicate NoneBack(s: State) {
    Draining(s.owner) && AllFreed(s.owner) && !Putting(s.owner) && Lst(s.list, Delayed) == []
  }

  // ---- A quiet step puts nothing back ----

  lemma QuietBits(s: State, p: Page)
    requires Inv(s) && Quiet(s)
    ensures !Bits(s.bits, p).Freeing?
  {
    assert PageInv(s, p);
    assert Fr(s.freers, Window(s.window, p)).Idle?;
  }

  lemma TakeNoneBack(s: State)
    requires NoneBack(s) && s.owner.CollectTake?
    ensures NoneBack(TakeThreadFree(s, s.owner.p, s.owner.force, s.owner.then_))
  {
    var p := s.owner.p;
    if Hd(s.head, ThreadOf(p)) != NULL { TakeAllNoneBack(s, ThreadOf(p), Taken); }
  }

  lemma TakeAllNoneBack(s: State, src: ListId, dst: ListId)
    requires Lst(s.list, Delayed) == [] && src != Delayed && dst != Delayed
    ensures Lst(TakeAll(s, src, dst).list, Delayed) == []
  {
  }

  lemma AppendNoneBack(s: State, ok: bool)
    requires NoneBack(s) && s.owner.CollectAppend?
    ensures NoneBack(ApplyOwner(s, ok))
  {
    if Lst(s.list, Taken) == [] {
    }
  }

  lemma MoveNoneBack(s: State)
    requires NoneBack(s) && s.owner.CollectMove?
    ensures NoneBack(MoveLocalFree(s, s.owner.p, s.owner.force).(owner := Resume(s.owner.p, s.owner.then_)))
  {
    var p := s.owner.p;
    var s' := MoveLocalFree(s, p, s.owner.force);
    if s' == s {
    } else if s' == TakeAll(s, LocalOf(p), FreeOf(p)) {
      TakeAllNoneBack(s, LocalOf(p), FreeOf(p));
    } else {
      assert s' == AppendAll(s, LocalOf(p), FreeOf(p));
    }
  }

  lemma TryNoneBack(s: State, ok: bool)
    requires NoneBack(s) && s.owner.TryLoad? && !Bits(s.bits, s.owner.p).Freeing?
    ensures NoneBack(ApplyOwner(s, ok))
  {
    var o := ApplyOwner(s, ok).owner;
    assert o.TryCas? || o.CollectLoad?;
  }

  lemma NextNoneBack(s: State)
    requires NoneBack(s) && s.owner.DrainNext? && Hd(s.head, Drained) != NULL
    ensures NoneBack(PopDrained(s, s.owner.allFreed))
  {
  }

  lemma PlainNoneBack(s: State, ok: bool)
    requires NoneBack(s) && (s.owner.CollectLoad? || s.owner.TryCas? || s.owner.FreeIt? || s.owner.RetireCheck?)
    requires s.owner.RetireCheck? ==> !Bits(s.bits, s.owner.p).Freeing?
    ensures NoneBack(ApplyOwner(s, ok))
  {
    if s.owner.CollectLoad? {
      LoadNoneBack(s, ok);
    } else if s.owner.TryCas? {
      TryCasNoneBack(s, ok);
    } else if s.owner.FreeIt? {
      FreeItNoneBack(s, ok);
    } else {
      ReleaseNoneBack(s, ok);
    }
  }

  lemma LoadNoneBack(s: State, ok: bool)
    requires NoneBack(s) && s.owner.CollectLoad?
    ensures NoneBack(ApplyOwner(s, ok))
  {
  }

  lemma TryCasNoneBack(s: State, ok: bool)
    requires NoneBack(s) && s.owner.TryCas?
    ensures NoneBack(ApplyOwner(s, ok))
  {
  }

  lemma FreeItNoneBack(s: State, ok: bool)
    requires NoneBack(s) && s.owner.FreeIt?
    ensures NoneBack(ApplyOwner(s, ok))
  {
  }

  lemma ReleaseNoneBack(s: State, ok: bool)
    requires NoneBack(s) && s.owner.RetireCheck? && !Bits(s.bits, s.owner.p).Freeing?
    ensures NoneBack(ApplyOwner(s, ok))
  {
  }

  lemma RunNoneBack(s: State, ok: bool)
    requires Inv(s) && Quiet(s) && NoneBack(s)
    ensures NoneBack(ApplyOwner(s, ok)) || ApplyOwner(s, ok).owner.Ready?
  {
    if Collecting(s.owner) {
      CollectNoneBack(s, ok);
    } else if s.owner.DrainNext? {
      DrainNoneBack(s, ok);
    } else {
      HandleNoneBack(s, ok);
    }
  }

  lemma CollectNoneBack(s: State, ok: bool)
    requires NoneBack(s) && Collecting(s.owner)
    ensures NoneBack(ApplyOwner(s, ok))
  {
    match s.owner
    case CollectLoad(_, _, _) => PlainNoneBack(s, ok);
    case CollectTake(_, _, _) => TakeNoneBack(s);
    case CollectAppend(_, _, _) => AppendNoneBack(s, ok);
    case CollectMove(_, _, _) => MoveNoneBack(s);
  }

  lemma DrainNoneBack(s: State, ok: bool)
    requires NoneBack(s) && s.owner.DrainNext?
    ensures NoneBack(ApplyOwner(s, ok)) || ApplyOwner(s, ok).owner.Ready?
  {
    if Hd(s.head, Drained) != NULL { NextNoneBack(s); }
  }

  lemma HandleNoneBack(s: State, ok: bool)
    requires Inv(s) && Quiet(s) && NoneBack(s) && !Collecting(s.owner) && !s.owner.DrainNext?
    ensures NoneBack(ApplyOwner(s, ok))
  {
    if s.owner.TryLoad? {
      QuietBits(s, s.owner.p);
      TryNoneBack(s, ok);
    } else {
      if s.owner.RetireCheck? { QuietBits(s, s.owner.p); }
      PlainNoneBack(s, ok);
    }
  }

  /** Steps of others and of the user leave the owner and the delayed list alone. */
  lemma OtherNoneBack(s: State, st: Step)
    requires NoneBack(s) && (st.Scribble? || (st.Retire? && s.owner.DrainNext?))
    ensures NoneBack(Apply(s, st))
  {
    if st.Retire? {
      assert Apply(s, st).owner == RetireCheck(st.p, s.owner);
    }
  }

  lemma StartIsLoud(s: State, t: Tid, b: Addr)
    ensures !Quiet(Apply(s, FreeStart(t, b)))
  {
    assert Fr(Apply(s, FreeStart(t, b)).freers, t).Loading?;
  }

  /** While nobody is freeing, only these steps are possible inside a pass. */
  lemma QuietSteps(s: State, st: Step, s': State)
    requires StepsTo(s, st, s') && Quiet(s) && Quiet(s') && Draining(s.owner)
    ensures st.Run? || st.Scribble? || (st.Retire? && s.owner.DrainNext?)
  {
    if st.FreeStart? {
      StartIsLoud(s, st.t, st.b);
    }
    if IsFreerStep(st) {
      NoFreerStep(s, st);
    }
  }

  lemma NoFreerStep(s: State, st: Step)
    requires Quiet(s) && IsFreerStep(st)
    ensures !Enabled(s, st)
  {
    assert Fr(s.freers, st.t).Idle?;
  }

  lemma StepNoneBack(s: State, st: Step, s': State)
    requires Inv(s) && StepsTo(s, st, s') && Quiet(s) && Quiet(s') && NoneBack(s) && Draining(s'.owner)
    ensures NoneBack(s')
  {
    QuietSteps(s, st, s');
    if st.Run? {
      RunStepIs(s, st.ok);
      RunNoneBack(s, st.ok);
    } else {
      OtherNoneBack(s, st);
    }
  }

  lemma {:induction false} PassNoneBack(trace: seq<State>, steps: seq<Step>, i: nat, j: nat)
    requires InPass(trace, steps, i, j) && forall k :: i <= k <= j ==> Quiet(trace[k])
    ensures NoneBack(trace[j])
  {
    if j == i + 1 {
      FirstNoneBack(trace, steps, i);
    } else {
      PassShorter(trace, steps, i, j);
      PassNoneBack(trace, steps, i, j - 1);
      NextStepNoneBack(trace, steps, j - 1);
    }
  }

  lemma FirstNoneBack(trace: seq<State>, steps: seq<Step>, i: nat)
    requires IsRun(trace, steps) && i < |steps| && trace[i].owner.DrainSwap? && steps[i].Run?
    ensures NoneBack(trace[i + 1])
  {
    StepTaken(trace, steps, i);
    RunStepIs(trace[i], steps[i].ok);
    SwapNoneBack(trace[i], steps[i].ok);
  }

  lemma NextStepNoneBack(trace: seq<State>, steps: seq<Step>, i: nat)
    requires IsRun(trace, steps) && i < |steps| && NoneBack(trace[i]) && Quiet(trace[i]) && Quiet(trace[i + 1])
    requires Draining(trace[i + 1].owner)
    ensures NoneBack(trace[i + 1])
  {
    RunKeepsInv(trace, steps, i);
    StepTaken(trace, steps, i);
    StepNoneBack(trace[i], steps[i], trace[i + 1]);
  }

  lemma SwapNoneBack(s: State, ok: bool)
    requires s.owner.DrainSwap?
    ensures NoneBack(ApplyOwner(s, ok))
  {
  }

  // ---- What a finished pass leaves ----

  ghost function LiveBlocks(s: State, p: Page): set<Addr>
    requires p in s.span
  {
    set b | b in FirstBlocks(s.span[p].blocks, Cap(s.cap, p)) && Plc(s.place, b).Live?
  }

  /** Every block that another thread freed is back on a list of its page, and every page is ready for
      the next remote free. */
  ghost predicate Reclaimed(s: State) {
    && (forall p :: s.PageWord(p) == Word(NULL, UseDelayedFree))
    && Hd(s.head, Delayed) == NULL
    && (forall p :: p in s.span ==> Used(s.used, p) == |LiveBlocks(s, p)|)
  }

  /** No block is in the hands of a freeing thread or of the owner, or delayed. */
  ghost predicate Settled(s: State) {
    && Quiet(s) && (s.owner.Ready? || s.owner.DrainNext?)
    && Lst(s.list, Delayed) == [] && Lst(s.list, Drained) == []
  }

  lemma NoneDelayed(s: State, p: Page, b: Addr)
    requires Inv(s) && Settled(s)
    ensures !DelayedOf(s, p, b)
  {
    assert BlockInv(s, b);
    DelayedOfIff(s, p, b);
  }

  lemma WordReclaimed(s: State, p: Page)
    requires Reachable(s) && Settled(s)
    ensures s.PageWord(p) == Word(NULL, UseDelayedFree)
  {
    ReachableInv(s);
    forall b ensures !DelayedOf(s, p, b) { NoneDelayed(s, p, b); }
    QuietBits(s, p);
    DelayStateExact(s, p);
    if s.PageWord(p).ptr != NULL { NoLostWakeup(s, p); }
  }

  lemma OutIsLive(s: State, p: Page, b: Addr)
    requires Inv(s) && Settled(s)
    requires p in s.span && Lst(s.list, ThreadOf(p)) == [] && b in FirstBlocks(s.span[p].blocks, Cap(s.cap, p))
    ensures !OnFreeChain(s, p, b) <==> Plc(s.place, b).Live?
  {
    var i: nat :| i < Cap(s.cap, p) && i < |s.span[p].blocks| && s.span[p].blocks[i] == b;
    assert IndexInv(s, p, i);
    assert BlockInv(s, b);
    OnFreeChainIff(s, p, b);
    FreeListsOf(s, p);
    assert ListInv(s, FreeOf(p)) && ListInv(s, LocalOf(p));
  }

  lemma UsedIsLive(s: State, p: Page)
    requires Reachable(s) && Settled(s)
    requires p in s.span
    ensures Used(s.used, p) == |LiveBlocks(s, p)|
  {
    ReachableInv(s);
    WordReclaimed(s, p);
    HeadNull(s, ThreadOf(p));
    UsedIsExact(s, p);
    forall b | b in FirstBlocks(s.span[p].blocks, Cap(s.cap, p))
      ensures !OnFreeChain(s, p, b) <==> Plc(s.place, b).Live?
    {
      OutIsLive(s, p, b);
    }
    assert OutBlocks(s, p) == LiveBlocks(s, p);
  }

  /** A pass during which nobody frees remotely reports success and reclaims everything: no block is left
      on any `thread_free` list or on the delayed list, every page accepts delayed frees again, and `used`
      counts exactly the live blocks.  Nothing that was freed remotely before is ever leaked. */
  lemma QuietPassReclaims(trace: seq<State>, steps: seq<Step>, i: nat, j: nat)
    requires InPass(trace, steps, i, j) && forall k :: i <= k <= j ==> Quiet(trace[k])
    requires trace[j].owner.DrainNext? && Hd(trace[j].head, Drained) == NULL
    ensures trace[j].owner.allFreed && Reclaimed(trace[j])
  {
    PassNoneBack(trace, steps, i, j);
    ReachableAt(trace, steps, j);
    RunKeepsInv(trace, steps, j);
    HeadNull(trace[j], Drained);
    ReclaimedIs(trace[j]);
  }

  lemma ReclaimedIs(s: State)
    requires Reachable(s) && Settled(s)
    ensures Reclaimed(s)
  {
    ReachableInv(s);
    HeadNull(s, Delayed);
    forall p ensures s.PageWord(p) == Word(NULL, UseDelayedFree) { WordReclaimed(s, p); }
    forall p | p in s.span ensures Used(s.used, p) == |LiveBlocks(s, p)| { UsedIsLive(s, p); }
  }
}
