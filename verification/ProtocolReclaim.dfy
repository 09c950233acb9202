/**
 * How a pass of `heap_delayed_free_partial` begins, and that one can always be carried through: when nobody is
 * freeing remotely, the owner alone can bring every remotely freed block home.
 */
module ProtocolReclaim {
  import opened Chains
  import opened Protocol
  import opened ProtocolInv
  import opened ProtocolRuns
  import opened ProtocolPages
  import opened ProtocolTheorems
  import opened ProtocolPasses
  import opened ProtocolQuiet
  import opened ProtocolProgress
  import opened ProtocolCollect

  // ---- How a pass begins ----

  /** A pass takes the whole delayed list: when walking the list meets `l`, not empty, two steps of the owner
      lead to a state whose private list is `l` and whose delayed list is empty.  When it is empty the pass
      is over before it begins, and nothing has changed. */
  lemma PassBegins(s: State, l: seq<Addr>, ok: bool)
    requires Reachable(s) && s.owner.Ready? && Chain(s.mem, Hd(s.head, Delayed), l)
    ensures Enabled(s, StartDrain)
    ensures l == [] ==> Apply(s, StartDrain) == s
    ensures l != [] ==>
              var s1 := Apply(s, StartDrain);
              var s2 := Apply(s1, Run(ok));
              && Enabled(s1, Run(ok)) && s2.owner == DrainNext(true)
              && Chain(s2.mem, Hd(s2.head, Drained), l) && Hd(s2.head, Delayed) == NULL
  {
    if l != [] {
      SwapTakes(Apply(s, StartDrain), ok);
    }
  }

  lemma SwapTakes(s: State, ok: bool)
    requires s.owner.DrainSwap?
    ensures var s' := ApplyOwner(s, ok);
            && s'.owner == DrainNext(true) && s'.mem == s.mem
            && Hd(s'.head, Drained) == Hd(s.head, Delayed) && Hd(s'.head, Delayed) == NULL
  {
    SwapIs(s, ok);
    TakeAllLists(s, Delayed, Drained);
  }

  lemma SwapIs(s: State, ok: bool)
    requires s.owner.DrainSwap?
    ensures ApplyOwner(s, ok)
            == TakeAll(s, Delayed, Drained).(owner := DrainNext(true), orig := Lst(s.list, Delayed), done := [])
  {
  }

  /** Until the owner swaps the list out, other threads can only put blocks in front of it. */
  ghost predicate OnlyGrows(trace: seq<State>, k: nat) {
    k + 1 < |trace| && Grown(trace[k], trace[k + 1])
  }

  lemma WaitGrows(s: State, st: Step, s': State)
    requires StepsTo(s, st, s') && s.owner.DrainSwap? && s'.owner.DrainSwap?
    ensures Grown(s, s')
  {
    if OfOthers(st) {
      OthersGrow(s, st);
    } else {
      PassStepCases(s, st);
      RunStepIs(s, st.ok);
      SwapIs(s, st.ok);
    }
  }

  lemma {:induction false} GrowsOnly(trace: seq<State>, i: nat, k: nat)
    requires i <= k < |trace| && forall m :: i <= m < k ==> OnlyGrows(trace, m)
    ensures EndsWith(Lst(trace[k].list, Delayed), Lst(trace[i].list, Delayed))
  {
    if k > i {
      GrowsOnly(trace, i, k - 1);
      assert OnlyGrows(trace, k - 1);
      EndsWithTrans(Lst(trace[k].list, Delayed), Lst(trace[k - 1].list, Delayed), Lst(trace[i].list, Delayed));
    }
  }

  /** The owner decides on a pass at `i` and swaps the list out at `k`. */
  ghost predicate PassCall(trace: seq<State>, steps: seq<Step>, i: nat, k: nat) {
    && IsRun(trace, steps) && i < k < |steps| && steps[i] == StartDrain && steps[k].Run?
    && forall m :: i < m <= k ==> trace[m].owner.DrainSwap?
  }

  /** Whatever other threads do between the owner's load of the list head and its swap, the list taken ends with
      the list that was there at first; and the delayed list is left empty. */
  lemma PassTakesAll(trace: seq<State>, steps: seq<Step>, i: nat, k: nat, l: seq<Addr>) returns (front: seq<Addr>)
    requires PassCall(trace, steps, i, k) && Chain(trace[i].mem, Hd(trace[i].head, Delayed), l)
    ensures Chain(trace[k + 1].mem, Hd(trace[k + 1].head, Drained), front + l)
    ensures Hd(trace[k + 1].head, Delayed) == NULL
  {
    ListBefore(trace, steps, i, k, l);
    ListChain(trace, steps, k, Delayed);
    RunTaken(trace, steps, k);
    front := SwapTail(trace[k], trace[k + 1], steps[k].ok, l);
  }

  lemma RunTaken(trace: seq<State>, steps: seq<Step>, k: nat)
    requires IsRun(trace, steps) && k < |steps| && steps[k].Run?
    ensures trace[k + 1] == ApplyOwner(trace[k], steps[k].ok)
  {
    StepTaken(trace, steps, k);
    RunStepIs(trace[k], steps[k].ok);
  }

  lemma ListBefore(trace: seq<State>, steps: seq<Step>, i: nat, k: nat, l: seq<Addr>)
    requires PassCall(trace, steps, i, k) && Chain(trace[i].mem, Hd(trace[i].head, Delayed), l)
    ensures EndsWith(Lst(trace[k].list, Delayed), l)
  {
    forall m | i + 1 <= m < k ensures OnlyGrows(trace, m) {
      StepTaken(trace, steps, m);
      WaitGrows(trace[m], steps[m], trace[m + 1]);
    }
    GrowsOnly(trace, i + 1, k);
    StepTaken(trace, steps, i);
    IsList(trace, steps, i, Delayed, l);
  }

  lemma SwapTail(s: State, s': State, ok: bool, l: seq<Addr>) returns (front: seq<Addr>)
    requires s.owner.DrainSwap? && s' == ApplyOwner(s, ok)
    requires Chain(s.mem, Hd(s.head, Delayed), Lst(s.list, Delayed)) && EndsWith(Lst(s.list, Delayed), l)
    ensures Chain(s'.mem, Hd(s'.head, Drained), front + l)
    ensures Hd(s'.head, Delayed) == NULL
  {
    SwapTakes(s, ok);
    var t := Lst(s.list, Delayed);
    front := t[..|t| - |l|];
    assert t == front + l;
  }

  // ---- The owner alone ----

  /** The run `trace` can go on through the states `more` by the steps `next`. */
  ghost predicate GoesOn(trace: seq<State>, steps: seq<Step>, more: seq<State>, next: seq<Step>) {
    |more| == |next| && IsRun(trace + more, steps + next)
  }

  /** Steps of the owner inside an operation. */
  ghost predicate AllRuns(steps: seq<Step>) { forall i :: 0 <= i < |steps| ==> steps[i].Run? }

  /** The run can go on by at most `n` steps of the owner and then be between operations with everything
      reclaimed. */
  ghost predicate CanReclaim(trace: seq<State>, steps: seq<Step>, n: nat) {
    exists more, next ::
      && GoesOn(trace, steps, more, next) && AllRuns(next) && |next| <= n
      && (trace + more)[|steps + next|].owner.Ready? && Reclaimed((trace + more)[|steps + next|])
  }

  lemma OneMore(trace: seq<State>, steps: seq<Step>, st: Step, s': State)
    requires IsRun(trace, steps) && StepsTo(trace[|steps|], st, s')
    ensures IsRun(trace + [s'], steps + [st]) && (trace + [s'])[|steps + [st]|] == s'
  {
  }

  lemma OneMoreReclaims(trace: seq<State>, steps: seq<Step>, ok: bool, s': State, n: nat)
    requires IsRun(trace, steps) && 0 < n && CanReclaim(trace + [s'], steps + [Run(ok)], n - 1)
    ensures CanReclaim(trace, steps, n)
  {
    var more, next :|
      && GoesOn(trace + [s'], steps + [Run(ok)], more, next) && AllRuns(next) && |next| <= n - 1
      && (trace + [s'] + more)[|steps + [Run(ok)] + next|].owner.Ready?
      && Reclaimed((trace + [s'] + more)[|steps + [Run(ok)] + next|]);
    assert trace + ([s'] + more) == trace + [s'] + more;
    assert steps + ([Run(ok)] + next) == steps + [Run(ok)] + next;
    assert GoesOn(trace, steps, [s'] + more, [Run(ok)] + next) && AllRuns([Run(ok)] + next);
  }

  lemma NoMoreNeeded(trace: seq<State>, steps: seq<Step>, n: nat)
    requires IsRun(trace, steps) && trace[|steps|].owner.Ready? && Reclaimed(trace[|steps|])
    ensures CanReclaim(trace, steps, n)
  {
    assert trace + [] == trace && steps + [] == steps;
    assert GoesOn(trace, steps, [], []) && AllRuns([]);
  }

  /** Nobody interferes: the pass has put nothing back, and the compare-exchange it is at, if any, will
      succeed. */
  ghost predicate Alone(s: State) { Quiet(s) && NoneBack(s) && !Late(s) }

  lemma SameQuiet(s: State, s': State)
    requires Quiet(s) && s'.freers == s.freers
    ensures Quiet(s')
  {
  }

  lemma OwnerKeepsFreers(s: State)
    requires Draining(s.owner)
    ensures ApplyOwner(s, true).freers == s.freers
  {
    if Collecting(s.owner) {
      CollectTurn(s, true);
    } else if s.owner.DrainNext? {
      DrainTurn(s, true);
    } else if s.owner.RetireCheck? {
      ReleaseFreers(s);
    } else {
      HandleSteady(s, true);
    }
  }

  lemma ReleaseFreers(s: State)
    requires s.owner.RetireCheck?
    ensures ApplyOwner(s, true).freers == s.freers
  {
    if Bits(s.bits, s.owner.p).Freeing? {
    }
  }

  /** Alone, the owner's next step is possible, brings it closer to the end, and leaves it alone. */
  lemma AloneStep(s: State)
    requires Reachable(s) && Alone(s)
    ensures Enabled(s, Run(true)) && Rank(ApplyOwner(s, true)) < Rank(s)
    ensures ApplyOwner(s, true).owner.Ready? || Alone(ApplyOwner(s, true))
  {
    ReachableInv(s);
    OwnerProgress(s, true);
    AloneStays(s);
  }

  lemma AloneStays(s: State)
    requires Inv(s) && Alone(s)
    ensures ApplyOwner(s, true).owner.Ready? || Alone(ApplyOwner(s, true))
  {
    RunNoneBack(s, true);
    SucceedsAgain(s);
    OwnerKeepsFreers(s);
    StillAlone(s, ApplyOwner(s, true));
  }

  lemma StillAlone(s: State, s': State)
    requires Quiet(s) && s'.freers == s.freers && !Late(s') && (NoneBack(s') || s'.owner.Ready?)
    ensures s'.owner.Ready? || Alone(s')
  {
    SameQuiet(s, s');
  }

  lemma SucceedsAgain(s: State)
    requires Inv(s) && Draining(s.owner) && !Late(s)
    ensures !Late(ApplyOwner(s, true))
  {
    if s.owner.RetireCheck? {
      ReleasePages(s, true);
    } else {
      AloneSteady(s);
    }
  }

  lemma AloneSteady(s: State)
    requires Draining(s.owner) && !s.owner.RetireCheck?
    ensures Steady(s, ApplyOwner(s, true))
  {
    if Collecting(s.owner) {
      CollectSteady(s, true);
    } else if s.owner.DrainNext? {
      DrainSteady(s, true);
    } else {
      HandleSteady(s, true);
    }
  }

  /** After the step that ends the pass everything is reclaimed. */
  lemma AloneEnds(s: State, s': State)
    requires Reachable(s) && Alone(s) && s' == ApplyOwner(s, true) && s'.owner.Ready? && Reachable(s')
    ensures Reclaimed(s')
  {
    ReachableInv(s);
    LastStep(s);
    HeadNull(s, Drained);
    assert Settled(s');
    ReclaimedIs(s');
  }

  lemma LastStep(s: State)
    requires Inv(s) && Draining(s.owner) && ApplyOwner(s, true).owner.Ready?
    ensures s.owner.DrainNext? && Hd(s.head, Drained) == NULL && ApplyOwner(s, true) == s.(owner := Ready)
  {
    if !s.owner.DrainNext? {
      GoesFurther(s);
    } else if Hd(s.head, Drained) != NULL {
      PopGoesFurther(s);
    }
  }

  lemma PopGoesFurther(s: State)
    requires s.owner.DrainNext? && Hd(s.head, Drained) != NULL
    ensures ApplyOwner(s, true).owner.TryLoad?
  {
  }

  lemma GoesFurther(s: State)
    requires Inv(s) && Draining(s.owner) && !s.owner.DrainNext?
    ensures !ApplyOwner(s, true).owner.Ready?
  {
    if Collecting(s.owner) {
      CollectGoesFurther(s);
    } else if s.owner.RetireCheck? {
      RetireCheckKeeps(s);
      ReleaseTurn(s, true);
    } else {
      HandleGoesFurther(s);
    }
  }

  lemma CollectGoesFurther(s: State)
    requires OwnerInv(s) && Collecting(s.owner) && s.owner.then_.FreeDelayed?
    ensures !ApplyOwner(s, true).owner.Ready?
  {
    if s.owner.CollectTake? {
      TakeIs(s, true);
      TakeOwner(s, s.owner.p, s.owner.force, s.owner.then_);
    } else if s.owner.CollectMove? {
      MoveEnds(s, true);
    } else {
      LoadOrAppendOwner(s, true);
    }
  }

  lemma HandleGoesFurther(s: State)
    requires s.owner.TryLoad? || s.owner.TryCas? || Putting(s.owner) || s.owner.FreeIt?
    ensures !ApplyOwner(s, true).owner.Ready?
  {
    if Putting(s.owner) {
      PutGoesFurther(s);
    } else if s.owner.FreeIt? {
      FreeItGoesFurther(s);
    } else {
      TryGoesFurther(s);
    }
  }

  lemma PutGoesFurther(s: State)
    requires Putting(s.owner)
    ensures !ApplyOwner(s, true).owner.Ready?
  {
    if s.owner.PutLoad? {
    }
  }

  lemma FreeItGoesFurther(s: State)
    requires s.owner.FreeIt?
    ensures ApplyOwner(s, true).owner.DrainNext?
  {
  }

  lemma TryGoesFurther(s: State)
    requires s.owner.TryLoad? || s.owner.TryCas?
    ensures !ApplyOwner(s, true).owner.Ready?
  {
    if s.owner.TryCas? {
    }
  }

  lemma {:induction false} AloneReclaims(trace: seq<State>, steps: seq<Step>)
    requires IsRun(trace, steps) && Alone(trace[|steps|])
    ensures CanReclaim(trace, steps, Rank(trace[|steps|]))
    decreases Rank(trace[|steps|])
  {
    var s := trace[|steps|];
    var s' := ApplyOwner(s, true);
    ReachableAt(trace, steps, |steps|);
    AloneStep(s);
    RunStepIs(s, true);
    OneMore(trace, steps, Run(true), s');
    var trace', steps' := trace + [s'], steps + [Run(true)];
    if s'.owner.Ready? {
      ReachableAt(trace', steps', |steps'|);
      AloneEnds(s, s');
      NoMoreNeeded(trace', steps', Rank(s) - 1);
    } else {
      AloneReclaims(trace', steps');
      Weaker(trace', steps', Rank(s'), Rank(s) - 1);
    }
    OneMoreReclaims(trace, steps, true, s', Rank(s));
  }

  lemma Weaker(trace: seq<State>, steps: seq<Step>, m: nat, n: nat)
    requires CanReclaim(trace, steps, m) && m <= n
    ensures CanReclaim(trace, steps, n)
  {
  }

  lemma SwapAlone(s: State, ok: bool)
    requires Inv(s) && Quiet(s) && s.owner.DrainSwap?
    ensures Alone(ApplyOwner(s, ok)) && Rank(ApplyOwner(s, ok)) < 16 * |Lst(s.list, Delayed)| + 2
  {
    SwapNoneBack(s, ok);
    SwapTally(s, ok);
    SwapTurn(s, ok);
    SameQuiet(s, ApplyOwner(s, ok));
  }

  lemma NothingDelayed(s: State)
    requires Reachable(s) && Quiet(s) && s.owner.Ready? && Lst(s.list, Delayed) == []
    ensures Reclaimed(s)
  {
    ReachableInv(s);
    ReclaimedIs(s);
  }

  /** Whenever nobody is freeing remotely and the owner is between operations, a pass that it starts can be
      carried through by its own steps alone, at most 16 per block of the delayed list and 2 more, after which
      every page's word is null with UseDelayedFree and the delayed list is empty. */
  lemma ReclaimPossible(trace: seq<State>, steps: seq<Step>, l: seq<Addr>)
    requires IsRun(trace, steps) && Quiet(trace[|steps|]) && trace[|steps|].owner.Ready?
    requires Chain(trace[|steps|].mem, Hd(trace[|steps|].head, Delayed), l)
    ensures var s' := Apply(trace[|steps|], StartDrain);
            && StepsTo(trace[|steps|], StartDrain, s')
            && CanReclaim(trace + [s'], steps + [StartDrain], 16 * |l| + 2)
  {
    var s := trace[|steps|];
    var s1 := Apply(s, StartDrain);
    ReachableAt(trace, steps, |steps|);
    ListsAreChains(s, Delayed);
    OneMore(trace, steps, StartDrain, s1);
    var trace1, steps1 := trace + [s1], steps + [StartDrain];
    if l == [] {
      NothingDelayed(s);
      NoMoreNeeded(trace1, steps1, 2);
    } else {
      RunKeepsInv(trace1, steps1, |steps1|);
      var s2 := ApplyOwner(s1, true);
      SwapAlone(s1, true);
      RunStepIs(s1, true);
      OneMore(trace1, steps1, Run(true), s2);
      AloneReclaims(trace1 + [s2], steps1 + [Run(true)]);
      Weaker(trace1 + [s2], steps1 + [Run(true)], Rank(s2), 16 * |l| + 1);
      OneMoreReclaims(trace1, steps1, true, s2, 16 * |l| + 2);
    }
  }
}
