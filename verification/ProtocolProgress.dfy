/**
 * How long a pass of `heap_delayed_free_partial` can take: the steps of the owner are bounded by the
 * length of the list it took, the pages set up, and how often its compare-exchanges fail; and they
 * fail only spuriously or because another thread's succeeded.
 */
module ProtocolProgress {
  import opened Chains
  import opened Protocol
  import opened ProtocolInv
  import opened ProtocolRuns
  import opened ProtocolPasses

  // ---- Kinds of steps ----

  /** The first four kinds are the steps of the owner.  A compare-exchange of the owner fails because
      the value changed, `Beaten`, or for no reason, `Spurious`. */
  datatype Kind = Advances | Spurious | Beaten | Retires | Interferes | Neutral

  /** A step of a thread freeing a block, or of the user. */
  ghost predicate OfOthers(st: Step) {
    IsFreerStep(st) || st.FreeStart? || st.Scribble?
  }

  /** The steps of other threads that change a page's word or the head of the delayed list. */
  ghost predicate Interfering(st: Step) {
    st.Leave? || (st.FreePush? && st.ok) || (st.FreeEnter? && st.ok) || (st.DelayPush? && st.ok)
  }

  /** The compare-exchange that the owner is at, or writes its block for, cannot succeed. */
  ghost predicate Late(s: State) {
    || (s.owner.TryCas? && s.PageWord(s.owner.p) != s.owner.w)
    || ((s.owner.PutLink? || s.owner.PutCas?) && Hd(s.head, Delayed) != s.owner.next)
  }

  /** The owner's compare-exchange fails. */
  ghost predicate FailedCas(s: State, st: Step) {
    st == Run(false) && (s.owner.TryCas? || s.owner.PutCas?)
  }

  ghost function KindOf(s: State, st: Step): Kind {
    if OfOthers(st) then (if Interfering(st) then Interferes else Neutral)
    else if st.Retire? then Retires
    else if FailedCas(s, st) then (if Late(s) then Beaten else Spurious)
    else Advances
  }

  /** How many of the steps from `i` up to `j` are of kind `k`. */
  ghost function Count(trace: seq<State>, steps: seq<Step>, i: nat, j: nat, k: Kind): nat
    requires j <= |steps| < |trace|
    decreases j
  {
    if j <= i then 0
    else Count(trace, steps, i, j - 1, k) + if KindOf(trace[j - 1], steps[j - 1]) == k then 1 else 0
  }

  lemma CountNone(trace: seq<State>, steps: seq<Step>, i: nat)
    requires i <= |steps| < |trace|
    ensures forall k :: Count(trace, steps, i, i, k) == 0
  {
  }

  lemma CountNext(trace: seq<State>, steps: seq<Step>, i: nat, j: nat)
    requires i < j <= |steps| < |trace|
    ensures var kind := KindOf(trace[j - 1], steps[j - 1]);
            forall k :: Count(trace, steps, i, j, k)
                        == Count(trace, steps, i, j - 1, k) + if kind == k then 1 else 0
  {
  }

  ghost function FailedSteps(trace: seq<State>, steps: seq<Step>, i: nat, j: nat): nat
    requires j <= |steps| < |trace|
  {
    Count(trace, steps, i, j, Spurious) + Count(trace, steps, i, j, Beaten)
  }

  ghost function OwnerSteps(trace: seq<State>, steps: seq<Step>, i: nat, j: nat): nat
    requires j <= |steps| < |trace|
  {
    Count(trace, steps, i, j, Advances) + FailedSteps(trace, steps, i, j) + Count(trace, steps, i, j, Retires)
  }

  // ---- What one step does to the owner's rank ----

  lemma FreerKeepsDrain(s: State, t: Tid, ok: bool)
    ensures var s' := ApplyFreer(s, t, ok);
            && s'.owner == s.owner && s'.span == s.span && Lst(s'.list, Drained) == Lst(s.list, Drained)
  {
    FreerCases(Fr(s.freers, t));
  }

  lemma OthersKeepDrain(s: State, st: Step)
    requires OfOthers(st)
    ensures var s' := Apply(s, st);
            && s'.owner == s.owner && s'.span == s.span && Lst(s'.list, Drained) == Lst(s.list, Drained)
  {
    if IsFreerStep(st) {
      var ok := if st.FreePush? || st.FreeEnter? || st.DelayPush? then st.ok else true;
      assert Apply(s, st) == ApplyFreer(s, st.t, ok);
      FreerKeepsDrain(s, st.t, ok);
    }
  }

  /** Other threads do not touch the owner's rank once it has taken its list. */
  lemma OthersKeepRank(s: State, s': State)
    requires Draining(s.owner) && s'.owner == s.owner && Lst(s'.list, Drained) == Lst(s.list, Drained)
    ensures Rank(s') == Rank(s)
  {
  }

  lemma FailedRank(s: State)
    requires s.owner.TryCas? || s.owner.PutCas?
    ensures Rank(ApplyOwner(s, false)) <= Rank(s) + 5 && Private(s, ApplyOwner(s, false))
    ensures !Late(ApplyOwner(s, false)) && !ApplyOwner(s, false).owner.RetireCheck?
  {
    if s.owner.TryCas? {
      assert ApplyOwner(s, false).owner.TryLoad?;
    } else {
      assert ApplyOwner(s, false).owner.PutLoad?;
    }
  }

  lemma RetireRank(s: State, p: Page)
    requires s.owner.DrainNext?
    ensures var s' := Apply(s, Retire(p));
            Rank(s') == Rank(s) + 1 && s'.span == s.span && s'.owner.RetireCheck? && s'.owner.p == p
  {
  }

  /** Inside a pass the owner has no other steps. */
  lemma PassStepCases(s: State, st: Step)
    requires (Draining(s.owner) || s.owner.DrainSwap?) && Enabled(s, st) && !OfOthers(st)
    ensures st.Run? || (st.Retire? && s.owner.DrainNext?)
  {
    StepCases(st);
  }

  ghost predicate RankStep(k: Kind, before: nat, after: nat) {
    match k
    case Advances => after < before
    case Spurious => after <= before + 5
    case Beaten => after <= before + 5
    case Retires => after <= before + 1
    case _ => after == before
  }

  lemma StepRank(s: State, st: Step, s': State)
    requires Reachable(s) && StepsTo(s, st, s') && Draining(s.owner)
    ensures RankStep(KindOf(s, st), Rank(s), Rank(s'))
  {
    if OfOthers(st) {
      OthersKeepDrain(s, st);
      OthersKeepRank(s, s');
    } else {
      PassStepCases(s, st);
      if st.Retire? {
        RetireRank(s, st.p);
      } else {
        RunRank(s, st.ok);
      }
    }
  }

  lemma RunRank(s: State, ok: bool)
    requires Reachable(s) && Enabled(s, Run(ok)) && !s.owner.DrainSwap?
    ensures RankStep(KindOf(s, Run(ok)), Rank(s), Rank(Apply(s, Run(ok))))
  {
    RunStepIs(s, ok);
    if FailedCas(s, Run(ok)) {
      FailedRank(s);
    } else {
      OwnerProgress(s, ok);
    }
  }

  // ---- What one step does to the pages and to the owner's compare-exchange ----

  /** The pages set up that are not being retired. */
  ghost function Pages(s: State): int {
    |s.span| - if s.owner.RetireCheck? then 1 else 0
  }

  /** The pages and the other threads stay as they are. */
  ghost predicate Private(s: State, s': State) {
    s'.span == s.span && s'.freers == s.freers
  }

  /** No page is set up, given up or released, and a compare-exchange that could succeed still can. */
  ghost predicate Steady(s: State, s': State) {
    Private(s, s') && !s'.owner.RetireCheck? && (Late(s') ==> Late(s))
  }

  /** The owner is at no compare-exchange. */
  ghost predicate Elsewhere(o: Owner) {
    !o.TryCas? && !o.PutLink? && !o.PutCas? && !o.RetireCheck?
  }

  lemma ElsewhereSteady(s: State, s': State)
    requires Private(s, s') && Elsewhere(s'.owner)
    ensures Steady(s, s')
  {
  }

  lemma CollectSteady(s: State, ok: bool)
    requires Collecting(s.owner)
    ensures Steady(s, ApplyOwner(s, ok))
  {
    CollectTurn(s, ok);
    ElsewhereSteady(s, ApplyOwner(s, ok));
  }

  lemma CollectTurn(s: State, ok: bool)
    requires Collecting(s.owner)
    ensures Private(s, ApplyOwner(s, ok)) && Elsewhere(ApplyOwner(s, ok).owner)
  {
    match s.owner
    case CollectLoad(_, _, _) =>
    case CollectTake(p, force, k) => TakeTurn(s, p, force, k);
    case CollectAppend(_, _, _) => AppendTurn(s, ok);
    case CollectMove(p, force, k) => MoveTurn(s, p, force);
  }

  lemma AppendTurn(s: State, ok: bool)
    requires s.owner.CollectAppend?
    ensures Private(s, ApplyOwner(s, ok)) && Elsewhere(ApplyOwner(s, ok).owner)
  {
  }

  lemma DrainSteady(s: State, ok: bool)
    requires s.owner.DrainNext?
    ensures Steady(s, ApplyOwner(s, ok))
  {
    DrainTurn(s, ok);
    ElsewhereSteady(s, ApplyOwner(s, ok));
  }

  lemma DrainTurn(s: State, ok: bool)
    requires s.owner.DrainNext?
    ensures Private(s, ApplyOwner(s, ok)) && Elsewhere(ApplyOwner(s, ok).owner)
  {
    if Hd(s.head, Drained) == NULL {
    }
  }

  lemma HandleSteady(s: State, ok: bool)
    requires OwnerHolds(s.owner) && !Collecting(s.owner) && !FailedCas(s, Run(ok))
    ensures Steady(s, ApplyOwner(s, ok))
  {
    if s.owner.TryLoad? || s.owner.TryCas? {
      TrySteady(s, ok);
    } else if s.owner.FreeIt? {
      FreeItSteady(s, ok);
    } else {
      PutSteady(s, ok);
    }
  }

  lemma TrySteady(s: State, ok: bool)
    requires s.owner.TryLoad? || (s.owner.TryCas? && ok)
    ensures Steady(s, ApplyOwner(s, ok))
  {
    var s' := ApplyOwner(s, ok);
    if s.owner.TryCas? {
      assert s'.owner.CollectLoad?;
    } else {
      assert s' == s.(owner := s'.owner);
      assert s'.owner.TryCas? ==> s'.owner.w == s.PageWord(s'.owner.p);
    }
  }

  lemma FreeItSteady(s: State, ok: bool)
    requires s.owner.FreeIt?
    ensures Steady(s, ApplyOwner(s, ok))
  {
    assert ApplyOwner(s, ok).owner.DrainNext?;
  }

  lemma PutSteady(s: State, ok: bool)
    requires s.owner.PutLoad? || s.owner.PutLink? || (s.owner.PutCas? && ok)
    ensures Steady(s, ApplyOwner(s, ok))
  {
    if s.owner.PutLoad? {
      assert ApplyOwner(s, ok).owner.PutLink?;
    } else if s.owner.PutLink? {
      assert ApplyOwner(s, ok).owner.PutCas?;
    } else {
      assert ApplyOwner(s, ok).owner.DrainNext?;
    }
  }

  lemma ReleasePages(s: State, ok: bool)
    requires Inv(s) && s.owner.RetireCheck?
    ensures var s' := ApplyOwner(s, ok); Pages(s') == Pages(s) && !Late(s')
  {
    ProtocolPages.RetireCheckKeeps(s);
    assert OwnerInv(s);
    Released(s, ok);
  }

  lemma Released(s: State, ok: bool)
    requires s.owner.RetireCheck? && s.owner.p in s.span && Bits(s.bits, s.owner.p).UseDelayedFree?
    requires s.owner.resume.Ready? || s.owner.resume.DrainNext?
    ensures var s' := ApplyOwner(s, ok); Pages(s') == Pages(s) && !Late(s')
  {
    ReleaseTurn(s, ok);
    FewerPages(s, ApplyOwner(s, ok));
  }

  lemma ReleaseTurn(s: State, ok: bool)
    requires s.owner.RetireCheck? && Bits(s.bits, s.owner.p).UseDelayedFree?
    ensures ApplyOwner(s, ok).owner == s.owner.resume && ApplyOwner(s, ok).span == s.span - {s.owner.p}
  {
  }

  lemma FewerPages(s: State, s': State)
    requires s.owner.RetireCheck? && s.owner.p in s.span && s'.span == s.span - {s.owner.p}
    requires Elsewhere(s'.owner)
    ensures Pages(s') == Pages(s) && !Late(s')
  {
    OneLess(s.span, s'.span, s.owner.p);
  }

  lemma OneLess(span: map<Page, Span>, span': map<Page, Span>, p: Page)
    requires p in span && span' == span - {p}
    ensures |span'| == |span| - 1
  {
    assert span'.Keys == span.Keys - {p};
  }

  ghost predicate PagesStep(k: Kind, before: int, after: int) {
    after == if k.Retires? then before - 1 else before
  }

  ghost predicate LateStep(k: Kind, before: bool, after: bool) {
    match k
    case Interferes => true
    case Beaten => before && !after
    case _ => after ==> before
  }

  lemma RunPages(s: State, ok: bool)
    requires Inv(s) && Draining(s.owner)
    ensures var k, s' := KindOf(s, Run(ok)), ApplyOwner(s, ok);
            PagesStep(k, Pages(s), Pages(s')) && LateStep(k, Late(s), Late(s'))
  {
    if s.owner.RetireCheck? {
      ReleasePages(s, ok);
    } else if FailedCas(s, Run(ok)) {
      FailedRank(s);
    } else if Collecting(s.owner) {
      CollectSteady(s, ok);
    } else if s.owner.DrainNext? {
      DrainSteady(s, ok);
    } else {
      HandleSteady(s, ok);
    }
  }

  lemma FreerKeepsShared(s: State, t: Tid, ok: bool)
    requires !Fr(s.freers, t).Leaving?
    requires Fr(s.freers, t).Pushing? || Fr(s.freers, t).Entering? || Fr(s.freers, t).DelayPushing? ==> !ok
    ensures ApplyFreer(s, t, ok).head == s.head && ApplyFreer(s, t, ok).bits == s.bits
  {
    FreerCases(Fr(s.freers, t));
  }

  lemma NeutralKeepsShared(s: State, st: Step)
    requires OfOthers(st) && !Interfering(st) && Enabled(s, st)
    ensures Apply(s, st).head == s.head && Apply(s, st).bits == s.bits
  {
    match st
    case FreeLoad(t) => FreerKeepsShared(s, t, true);
    case FreeLink(t) => FreerKeepsShared(s, t, true);
    case DelayLoad(t) => FreerKeepsShared(s, t, true);
    case DelayLink(t) => FreerKeepsShared(s, t, true);
    case FreePush(t, ok) => FreerKeepsShared(s, t, false);
    case FreeEnter(t, ok) => FreerKeepsShared(s, t, false);
    case DelayPush(t, ok) => FreerKeepsShared(s, t, false);
    case FreeStart(t, b) =>
    case Scribble(b, v) =>
  }

  lemma SameLate(s: State, s': State)
    requires s'.owner == s.owner && s'.head == s.head && s'.bits == s.bits
    ensures Late(s') == Late(s)
  {
  }

  lemma OthersPages(s: State, st: Step, s': State)
    requires StepsTo(s, st, s') && OfOthers(st)
    ensures Pages(s') == Pages(s) && (!Interfering(st) ==> Late(s') == Late(s))
  {
    OthersKeepDrain(s, st);
    if !Interfering(st) {
      NeutralKeepsShared(s, st);
      SameLate(s, s');
    }
  }

  lemma StepPages(s: State, st: Step, s': State)
    requires Inv(s) && StepsTo(s, st, s') && Draining(s.owner)
    ensures PagesStep(KindOf(s, st), Pages(s), Pages(s')) && LateStep(KindOf(s, st), Late(s), Late(s'))
  {
    if OfOthers(st) {
      OthersPages(s, st, s');
    } else {
      PassStepCases(s, st);
      if st.Retire? {
        RetireRank(s, st.p);
        assert !Late(s');
      } else {
        RunStepIs(s, st.ok);
        RunPages(s, st.ok);
      }
    }
  }

  // ---- Whole passes ----

  /** What is true of the counts after any number of steps of a pass. */
  ghost predicate Tally(trace: seq<State>, steps: seq<Step>, i: nat, j: nat)
    requires i < j <= |steps| < |trace|
  {
    && OwnerSteps(trace, steps, i, j) + Rank(trace[j])
       <= 16 * |Lst(trace[i].list, Delayed)| + 2
          + 6 * FailedSteps(trace, steps, i, j) + 2 * Count(trace, steps, i, j, Retires)
    && Count(trace, steps, i, j, Retires) + Pages(trace[j]) == |trace[i].span|
    && Count(trace, steps, i, j, Beaten) + (if Late(trace[j]) then 1 else 0) <= Count(trace, steps, i, j, Interferes)
  }

  lemma SwapTally(s: State, ok: bool)
    requires Inv(s) && s.owner.DrainSwap?
    ensures var s' := ApplyOwner(s, ok);
            && Rank(s') < 16 * |Lst(s.list, Delayed)| + 2
            && Pages(s') == |s.span| && !Late(s') && KindOf(s, Run(ok)) == Advances
  {
    DrainFalls(s, ok);
    SwapTurn(s, ok);
    NewPass(s, ApplyOwner(s, ok));
  }

  lemma NewPass(s: State, s': State)
    requires OwnerInv(s) && s.owner.DrainSwap? && s'.owner.DrainNext? && s'.span == s.span
    ensures Rank(s) == 16 * |Lst(s.list, Delayed)| + 2 && Pages(s') == |s.span| && !Late(s')
  {
    assert Lst(s.list, Drained) == [];
  }

  lemma SwapTurn(s: State, ok: bool)
    requires s.owner.DrainSwap?
    ensures ApplyOwner(s, ok).owner == DrainNext(true) && Private(s, ApplyOwner(s, ok))
  {
  }

  lemma TallyFirst(trace: seq<State>, steps: seq<Step>, i: nat)
    requires InPass(trace, steps, i, i + 1)
    ensures Tally(trace, steps, i, i + 1)
  {
    RunKeepsInv(trace, steps, i);
    StepTaken(trace, steps, i);
    RunStepIs(trace[i], steps[i].ok);
    SwapTally(trace[i], steps[i].ok);
    CountNone(trace, steps, i);
    CountNext(trace, steps, i, i + 1);
  }

  lemma TallyNext(trace: seq<State>, steps: seq<Step>, i: nat, j: nat)
    requires i < j - 1 && j <= |steps| < |trace| && Tally(trace, steps, i, j - 1)
    requires RankStep(KindOf(trace[j - 1], steps[j - 1]), Rank(trace[j - 1]), Rank(trace[j]))
    requires PagesStep(KindOf(trace[j - 1], steps[j - 1]), Pages(trace[j - 1]), Pages(trace[j]))
    requires LateStep(KindOf(trace[j - 1], steps[j - 1]), Late(trace[j - 1]), Late(trace[j]))
    ensures Tally(trace, steps, i, j)
  {
    CountNext(trace, steps, i, j);
  }

  lemma TallyStep(trace: seq<State>, steps: seq<Step>, i: nat)
    requires IsRun(trace, steps) && i < |steps| && Draining(trace[i].owner)
    ensures var k, s, s' := KindOf(trace[i], steps[i]), trace[i], trace[i + 1];
            && RankStep(k, Rank(s), Rank(s')) && PagesStep(k, Pages(s), Pages(s'))
            && LateStep(k, Late(s), Late(s'))
  {
    RunKeepsInv(trace, steps, i);
    ReachableAt(trace, steps, i);
    StepTaken(trace, steps, i);
    StepRank(trace[i], steps[i], trace[i + 1]);
    StepPages(trace[i], steps[i], trace[i + 1]);
  }

  lemma TallyLonger(trace: seq<State>, steps: seq<Step>, i: nat, j: nat)
    requires IsRun(trace, steps) && i < j - 1 && j <= |steps| < |trace| && Draining(trace[j - 1].owner)
    requires Tally(trace, steps, i, j - 1)
    ensures Tally(trace, steps, i, j)
  {
    TallyStep(trace, steps, j - 1);
    TallyNext(trace, steps, i, j);
  }

  lemma {:induction false} PassTally(trace: seq<State>, steps: seq<Step>, i: nat, j: nat)
    requires InPass(trace, steps, i, j)
    ensures Tally(trace, steps, i, j)
  {
    if j == i + 1 {
      TallyFirst(trace, steps, i);
    } else {
      PassShorter(trace, steps, i, j);
      PassTally(trace, steps, i, j - 1);
      TallyLonger(trace, steps, i, j);
    }
  }

  /** A pass ends.  Whatever the other threads do, the owner takes at most 16 steps per block of the list
      it took, two per page it retires and six per compare-exchange that fails; it retires no more
      pages than were set up; and its compare-exchanges fail, other than spuriously, at most as often as
      compare-exchanges and exchanges of other threads succeed. */
  lemma PassEnds(trace: seq<State>, steps: seq<Step>, i: nat, j: nat)
    requires InPass(trace, steps, i, j)
    ensures OwnerSteps(trace, steps, i, j)
            <= 16 * |Lst(trace[i].list, Delayed)| + 2
               + 6 * FailedSteps(trace, steps, i, j) + 2 * Count(trace, steps, i, j, Retires)
    ensures Count(trace, steps, i, j, Retires) <= |trace[i].span|
    ensures Count(trace, steps, i, j, Beaten) <= Count(trace, steps, i, j, Interferes)
  {
    PassTally(trace, steps, i, j);
    RunKeepsInv(trace, steps, j);
    PagesLeft(trace[j]);
  }

  lemma PagesLeft(s: State)
    requires Inv(s)
    ensures Pages(s) >= 0
  {
    if s.owner.RetireCheck? {
      assert s.owner.p in s.span.Keys;
    }
  }
}
