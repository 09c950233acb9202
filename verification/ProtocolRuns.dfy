/**
 * The invariant of the cross-thread free protocol holds in every state of every run.
 */
module ProtocolRuns {
  import opened Chains
  import opened Protocol
  import opened ProtocolInv
  import opened ProtocolFreers
  import opened ProtocolOwner
  import opened ProtocolMoves
  import opened ProtocolPages

  lemma FreerStepKeeps(s: State, t: Tid, ok: bool)
    requires Inv(s) && !Fr(s.freers, t).Idle?
    requires Fr(s.freers, t).Pushing? ==> Enabled(s, FreePush(t, ok))
    requires Fr(s.freers, t).Entering? ==> Enabled(s, FreeEnter(t, ok))
    requires Fr(s.freers, t).DelayPushing? ==> Enabled(s, DelayPush(t, ok))
    requires !ok ==> Fr(s.freers, t).Pushing? || Fr(s.freers, t).Entering? || Fr(s.freers, t).DelayPushing?
    ensures Inv(ApplyFreer(s, t, ok))
  {
    if !ok {
      FailedCasKeeps(s, t);
    } else {
      match Fr(s.freers, t)
      case Loading(_, _) => LoadKeeps(s, t);
      case Linking(_, _, _) => LinkKeeps(s, t);
      case Pushing(_, _, _) => PushStepKeeps(s, t);
      case Entering(_, _, _) => EnterKeeps(s, t);
      case DelayLoading(_, _) => DelayLoadKeeps(s, t);
      case DelayLinking(_, _, _) => LinkKeeps(s, t);
      case DelayPushing(_, _, _) => DelayPushKeeps(s, t);
      case Leaving(_) => LeaveKeeps(s, t);
    }
  }

  lemma OwnerStepKeeps(s: State, ok: bool)
    requires Inv(s) && Enabled(s, Run(ok))
    ensures Inv(ApplyOwner(s, ok))
  {
    match s.owner
    case CollectLoad(_, _, _) => CollectLoadKeeps(s);
    case CollectTake(p, _, _) =>
      if Hd(s.head, ThreadOf(p)) == NULL { CollectNothingKeeps(s); } else { CollectTakeKeeps(s); }
    case CollectAppend(_, _, _) => CollectAppendKeeps(s);
    case CollectMove(_, _, _) => CollectMoveKeeps(s);
    case DrainSwap => DrainSwapKeeps(s);
    case DrainNext(_) =>
      if Hd(s.head, Drained) == NULL { DrainDoneKeeps(s); } else { DrainPopKeeps(s); }
    case TryLoad(_, _, _, _) => TryLoadKeeps(s);
    case TryCas(_, _, _, _, _) => if ok { TryCasKeeps(s); } else { FailedTryKeeps(s); }
    case PutLoad(_) => PutLoadKeeps(s);
    case PutLink(_, _) => PutLinkKeeps(s);
    case PutCas(_, _) => if ok { PutCasKeeps(s); } else { FailedPutKeeps(s); }
    case FreeIt(_, _, _) => FreeItKeeps(s);
    case RetireCheck(_, _) => RetireCheckKeeps(s);
  }

  /** The steps of a thread inside `free_block_mt`. */
  ghost predicate IsFreerStep(st: Step) {
    || st.FreeLoad? || st.FreeLink? || st.FreePush? || st.FreeEnter?
    || st.DelayLoad? || st.DelayLink? || st.DelayPush? || st.Leave?
  }

  lemma AnyFreerStepKeeps(s: State, st: Step)
    requires Inv(s) && Enabled(s, st) && IsFreerStep(st)
    ensures Inv(Apply(s, st))
  {
    match st
    case FreeLoad(t) => FreerStepKeeps(s, t, true);
    case FreeLink(t) => FreerStepKeeps(s, t, true);
    case FreePush(t, ok) => FreerStepKeeps(s, t, ok);
    case FreeEnter(t, ok) => FreerStepKeeps(s, t, ok);
    case DelayLoad(t) => FreerStepKeeps(s, t, true);
    case DelayLink(t) => FreerStepKeeps(s, t, true);
    case DelayPush(t, ok) => FreerStepKeeps(s, t, ok);
    case Leave(t) => FreerStepKeeps(s, t, true);
  }

  lemma AnyOtherStepKeeps(s: State, st: Step)
    requires Inv(s) && Enabled(s, st) && !IsFreerStep(st)
    ensures Inv(Apply(s, st))
  {
    match st
    case FreeStart(t, b) => FreeStartKeeps(s, t, b);
    case Scribble(b, v) => ScribbleKeeps(s, b, v);
    case Enable(p, g) => EnableKeeps(s, p, g);
    case Extend(p, n) => ExtendKeeps(s, p, n);
    case Malloc(p) => MallocKeeps(s, p);
    case LocalFree(b) => LocalFreeKeeps(s, b);
    case Retire(p) => RetireKeeps(s, p);
    case StartCollect(p, force) => StartCollectKeeps(s, p, force);
    case StartDrain => StartDrainKeeps(s);
    case Run(ok) => OwnerStepKeeps(s, ok);
  }

  /** Every enabled step of any thread keeps the invariant. */
  lemma StepKeepsInv(s: State, st: Step, s': State)
    requires Inv(s) && StepsTo(s, st, s')
    ensures Inv(s')
  {
    if IsFreerStep(st) {
      AnyFreerStepKeeps(s, st);
    } else {
      AnyOtherStepKeeps(s, st);
    }
  }

  lemma RunStepKeepsInv(trace: seq<State>, steps: seq<Step>, i: nat)
    requires IsRun(trace, steps) && i < |steps| && Inv(trace[i])
    ensures Inv(trace[i + 1])
  {
    StepKeepsInv(trace[i], steps[i], trace[i + 1]);
  }

  lemma {:induction false} RunKeepsInv(trace: seq<State>, steps: seq<Step>, i: nat)
    requires IsRun(trace, steps) && i < |trace|
    ensures Inv(trace[i])
  {
    if i == 0 {
      InitInv(trace[0]);
    } else {
      RunKeepsInv(trace, steps, i - 1);
      RunStepKeepsInv(trace, steps, i - 1);
    }
  }

  /** Some run ends in `s`. */
  ghost predicate Reachable(s: State) {
    exists trace, steps :: IsRun(trace, steps) && s == trace[|steps|]
  }

  lemma ReachableInv(s: State)
    requires Reachable(s)
    ensures Inv(s)
  {
    var trace, steps :| IsRun(trace, steps) && s == trace[|steps|];
    RunKeepsInv(trace, steps, |steps|);
  }

  /** Reachability is closed under steps. */
  lemma ReachableStep(s: State, st: Step, s': State)
    requires Reachable(s) && StepsTo(s, st, s')
    ensures Reachable(s')
  {
    var trace, steps :| IsRun(trace, steps) && s == trace[|steps|];
    assert IsRun(trace + [s'], steps + [st]);
    assert (trace + [s'])[|steps + [st]|] == s';
  }

  lemma ReachableAt(trace: seq<State>, steps: seq<Step>, i: nat)
    requires IsRun(trace, steps) && i < |trace|
    ensures Reachable(trace[i])
  {
    assert IsRun(trace[..i + 1], steps[..i]);
    assert trace[..i + 1][|steps[..i]|] == trace[i];
  }
}
