/**
 * Pages come from the steps that set them up: in every state of a run, every page was set up by an earlier
 * step, with the blocks it has.
 */
module ProtocolSpans {
  import opened Protocol
  import opened ProtocolInv
  import opened ProtocolPasses
  import opened ProtocolProgress

  /** Every page set up was so before, or this step set it up. */
  ghost predicate SpanStep(s: State, st: Step, s': State) {
    forall p: Page :: p in s'.span ==> (p in s.span && s'.span[p] == s.span[p]) || st == Enable(p, s'.span[p])
  }

  lemma SameSpan(s: State, st: Step, s': State)
    requires s'.span == s.span || exists p :: s'.span == s.span - {p}
    ensures SpanStep(s, st, s')
  {
  }

  /** A step fixed by the owner's program counter leaves the threads alone, and the pages too unless it
      releases one. */
  ghost predicate RunKeeps(s: State, s': State) {
    && s'.freers == s.freers
    && (s'.span == s.span || (s.owner.RetireCheck? && s'.span == s.span - {s.owner.p}))
  }

  lemma PrivateRun(s: State, s': State)
    requires Private(s, s')
    ensures RunKeeps(s, s')
  {
  }

  lemma ReleaseKeeps(s: State, ok: bool)
    requires s.owner.RetireCheck?
    ensures RunKeeps(s, ApplyOwner(s, ok))
  {
    if Bits(s.bits, s.owner.p).Freeing? {
    }
  }

  lemma RunSpan(s: State, ok: bool)
    requires !s.owner.Ready?
    ensures RunKeeps(s, ApplyOwner(s, ok))
  {
    if s.owner.RetireCheck? {
      ReleaseKeeps(s, ok);
    } else {
      RunPrivate(s, ok);
      PrivateRun(s, ApplyOwner(s, ok));
    }
  }

  lemma RunPrivate(s: State, ok: bool)
    requires !s.owner.Ready? && !s.owner.RetireCheck?
    ensures Private(s, ApplyOwner(s, ok))
  {
    if FailedCas(s, Run(ok)) {
      FailedRank(s);
    } else if Collecting(s.owner) {
      CollectSteady(s, ok);
    } else if s.owner.DrainNext? {
      DrainSteady(s, ok);
    } else if s.owner.DrainSwap? {
      SwapTurn(s, ok);
    } else {
      HandleSteady(s, ok);
    }
  }

  lemma StartSpan(s: State, st: Step)
    requires !OfOthers(st) && !st.Run? && !st.Enable?
    ensures Apply(s, st).span == s.span
  {
    StepCases(st);
  }

  lemma EnableSpan(s: State, p: Page, g: Span)
    ensures Apply(s, Enable(p, g)).span == s.span[p := g]
  {
  }

  lemma StepSpan(s: State, st: Step, s': State)
    requires StepsTo(s, st, s')
    ensures SpanStep(s, st, s')
  {
    if OfOthers(st) {
      OthersKeepDrain(s, st);
    } else if st.Run? {
      RunStepIs(s, st.ok);
      RunSpan(s, st.ok);
      SameSpan(s, st, s');
    } else if st.Enable? {
      EnableSpan(s, st.p, st.g);
    } else {
      StartSpan(s, st);
    }
  }

  /** Step `k` set up page `p` with span `g`. */
  ghost predicate SetUpAt(steps: seq<Step>, k: nat, p: Page, g: Span) {
    k < |steps| && steps[k] == Enable(p, g)
  }

  /** Every page was set up, as it is, by an earlier step of the run. */
  lemma {:induction false} SetUpBefore(trace: seq<State>, steps: seq<Step>, i: nat, p: Page)
    requires IsRun(trace, steps) && i < |trace| && p in trace[i].span
    ensures exists k: nat :: k < i && SetUpAt(steps, k, p, trace[i].span[p])
  {
    if i > 0 {
      StepTaken(trace, steps, i - 1);
      StepSpan(trace[i - 1], steps[i - 1], trace[i]);
      if steps[i - 1] == Enable(p, trace[i].span[p]) {
        assert SetUpAt(steps, i - 1, p, trace[i].span[p]);
      } else {
        SetUpBefore(trace, steps, i - 1, p);
      }
    }
  }
}
