/**
 * How the steps of the protocol change the words of pages: every step changes a page's word by one of
 * five operations, each of which has its counterpart on the packed word.
 */
module ProtocolPacked {
  import opened Chains
  import opened MachineWord
  import opened PackedWord
  import opened Protocol
  import opened ProtocolInv
  import opened ProtocolPages
  import opened ProtocolRuns
  import opened ProtocolTheorems

  // ---- Steps that leave every page's word alone ----

  ghost predicate WordsKept(s: State, s': State) {
    forall p :: s'.PageWord(p) == s.PageWord(p)
  }

  lemma FreerKeepsWords(s: State, t: Tid, ok: bool)
    requires !Fr(s.freers, t).Leaving? && (ok ==> !Fr(s.freers, t).Pushing? && !Fr(s.freers, t).Entering?)
    ensures WordsKept(s, ApplyFreer(s, t, ok))
  {
    FreerCases(Fr(s.freers, t));
  }

  lemma OwnerKeepsWords(s: State, ok: bool)
    requires !s.owner.CollectTake? && !(s.owner.TryCas? && ok)
    ensures WordsKept(s, ApplyOwner(s, ok))
  {
    match s.owner
    case CollectAppend(_, _, _) => AppendKeepsWords(s, ok);
    case CollectMove(p, force, _) => MoveKeepsWords(s, p, force);
    case DrainNext(_) => NextKeepsWords(s, ok);
    case _ => PlainKeepsWords(s, ok);
  }

  lemma AppendKeepsWords(s: State, ok: bool)
    requires s.owner.CollectAppend?
    ensures WordsKept(s, ApplyOwner(s, ok))
  {
    if Lst(s.list, Taken) == [] {
    }
  }

  lemma MoveKeepsWords(s: State, p: Page, force: bool)
    ensures WordsKept(s, MoveLocalFree(s, p, force))
  {
    var s' := MoveLocalFree(s, p, force);
    if s' == s {
    } else if s' == TakeAll(s, LocalOf(p), FreeOf(p)) {
    } else {
      assert s' == AppendAll(s, LocalOf(p), FreeOf(p));
    }
  }

  lemma NextKeepsWords(s: State, ok: bool)
    requires s.owner.DrainNext?
    ensures WordsKept(s, ApplyOwner(s, ok))
  {
    if Hd(s.head, Drained) == NULL {
    }
  }

  lemma PlainKeepsWords(s: State, ok: bool)
    requires !s.owner.CollectTake? && !(s.owner.TryCas? && ok)
    requires !s.owner.CollectAppend? && !s.owner.CollectMove? && !s.owner.DrainNext?
    ensures WordsKept(s, ApplyOwner(s, ok))
  {
    OwnerCases(s.owner);
  }

  lemma OtherKeepsWords(s: State, st: Step)
    requires Inv(s) && Enabled(s, st) && !st.Run? && !IsFreerStep(st)
    ensures WordsKept(s, Apply(s, st))
  {
    StepCases(st);
    if st.Enable? {
      NoBlocks(s, st.p);
    }
  }

  // ---- Steps that change one page's word ----

  /** The operation a step applies to the word of page `p`, if any. */
  datatype WordOp = Keep | Push(block: Addr) | EnterFreeing | UseAgain | Take | ExitFreeing

  function OpOf(s: State, st: Step, p: Page): WordOp {
    match st
    case FreePush(t, ok) =>
      if ok && Fr(s.freers, t).Pushing? && Fr(s.freers, t).p == p then Push(Fr(s.freers, t).b) else Keep
    case FreeEnter(t, ok) =>
      if ok && Fr(s.freers, t).Entering? && Fr(s.freers, t).p == p then EnterFreeing else Keep
    case Leave(t) =>
      if Fr(s.freers, t).Leaving? && Fr(s.freers, t).p == p then ExitFreeing else Keep
    case Run(ok) =>
      if s.owner.TryCas? && ok && s.owner.p == p then UseAgain
      else if s.owner.CollectTake? && s.owner.p == p then Take
      else Keep
    case _ => Keep
  }

  function OnPair(w: Word, op: WordOp): Word {
    match op
    case Keep => w
    case Push(block) => w.(ptr := block)
    case EnterFreeing => w.(delay := Freeing)
    case UseAgain => w.(delay := UseDelayedFree)
    case Take => w.(ptr := NULL)
    case ExitFreeing => w.(delay := Protocol.Xor3(w.delay))
  }

  lemma FreerChangesWord(s: State, st: Step, p: Page)
    requires Enabled(s, st) && IsFreerStep(st)
    ensures Apply(s, st).PageWord(p) == OnPair(s.PageWord(p), OpOf(s, st, p))
  {
    match st
    case FreePush(t, ok) => if !ok { FreerKeepsWords(s, t, ok); }
    case FreeEnter(t, ok) => if !ok { FreerKeepsWords(s, t, ok); }
    case DelayPush(t, ok) => FreerKeepsWords(s, t, ok);
    case Leave(t) =>
    case FreeLoad(t) => FreerKeepsWords(s, t, true);
    case FreeLink(t) => FreerKeepsWords(s, t, true);
    case DelayLoad(t) => FreerKeepsWords(s, t, true);
    case DelayLink(t) => FreerKeepsWords(s, t, true);
  }

  lemma TakeChangesWord(s: State, p: Page, q: Page, force: bool, k: Cont)
    ensures TakeThreadFree(s, q, force, k).PageWord(p)
            == if p == q then s.PageWord(p).(ptr := NULL) else s.PageWord(p)
  {
    if Hd(s.head, ThreadOf(q)) == NULL {
    }
  }

  lemma OwnerChangesWord(s: State, ok: bool, p: Page)
    requires Enabled(s, Run(ok))
    ensures ApplyOwner(s, ok).PageWord(p) == OnPair(s.PageWord(p), OpOf(s, Run(ok), p))
  {
    if s.owner.CollectTake? {
      TakeChangesWord(s, p, s.owner.p, s.owner.force, s.owner.then_);
    } else if s.owner.TryCas? && ok {
    } else {
      OwnerKeepsWords(s, ok);
    }
  }

  /** Every step changes a page's word by the operation it issues and by nothing else. */
  lemma StepChangesWord(s: State, st: Step, s': State, p: Page)
    requires Reachable(s) && StepsTo(s, st, s')
    ensures s'.PageWord(p) == OnPair(s.PageWord(p), OpOf(s, st, p))
  {
    ReachableInv(s);
    if st.Run? {
      OwnerChangesWord(s, st.ok, p);
    } else if IsFreerStep(st) {
      FreerChangesWord(s, st, p);
    } else {
      OtherKeepsWords(s, st);
    }
  }

  // ---- The same on packed words ----

  lemma AlignedWord(v: bv64)
    requires Val(v) % 8 == 0
    ensures Aligned(v)
  {
    UnpackArithmetic(v);
    ZeroVal(Code(Unpack(v).delay));
    DecodeCode(v);
  }

  /** The block a thread holds is aligned and lies within the blocks of its page. */
  lemma HeldBlock(s: State, t: Tid)
    requires Inv(s) && Holds(Fr(s.freers, t))
    ensures var f := Fr(s.freers, t);
            f.b % 8 == 0 && f.p in s.span && f.b < s.span[f.p].start + |s.span[f.p].blocks| * s.span[f.p].bsize
  {
    var f := Fr(s.freers, t);
    assert ThreadInv(s, t) && BlockInv(s, f.b) && RegularInv(s, f.p);
    var g := s.span[f.p];
    var i := IndexOf(g, f.b);
    Multiple8(g.start, i, g.bsize);
    BlockBounds(g, i);
  }

  lemma ZeroWord()
    ensures Unpack(0) == Word(NULL, UseDelayedFree)
  {
    assert (0 as bv64) & !3 == 0 && (0 as bv64) & 3 == 0;
  }
}
