/**
 * Runs on packed words are the runs of the protocol: every step of the one is the step of the same name of
 * the other, and the packed words go on standing for the pairs.
 */
module PackedRuns {
  import opened Chains
  import opened MachineWord
  import opened WordBits
  import opened PackedWord
  import opened Protocol
  import opened ProtocolInv
  import opened ProtocolRuns
  import opened ProtocolPages
  import opened ProtocolProgress
  import opened ProtocolSpans
  import opened ProtocolPacked
  import opened PackedMachine

  // ---- The packed words go on standing for the pairs ----

  lemma PointerIs(s: State, t: Tid)
    requires Inv(s) && SpansAddressable(s) && Holds(Fr(s.freers, t))
    ensures Val(Pointer(Fr(s.freers, t).b)) == Fr(s.freers, t).b && Aligned(Pointer(Fr(s.freers, t).b))
  {
    HeldBlock(s, t);
    FitsIff(Fr(s.freers, t).b);
    AlignedWord(Pointer(Fr(s.freers, t).b));
  }

  /** The packed word of page `q` after a step is what the step makes of the pair it stood for. */
  ghost predicate WordFollows(m: Packed, words: map<Page, bv64>, st: Step, q: Page) {
    Unpack(At64(words, q)) == OnPair(m.s.PageWord(q), OpOf(m.s, st, q))
  }

  lemma Updated(m: Packed, words: map<Page, bv64>, p: Page, v: bv64, op: WordOp, st: Step, q: Page)
    requires Unpack(At64(m.words, q)) == m.s.PageWord(q)
    requires words == m.words[p := v] && OpOf(m.s, st, q) == if q == p then op else Keep
    requires Unpack(v) == OnPair(m.s.PageWord(p), op)
    ensures WordFollows(m, words, st, q)
  {
  }

  lemma PushBits(m: Packed, t: Tid, q: Page)
    requires Fr(m.s.freers, t).Pushing?
    ensures var f := Fr(m.s.freers, t);
            && PackedFreer(m, t, true).words == m.words[f.p := SetPtr(Seen(m.seen, t), Pointer(f.b))]
            && OpOf(m.s, FreePush(t, true), q) == if q == f.p then Push(f.b) else Keep
  {
  }

  lemma PushOp(v: bv64, ptr: bv64, w: Word, b: Addr)
    requires Unpack(v) == w && Val(ptr) == b && Aligned(ptr)
    ensures Unpack(SetPtr(v, ptr)) == OnPair(w, Push(b))
  {
    SetPtrIs(v, ptr);
  }

  lemma PushWord(m: Packed, t: Tid, q: Page)
    requires WordsMatch(m) && PackedEnabled(m, FreePush(t, true))
    requires var b := Fr(m.s.freers, t).b; Val(Pointer(b)) == b && Aligned(Pointer(b))
    ensures WordFollows(m, PackedFreer(m, t, true).words, FreePush(t, true), q)
  {
    var f, v := Fr(m.s.freers, t), Seen(m.seen, t);
    PushBits(m, t, q);
    PushOp(v, Pointer(f.b), m.s.PageWord(f.p), f.b);
    Updated(m, PackedFreer(m, t, true).words, f.p, SetPtr(v, Pointer(f.b)), Push(f.b), FreePush(t, true), q);
  }

  lemma EnterBits(m: Packed, t: Tid, q: Page)
    requires Fr(m.s.freers, t).Entering?
    ensures var f := Fr(m.s.freers, t);
            && PackedFreer(m, t, true).words == m.words[f.p := SetFreeing(Seen(m.seen, t))]
            && OpOf(m.s, FreeEnter(t, true), q) == if q == f.p then EnterFreeing else Keep
  {
  }

  lemma EnterOp(v: bv64, w: Word)
    requires Unpack(v) == w
    ensures Unpack(SetFreeing(v)) == OnPair(w, EnterFreeing)
  {
    SetFreeingIs(v);
  }

  lemma EnterWord(m: Packed, t: Tid, q: Page)
    requires WordsMatch(m) && PackedEnabled(m, FreeEnter(t, true))
    ensures WordFollows(m, PackedFreer(m, t, true).words, FreeEnter(t, true), q)
  {
    var f, v := Fr(m.s.freers, t), Seen(m.seen, t);
    EnterBits(m, t, q);
    EnterOp(v, m.s.PageWord(f.p));
    Updated(m, PackedFreer(m, t, true).words, f.p, SetFreeing(v), EnterFreeing, FreeEnter(t, true), q);
  }

  lemma LeaveBits(m: Packed, t: Tid, q: Page)
    requires Fr(m.s.freers, t).Leaving?
    ensures var f := Fr(m.s.freers, t);
            && PackedFreer(m, t, true).words == m.words[f.p := Xored(At64(m.words, f.p))]
            && OpOf(m.s, Leave(t), q) == if q == f.p then ExitFreeing else Keep
  {
    LeavingBits(m, t, Fr(m.s.freers, t).p);
  }

  lemma LeavingBits(m: Packed, t: Tid, p: Page)
    requires Fr(m.s.freers, t) == Leaving(p)
    ensures PackedFreer(m, t, true).words == m.words[p := Xored(At64(m.words, p))]
  {
  }

  lemma LeaveOp(v: bv64, w: Word)
    requires Unpack(v) == w
    ensures Unpack(Xored(v)) == OnPair(w, ExitFreeing)
  {
    XorThreeIs(v);
  }

  lemma LeaveWord(m: Packed, t: Tid, q: Page)
    requires WordsMatch(m) && Fr(m.s.freers, t).Leaving?
    ensures WordFollows(m, PackedFreer(m, t, true).words, Leave(t), q)
  {
    var f := Fr(m.s.freers, t);
    var v := At64(m.words, f.p);
    LeaveBits(m, t, q);
    LeaveOp(v, m.s.PageWord(f.p));
    Updated(m, PackedFreer(m, t, true).words, f.p, Xored(v), ExitFreeing, Leave(t), q);
  }

  lemma FreerKeepsBits(m: Packed, t: Tid, ok: bool)
    requires var f := Fr(m.s.freers, t); !f.Leaving? && (ok ==> !f.Pushing? && !f.Entering?)
    ensures PackedFreer(m, t, ok).words == m.words
  {
    FreerCases(Fr(m.s.freers, t));
  }

  lemma FreerWord(m: Packed, st: Step, q: Page)
    requires Coupled(m) && Inv(m.s) && PackedEnabled(m, st) && OnWords(st)
    ensures WordFollows(m, PackedApply(m, st).words, st, q)
  {
    assert Unpack(At64(m.words, q)) == m.s.PageWord(q);
    if st == FreePush(st.t, true) {
      PointerIs(m.s, st.t);
      PushWord(m, st.t, q);
    } else if st == FreeEnter(st.t, true) {
      EnterWord(m, st.t, q);
    } else if st.Leave? {
      LeaveWord(m, st.t, q);
    } else {
      FreerKeepsBits(m, st.t, if st.FreePush? || st.FreeEnter? then false else true);
    }
  }

  lemma TakeBits(m: Packed, ok: bool, q: Page)
    requires m.s.owner.CollectTake?
    ensures PackedOwner(m, ok).words == m.words[m.s.owner.p := Anded(At64(m.words, m.s.owner.p))]
    ensures OpOf(m.s, Run(ok), q) == if q == m.s.owner.p then Take else Keep
  {
  }

  lemma TakeOp(v: bv64, w: Word)
    requires Unpack(v) == w
    ensures Unpack(Anded(v)) == OnPair(w, Take)
  {
    AndThreeIs(v);
  }

  lemma TakeWord(m: Packed, ok: bool, q: Page)
    requires WordsMatch(m) && m.s.owner.CollectTake?
    ensures WordFollows(m, PackedOwner(m, ok).words, Run(ok), q)
  {
    var p := m.s.owner.p;
    var v := At64(m.words, p);
    TakeBits(m, ok, q);
    TakeOp(v, m.s.PageWord(p));
    Updated(m, PackedOwner(m, ok).words, p, Anded(v), Take, Run(ok), q);
  }

  lemma UseBits(m: Packed, q: Page)
    requires m.s.owner.TryCas?
    ensures PackedOwner(m, true).words == m.words[m.s.owner.p := SetDelay(m.ownerSeen, 0)]
    ensures OpOf(m.s, Run(true), q) == if q == m.s.owner.p then UseAgain else Keep
  {
  }

  lemma UseOp(v: bv64, w: Word)
    requires Unpack(v) == w
    ensures Unpack(SetDelay(v, 0)) == OnPair(w, UseAgain)
  {
    SetDelayIs(v, UseDelayedFree);
  }

  lemma UseWord(m: Packed, q: Page)
    requires WordsMatch(m) && m.s.owner.TryCas? && PackedEnabled(m, Run(true))
    ensures WordFollows(m, PackedOwner(m, true).words, Run(true), q)
  {
    var p := m.s.owner.p;
    UseBits(m, q);
    UseOp(m.ownerSeen, m.s.PageWord(p));
    Updated(m, PackedOwner(m, true).words, p, SetDelay(m.ownerSeen, 0), UseAgain, Run(true), q);
  }

  lemma OwnerKeepsBits(m: Packed, ok: bool)
    requires !m.s.owner.CollectTake? && (ok ==> !m.s.owner.TryCas?)
    ensures PackedOwner(m, ok).words == m.words
  {
    OwnerCases(m.s.owner);
  }

  lemma OwnerWord(m: Packed, ok: bool, q: Page)
    requires WordsMatch(m) && PackedEnabled(m, Run(ok))
    ensures WordFollows(m, PackedOwner(m, ok).words, Run(ok), q)
  {
    if m.s.owner.CollectTake? {
      TakeWord(m, ok, q);
    } else if m.s.owner.TryCas? && ok {
      UseWord(m, q);
    } else {
      OwnerKeepsBits(m, ok);
    }
  }

  /** A page that is not set up has the word 0. */
  lemma FreshWord(s: State, p: Page)
    requires Inv(s) && p !in s.span
    ensures Unpack(0) == s.PageWord(p)
  {
    NoBlocks(s, p);
    HeadNull(s, ThreadOf(p));
    ZeroWord();
  }

  lemma StepWord(m: Packed, st: Step, q: Page)
    requires Coupled(m) && Inv(m.s) && PackedEnabled(m, st)
    ensures WordFollows(m, PackedApply(m, st).words, st, q)
  {
    if OnWords(st) {
      FreerWord(m, st, q);
    } else if st.Run? {
      OwnerWord(m, st.ok, q);
    } else {
      OtherStepIs(m, st);
      if st.Enable? { FreshWord(m.s, st.p); }
    }
  }

  lemma WordsFollow(m: Packed, st: Step, m': Packed)
    requires Coupled(m) && Reachable(m.s) && PackedEnabled(m, st) && StepsTo(m.s, st, m'.s)
    requires m'.words == PackedApply(m, st).words
    ensures WordsMatch(m')
  {
    ReachableInv(m.s);
    forall q ensures Unpack(At64(m'.words, q)) == m'.s.PageWord(q) {
      StepWord(m, st, q);
      StepChangesWord(m.s, st, m'.s, q);
    }
  }

  // ---- What threads loaded ----

  /** Only the stepping thread moves, and loads the word it then holds. */
  lemma FreerSeen(m: Packed, t: Tid, ok: bool)
    requires SeenMatches(Fr(m.s.freers, t), Seen(m.seen, t))
    ensures var m' := PackedFreer(m, t, ok); SeenMatches(Fr(m'.s.freers, t), Seen(m'.seen, t))
  {
    if Fr(m.s.freers, t).Loading? {
      LoadSeen(m, t, ok);
    } else if Fr(m.s.freers, t).Linking? {
      LinkSeen(m, t, ok);
    } else {
      NothingSeen(m, t, ok);
    }
  }

  lemma LoadSeen(m: Packed, t: Tid, ok: bool)
    requires Fr(m.s.freers, t).Loading?
    ensures var m' := PackedFreer(m, t, ok); SeenMatches(Fr(m'.s.freers, t), Seen(m'.seen, t))
  {
  }

  lemma LinkSeen(m: Packed, t: Tid, ok: bool)
    requires Fr(m.s.freers, t).Linking?
    ensures var m' := PackedFreer(m, t, ok); SeenMatches(Fr(m'.s.freers, t), Seen(m'.seen, t))
  {
  }

  lemma NothingSeen(m: Packed, t: Tid, ok: bool)
    requires !Fr(m.s.freers, t).Loading? && !Fr(m.s.freers, t).Linking?
    ensures var m' := PackedFreer(m, t, ok); SeenMatches(Fr(m'.s.freers, t), Seen(m'.seen, t))
  {
    NothingHeld(m, t, ok, Fr(PackedFreer(m, t, ok).s.freers, t));
  }

  lemma NothingHeld(m: Packed, t: Tid, ok: bool, f: Freer)
    requires !Fr(m.s.freers, t).Loading? && !Fr(m.s.freers, t).Linking?
    requires f == Fr(PackedFreer(m, t, ok).s.freers, t)
    ensures !f.Linking? && !f.Pushing? && !f.Entering?
  {
    FreerCases(Fr(m.s.freers, t));
  }

  lemma OthersSeen(m: Packed, t: Tid, ok: bool, u: Tid)
    requires u != t
    ensures var m' := PackedFreer(m, t, ok);
            Fr(m'.s.freers, u) == Fr(m.s.freers, u) && Seen(m'.seen, u) == Seen(m.seen, u)
  {
    FreerCases(Fr(m.s.freers, t));
  }

  lemma OwnerKeepsSeen(m: Packed, ok: bool)
    ensures PackedOwner(m, ok).seen == m.seen
  {
    OwnerCases(m.s.owner);
  }

  /** The program counter of thread `u` is the same, or needs no loaded word. */
  ghost predicate NoneNeeded(s: State, s': State, u: Tid) {
    var f := Fr(s'.freers, u);
    f == Fr(s.freers, u) || !(f.Linking? || f.Pushing? || f.Entering?)
  }

  lemma DelaySeen(s: State, t: Tid, ok: bool, u: Tid)
    requires HoldsInWindow(Fr(s.freers, t))
    ensures NoneNeeded(s, ApplyFreer(s, t, ok), u)
  {
    DelayMoves(s, t, ok, Fr(ApplyFreer(s, t, ok).freers, t));
  }

  lemma DelayMoves(s: State, t: Tid, ok: bool, f: Freer)
    requires HoldsInWindow(Fr(s.freers, t)) && f == Fr(ApplyFreer(s, t, ok).freers, t)
    ensures ApplyFreer(s, t, ok).freers == s.freers[t := f] && InWindow(f)
  {
    if Fr(s.freers, t).DelayPushing? {
      DelayPushMoves(s, t, ok, f);
    } else {
      DelayLoadMoves(s, t, ok, f);
    }
  }

  lemma DelayPushMoves(s: State, t: Tid, ok: bool, f: Freer)
    requires Fr(s.freers, t).DelayPushing? && f == Fr(ApplyFreer(s, t, ok).freers, t)
    ensures ApplyFreer(s, t, ok).freers == s.freers[t := f] && InWindow(f)
  {
    if ok {
    }
  }

  lemma DelayLoadMoves(s: State, t: Tid, ok: bool, f: Freer)
    requires Fr(s.freers, t).DelayLoading? || Fr(s.freers, t).DelayLinking?
    requires f == Fr(ApplyFreer(s, t, ok).freers, t)
    ensures ApplyFreer(s, t, ok).freers == s.freers[t := f] && InWindow(f)
  {
    if Fr(s.freers, t).DelayLoading? {
    }
  }

  lemma OtherSeen(s: State, st: Step, u: Tid)
    requires !OnWords(st) && !st.Run? && Enabled(s, st)
    ensures NoneNeeded(s, Apply(s, st), u)
  {
    match st
    case DelayLoad(t) => DelaySeen(s, t, true, u);
    case DelayLink(t) => DelaySeen(s, t, true, u);
    case DelayPush(t, ok) => DelaySeen(s, t, ok, u);
    case _ =>
  }

  lemma RunSeen(m: Packed, ok: bool, u: Tid)
    requires WordsMatch(m) && !m.s.owner.Ready?
    ensures var m' := PackedOwner(m, ok);
            Fr(m'.s.freers, u) == Fr(m.s.freers, u) && Seen(m'.seen, u) == Seen(m.seen, u)
  {
    OwnerTakes(m, ok);
    RunSpan(m.s, ok);
    OwnerKeepsSeen(m, ok);
  }

  lemma WordStepSeen(m: Packed, st: Step, u: Tid)
    requires AllSeenMatch(m) && OnWords(st)
    ensures var m' := PackedApply(m, st); SeenMatches(Fr(m'.s.freers, u), Seen(m'.seen, u))
  {
    var ok := if st.FreePush? || st.FreeEnter? then st.ok else true;
    assert SeenMatches(Fr(m.s.freers, u), Seen(m.seen, u));
    FreerStepIs(m, st);
    if u == st.t { FreerSeen(m, u, ok); } else { OthersSeen(m, st.t, ok, u); }
  }

  lemma StepSeen(m: Packed, st: Step, u: Tid)
    requires Coupled(m) && PackedEnabled(m, st)
    ensures var m' := PackedApply(m, st); SeenMatches(Fr(m'.s.freers, u), Seen(m'.seen, u))
  {
    assert SeenMatches(Fr(m.s.freers, u), Seen(m.seen, u));
    EnabledIff(m, st);
    if OnWords(st) {
      WordStepSeen(m, st, u);
    } else if st.Run? {
      RunSeen(m, st.ok, u);
    } else {
      OtherStepIs(m, st);
      OtherSeen(m.s, st, u);
    }
  }

  // ---- What the owner loaded ----

  lemma TrySeen(m: Packed, ok: bool)
    requires m.s.owner.TryLoad?
    ensures OwnerSeenMatches(PackedOwner(m, ok))
  {
  }

  /** Only a load brings the owner to its compare-exchange. */
  lemma RunOwner(s: State, ok: bool)
    requires OwnerInv(s) && !s.owner.Ready? && !s.owner.TryLoad?
    ensures !ApplyOwner(s, ok).owner.TryCas?
  {
    if s.owner.RetireCheck? {
      ReleaseOwner(s, ok);
    } else if FailedCas(s, Run(ok)) {
      FailedOwner(s);
    } else if Collecting(s.owner) {
      CollectTurn(s, ok);
    } else if s.owner.DrainNext? {
      DrainTurn(s, ok);
    } else if s.owner.DrainSwap? {
      SwapTurn(s, ok);
    } else {
      HandleOwner(s, ok);
    }
  }

  lemma ReleaseOwner(s: State, ok: bool)
    requires OwnerInv(s) && s.owner.RetireCheck?
    ensures !ApplyOwner(s, ok).owner.TryCas?
  {
    if Bits(s.bits, s.owner.p).Freeing? {
    }
  }

  lemma FailedOwner(s: State)
    requires s.owner.TryCas? || s.owner.PutCas?
    ensures !ApplyOwner(s, false).owner.TryCas?
  {
  }

  lemma HandleOwner(s: State, ok: bool)
    requires s.owner.TryCas? || Putting(s.owner) || s.owner.FreeIt?
    requires s.owner.TryCas? ==> ok
    ensures !ApplyOwner(s, ok).owner.TryCas?
  {
    if s.owner.TryCas? {
      UsedOwner(s);
    } else if s.owner.PutCas? {
      PutCasOwner(s, ok);
    } else if s.owner.FreeIt? {
      FreeItOwner(s, ok);
    } else {
      PutOwner(s, ok);
    }
  }

  lemma UsedOwner(s: State)
    requires s.owner.TryCas?
    ensures !ApplyOwner(s, true).owner.TryCas?
  {
  }

  lemma FreeItOwner(s: State, ok: bool)
    requires s.owner.FreeIt?
    ensures !ApplyOwner(s, ok).owner.TryCas?
  {
  }

  lemma PutOwner(s: State, ok: bool)
    requires s.owner.PutLoad? || s.owner.PutLink?
    ensures !ApplyOwner(s, ok).owner.TryCas?
  {
    if s.owner.PutLoad? {
    }
  }

  lemma PutCasOwner(s: State, ok: bool)
    requires s.owner.PutCas?
    ensures !ApplyOwner(s, ok).owner.TryCas?
  {
    if ok {
    }
  }

  lemma StartOwner(s: State, st: Step)
    requires Enabled(s, st) && !OfOthers(st) && !st.Run?
    ensures !Apply(s, st).owner.TryCas?
  {
    StepCases(st);
  }

  lemma OthersKeepOwner(m: Packed, st: Step)
    requires Coupled(m) && OfOthers(st)
    ensures PackedApply(m, st).s.owner == m.s.owner && PackedApply(m, st).ownerSeen == m.ownerSeen
  {
    OthersKeepDrain(m.s, st);
    StepTakes(m, st);
    OthersKeepSeen(m, st);
  }

  lemma OthersKeepSeen(m: Packed, st: Step)
    requires !st.Run?
    ensures PackedApply(m, st).ownerSeen == m.ownerSeen
  {
    if OnWords(st) {
      FreerStepIs(m, st);
      FreerCases(Fr(m.s.freers, st.t));
    } else {
      OtherStepIs(m, st);
    }
  }

  lemma StepOwnerSeen(m: Packed, st: Step)
    requires Coupled(m) && Inv(m.s) && PackedEnabled(m, st)
    ensures OwnerSeenMatches(PackedApply(m, st))
  {
    EnabledIff(m, st);
    if OfOthers(st) {
      OthersKeepOwner(m, st);
    } else if !st.Run? {
      StepTakes(m, st);
      StartOwner(m.s, st);
    } else if m.s.owner.TryLoad? {
      TrySeen(m, st.ok);
    } else {
      OwnerTakes(m, st.ok);
      RunOwner(m.s, st.ok);
    }
  }

  // ---- Steps and runs ----

  lemma SpansFollow(s: State, st: Step, s': State)
    requires SpansAddressable(s) && StepsTo(s, st, s') && (st.Enable? ==> Addressable(st.g))
    ensures SpansAddressable(s')
  {
    StepSpan(s, st, s');
  }

  /** Every packed step is the step of the protocol of the same name, and the packed words, those in memory and
      those the threads hold, go on standing for the pairs. */
  lemma PackedStep(m: Packed, st: Step, m': Packed)
    requires Coupled(m) && Reachable(m.s) && PackedEnabled(m, st) && m' == PackedApply(m, st)
    ensures StepsTo(m.s, st, m'.s) && Coupled(m')
  {
    ReachableInv(m.s);
    EnabledIff(m, st);
    StepTakes(m, st);
    WordsFollow(m, st, m');
    forall u ensures SeenMatches(Fr(m'.s.freers, u), Seen(m'.seen, u)) { StepSeen(m, st, u); }
    StepOwnerSeen(m, st);
    SpansFollow(m.s, st, m'.s);
  }

  // ---- Whole runs ----

  ghost predicate PackedInit(m: Packed) {
    Init(m.s) && m.words == map[] && m.seen == map[] && m.ownerSeen == 0
  }

  ghost predicate PackedStepsTo(m: Packed, st: Step, m': Packed) {
    PackedEnabled(m, st) && m' == PackedApply(m, st)
  }

  ghost predicate IsPackedRun(trace: seq<Packed>, steps: seq<Step>) {
    && |trace| == |steps| + 1
    && PackedInit(trace[0])
    && forall i :: 0 <= i < |steps| ==> PackedStepsTo(trace[i], steps[i], trace[i + 1])
  }

  /** The same run with pairs in the place of packed words. */
  ghost function Unpacked(trace: seq<Packed>): seq<State> {
    seq(|trace|, i requires 0 <= i < |trace| => trace[i].s)
  }

  lemma InitCoupled(m: Packed)
    requires PackedInit(m)
    ensures Coupled(m) && Reachable(m.s)
  {
    ZeroWord();
    var trace, steps: seq<Step> := [m.s], [];
    assert IsRun(trace, steps) && trace[|steps|] == m.s;
  }

  lemma PackedNext(trace: seq<Packed>, steps: seq<Step>, i: nat)
    requires IsPackedRun(trace, steps) && i < |steps| && Coupled(trace[i]) && Reachable(trace[i].s)
    ensures StepsTo(trace[i].s, steps[i], trace[i + 1].s) && Coupled(trace[i + 1]) && Reachable(trace[i + 1].s)
  {
    assert PackedStepsTo(trace[i], steps[i], trace[i + 1]);
    PackedStep(trace[i], steps[i], trace[i + 1]);
    ReachableStep(trace[i].s, steps[i], trace[i + 1].s);
  }

  lemma {:induction false} PackedPrefix(trace: seq<Packed>, steps: seq<Step>, i: nat)
    requires IsPackedRun(trace, steps) && i < |trace|
    ensures Coupled(trace[i]) && Reachable(trace[i].s)
  {
    if i == 0 {
      InitCoupled(trace[0]);
    } else {
      PackedPrefix(trace, steps, i - 1);
      PackedNext(trace, steps, i - 1);
    }
  }

  /** Every run on packed words is a run of the protocol, in every state of which the packed words, those of the
      pages and those the threads hold, stand for the pairs. */
  lemma PackedRun(trace: seq<Packed>, steps: seq<Step>)
    requires IsPackedRun(trace, steps)
    ensures IsRun(Unpacked(trace), steps)
    ensures forall i :: 0 <= i < |trace| ==> Coupled(trace[i])
  {
    forall i | 0 <= i < |trace| ensures Coupled(trace[i]) { PackedPrefix(trace, steps, i); }
    forall i | 0 <= i < |steps| ensures StepsTo(trace[i].s, steps[i], trace[i + 1].s) {
      PackedPrefix(trace, steps, i);
      PackedNext(trace, steps, i);
    }
  }

  /** All pages that a run sets up have 64-bit addresses. */
  ghost predicate AddressableSteps(steps: seq<Step>) {
    forall i :: 0 <= i < |steps| && steps[i].Enable? ==> Addressable(steps[i].g)
  }

  /** Conversely, packed words can carry out every run of the protocol whose pages have 64-bit addresses. */
  lemma {:induction false} PackedRunExists(trace: seq<State>, steps: seq<Step>)
    returns (packed: seq<Packed>)
    requires IsRun(trace, steps) && AddressableSteps(steps)
    ensures IsPackedRun(packed, steps) && Unpacked(packed) == trace
    decreases |steps|
  {
    if steps == [] {
      packed := [Packed(trace[0], map[], map[], 0)];
    } else {
      var n := |steps| - 1;
      var before := PackedRunExists(trace[..n + 1], steps[..n]);
      var m' := PackedApply(before[n], steps[n]);
      PackedPrefix(before, steps[..n], n);
      assert before[n].s == Unpacked(before)[n] == trace[n];
      PackedCan(before[n], steps[n], trace[n + 1]);
      packed := before + [m'];
      PackedLonger(before, steps[..n], m', steps[n], trace);
      assert steps[..n] + [steps[n]] == steps;
    }
  }

  lemma PackedCan(m: Packed, st: Step, s': State)
    requires Coupled(m) && StepsTo(m.s, st, s') && (st.Enable? ==> Addressable(st.g))
    ensures PackedStepsTo(m, st, PackedApply(m, st)) && PackedApply(m, st).s == s'
  {
    EnabledIff(m, st);
    StepTakes(m, st);
  }

  lemma PackedLonger(before: seq<Packed>, steps: seq<Step>, m: Packed, st: Step, trace: seq<State>)
    requires IsPackedRun(before, steps) && PackedStepsTo(before[|steps|], st, m)
    requires |trace| == |steps| + 2 && Unpacked(before) == trace[..|steps| + 1] && m.s == trace[|steps| + 1]
    ensures IsPackedRun(before + [m], steps + [st]) && Unpacked(before + [m]) == trace
  {
    var longer, all := before + [m], steps + [st];
    forall i | 0 <= i < |all| ensures PackedStepsTo(longer[i], all[i], longer[i + 1]) {
      if i < |steps| {
        assert PackedStepsTo(before[i], steps[i], before[i + 1]);
      }
    }
    forall i | 0 <= i < |trace| ensures longer[i].s == trace[i] {
      if i < |before| { assert Unpacked(before)[i] == trace[i]; }
    }
  }
}
