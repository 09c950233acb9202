/**
 * The protocol on packed words.
 *
 * Each page has one 64-bit word, each thread keeps the 64-bit word it loaded, and every decision about a
 * page's word is made as the program makes it: a compare-exchange succeeds when the two words are equal,
 * and the state and the pointer are taken out of the word by bit operations.
 */
module PackedMachine {
  import opened Chains
  import opened MachineWord
  import opened WordBits
  import opened PackedWord
  import opened Protocol
  import opened ProtocolPacked

  /** `s` holds what the packed words do not.  The pairs it has for page words, in `head`, `bits` and the
      program counters, are written from packed words and never read. */
  datatype Packed = Packed(s: State, words: map<Page, bv64>, seen: map<Tid, bv64>, ownerSeen: bv64)

  function At64(words: map<Page, bv64>, p: Page): bv64 { if p in words then words[p] else 0 }
  function Seen(seen: map<Tid, bv64>, t: Tid): bv64 { if t in seen then seen[t] else 0 }

  /** What `fetch_xor(3)` and `fetch_and(3)` leave in a word. */
  function Xored(v: bv64): bv64 { v ^ 3 }
  function Anded(v: bv64): bv64 { v & 3 }

  /** The pointer to a block as a machine word. */
  ghost function Pointer(b: Addr): bv64 { if Fits(b) then WordOf(b) else 0 }

  /** All blocks of the page have 64-bit addresses. */
  ghost predicate Addressable(g: Span) { g.start + |g.blocks| * g.bsize <= Pow2(64) }

  ghost predicate PackedEnabled(m: Packed, st: Step) {
    match st
    case FreePush(t, ok) =>
      && Fr(m.s.freers, t).Pushing?
      && (ok ==> At64(m.words, Fr(m.s.freers, t).p) == Seen(m.seen, t))
    case FreeEnter(t, ok) =>
      && Fr(m.s.freers, t).Entering?
      && (ok ==> At64(m.words, Fr(m.s.freers, t).p) == Seen(m.seen, t))
    case Run(ok) =>
      if m.s.owner.TryCas? then ok ==> At64(m.words, m.s.owner.p) == m.ownerSeen else Enabled(m.s, st)
    case Enable(p, g) => Enabled(m.s, st) && Addressable(g)
    case _ => Enabled(m.s, st)
  }

  ghost function PackedFreer(m: Packed, t: Tid, ok: bool): Packed {
    var seen := Seen(m.seen, t);
    match Fr(m.s.freers, t)
    case Loading(b, p) =>
      var v := At64(m.words, p);
      var next := if GetDelay(v) == 0 then Entering(b, p, Unpack(v)) else Linking(b, p, Unpack(v));
      m.(s := SetFreer(m.s, t, next), seen := m.seen[t := v])
    case Linking(b, p, _) =>
      m.(s := SetFreer(m.s.(mem := m.s.mem[b := Val(GetPtr(seen))]), t, Pushing(b, p, Unpack(seen))))
    case Pushing(b, p, _) =>
      if ok then
        m.(s := SetFreer(PushOn(m.s, ThreadOf(p), b), t, Idle), words := m.words[p := SetPtr(seen, Pointer(b))])
      else m.(s := SetFreer(m.s, t, Loading(b, p)))
    case Entering(b, p, _) =>
      if ok then
        var v := SetFreeing(seen);
        var s := m.s.(bits := m.s.bits[p := Unpack(v).delay], rep := m.s.rep[p := b], window := m.s.window[p := t]);
        m.(s := SetFreer(s, t, DelayLoading(b, p)), words := m.words[p := v])
      else m.(s := SetFreer(m.s, t, Loading(b, p)))
    case Leaving(p) =>
      var v := Xored(At64(m.words, p));
      m.(s := SetFreer(m.s.(bits := m.s.bits[p := Unpack(v).delay]), t, Idle), words := m.words[p := v])
    case _ => m.(s := ApplyFreer(m.s, t, ok))
  }

  /** The head of the list in the word of `p`, which is taken out whole. */
  ghost function PackedTake(s: State, p: Page, v: bv64, force: bool, k: Cont): State {
    if GetPtr(v) == 0 then s.(owner := CollectMove(p, force, k))
    else TakeAll(s.(head := s.head[ThreadOf(p) := Val(GetPtr(v))]), ThreadOf(p), Taken)
         .(owner := CollectAppend(p, force, k))
  }

  ghost function PackedTry(b: Addr, p: Page, v: bv64, spins: nat, allFreed: bool): Owner {
    if GetDelay(v) == 1 then (if spins >= 4 then PutLoad(b) else TryLoad(b, p, spins + 1, allFreed))
    else if GetDelay(v) == 2 then TryCas(b, p, Unpack(v), spins, allFreed)
    else CollectLoad(p, false, FreeDelayed(b, allFreed))
  }

  ghost function PackedOwner(m: Packed, ok: bool): Packed {
    match m.s.owner
    case CollectLoad(p, force, k) =>
      m.(s := m.s.(owner := if force || At64(m.words, p) != 0 then CollectTake(p, force, k)
                            else CollectMove(p, force, k)))
    case CollectTake(p, force, k) =>
      var v := At64(m.words, p);
      m.(s := PackedTake(m.s, p, v, force, k), words := m.words[p := Anded(v)])
    case TryLoad(b, p, spins, allFreed) =>
      var v := At64(m.words, p);
      m.(s := m.s.(owner := PackedTry(b, p, v, spins, allFreed)), ownerSeen := v)
    case TryCas(b, p, _, spins, allFreed) =>
      if ok then
        var v := SetDelay(m.ownerSeen, 0);
        m.(s := m.s.(bits := m.s.bits[p := Unpack(v).delay], owner := CollectLoad(p, false, FreeDelayed(b, allFreed))),
           words := m.words[p := v])
      else m.(s := m.s.(owner := TryLoad(b, p, spins, allFreed)))
    case RetireCheck(p, resume) =>
      if GetDelay(At64(m.words, p)) == 1 then m
      else m.(s := m.s.(span := m.s.span - {p}, owner := resume))
    case _ => m.(s := ApplyOwner(m.s, ok))
  }

  ghost function PackedApply(m: Packed, st: Step): Packed {
    match st
    case FreeLoad(t) => PackedFreer(m, t, true)
    case FreeLink(t) => PackedFreer(m, t, true)
    case FreePush(t, ok) => PackedFreer(m, t, ok)
    case FreeEnter(t, ok) => PackedFreer(m, t, ok)
    case Leave(t) => PackedFreer(m, t, true)
    case Run(ok) => PackedOwner(m, ok)
    case Enable(p, g) => m.(s := Apply(m.s, st), words := m.words[p := 0])
    case _ => m.(s := Apply(m.s, st))
  }

  // ---- What the packed words stand for ----

  ghost predicate WordsMatch(m: Packed) { forall p :: Unpack(At64(m.words, p)) == m.s.PageWord(p) }

  /** What a thread loaded, where it still needs it. */
  ghost predicate SeenMatches(f: Freer, v: bv64) {
    f.Linking? || f.Pushing? || f.Entering? ==> Unpack(v) == f.w
  }

  ghost predicate AllSeenMatch(m: Packed) { forall t :: SeenMatches(Fr(m.s.freers, t), Seen(m.seen, t)) }

  ghost predicate OwnerSeenMatches(m: Packed) { m.s.owner.TryCas? ==> Unpack(m.ownerSeen) == m.s.owner.w }

  ghost predicate SpansAddressable(s: State) { forall p: Page :: p in s.span ==> Addressable(s.span[p]) }

  ghost predicate Coupled(m: Packed) {
    WordsMatch(m) && AllSeenMatch(m) && OwnerSeenMatches(m) && SpansAddressable(m.s)
  }

  // ---- The packed machine takes the steps of the protocol ----

  lemma CodeZero(v: bv64)
    ensures GetDelay(v) == 0 <==> Unpack(v).delay.UseDelayedFree?
    ensures GetDelay(v) == 1 <==> Unpack(v).delay.Freeing?
    ensures GetDelay(v) == 2 <==> Unpack(v).delay.NoDelayedFree?
  {
    GetDelayIs(v);
  }

  lemma PtrZero(v: bv64)
    ensures GetPtr(v) == 0 <==> Unpack(v).ptr == NULL
  {
    GetPtrIs(v);
    ZeroVal(GetPtr(v));
  }

  lemma WordZero(v: bv64)
    ensures v == 0 <==> Unpack(v) == Word(NULL, UseDelayedFree)
  {
    ZeroWord();
    UnpackInjective(v, 0);
  }

  /** A packed compare-exchange succeeds exactly when the one on pairs does. */
  lemma EnabledIff(m: Packed, st: Step)
    requires Coupled(m) && (st.Enable? ==> Addressable(st.g))
    ensures PackedEnabled(m, st) <==> Enabled(m.s, st)
  {
    if st.FreePush? || st.FreeEnter? {
      FreerCasIff(m, st.t);
    } else if st.Run? && m.s.owner.TryCas? {
      UnpackInjective(At64(m.words, m.s.owner.p), m.ownerSeen);
    } else {
      OtherEnabledIff(m, st);
    }
  }

  lemma OtherEnabledIff(m: Packed, st: Step)
    requires !st.FreePush? && !st.FreeEnter? && !(st.Run? && m.s.owner.TryCas?)
    requires st.Enable? ==> Addressable(st.g)
    ensures PackedEnabled(m, st) <==> Enabled(m.s, st)
  {
    StepCases(st);
  }

  lemma FreerCasIff(m: Packed, t: Tid)
    requires WordsMatch(m) && SeenMatches(Fr(m.s.freers, t), Seen(m.seen, t))
    ensures var f := Fr(m.s.freers, t);
            f.Pushing? || f.Entering? ==> (At64(m.words, f.p) == Seen(m.seen, t) <==> m.s.PageWord(f.p) == f.w)
  {
    var f := Fr(m.s.freers, t);
    if f.Pushing? || f.Entering? {
      assert Unpack(At64(m.words, f.p)) == m.s.PageWord(f.p);
      UnpackInjective(At64(m.words, f.p), Seen(m.seen, t));
    }
  }

  // A freeing thread, one program counter at a time.

  lemma LoadTakes(m: Packed, t: Tid, ok: bool)
    requires Fr(m.s.freers, t).Loading?
    requires Unpack(At64(m.words, Fr(m.s.freers, t).p)) == m.s.PageWord(Fr(m.s.freers, t).p)
    ensures PackedFreer(m, t, ok).s == ApplyFreer(m.s, t, ok)
  {
    CodeZero(At64(m.words, Fr(m.s.freers, t).p));
  }

  lemma LinkTakes(m: Packed, t: Tid, ok: bool)
    requires Fr(m.s.freers, t).Linking? && Unpack(Seen(m.seen, t)) == Fr(m.s.freers, t).w
    ensures PackedFreer(m, t, ok).s == ApplyFreer(m.s, t, ok)
  {
    GetPtrIs(Seen(m.seen, t));
  }

  lemma EnterTakes(m: Packed, t: Tid, ok: bool)
    requires Fr(m.s.freers, t).Entering?
    ensures PackedFreer(m, t, ok).s == ApplyFreer(m.s, t, ok)
  {
    SetFreeingIs(Seen(m.seen, t));
  }

  lemma LeaveTakes(m: Packed, t: Tid, ok: bool)
    requires Fr(m.s.freers, t).Leaving?
    requires Unpack(At64(m.words, Fr(m.s.freers, t).p)) == m.s.PageWord(Fr(m.s.freers, t).p)
    ensures PackedFreer(m, t, ok).s == ApplyFreer(m.s, t, ok)
  {
    XorThreeIs(At64(m.words, Fr(m.s.freers, t).p));
  }

  lemma PushTakes(m: Packed, t: Tid, ok: bool)
    requires Fr(m.s.freers, t).Pushing?
    ensures PackedFreer(m, t, ok).s == ApplyFreer(m.s, t, ok)
  {
  }

  lemma FreerTakes(m: Packed, t: Tid, ok: bool)
    requires WordsMatch(m) && SeenMatches(Fr(m.s.freers, t), Seen(m.seen, t))
    ensures PackedFreer(m, t, ok).s == ApplyFreer(m.s, t, ok)
  {
    var f := Fr(m.s.freers, t);
    if f.Loading? {
      LoadTakes(m, t, ok);
    } else if f.Linking? {
      LinkTakes(m, t, ok);
    } else if f.Pushing? {
      PushTakes(m, t, ok);
    } else if f.Entering? {
      EnterTakes(m, t, ok);
    } else if f.Leaving? {
      LeaveTakes(m, t, ok);
    }
  }

  // The owner, one program counter at a time.

  lemma TakeTakes(s: State, p: Page, v: bv64, force: bool, k: Cont)
    requires Unpack(v) == s.PageWord(p)
    ensures PackedTake(s, p, v, force, k) == TakeThreadFree(s, p, force, k)
  {
    PtrZero(v);
    GetPtrIs(v);
    TakeSame(s, s.(head := s.head[ThreadOf(p) := Hd(s.head, ThreadOf(p))]), ThreadOf(p));
  }

  lemma TakeSame(s: State, s1: State, src: ListId)
    requires s1 == s.(head := s.head[src := Hd(s.head, src)]) && src != Taken
    ensures TakeAll(s1, src, Taken) == TakeAll(s, src, Taken)
  {
    assert s1.head[src := NULL] == s.head[src := NULL];
  }

  lemma CollectTakes(m: Packed, ok: bool)
    requires m.s.owner.CollectLoad? || m.s.owner.CollectTake?
    requires Unpack(At64(m.words, m.s.owner.p)) == m.s.PageWord(m.s.owner.p)
    ensures PackedOwner(m, ok).s == ApplyOwner(m.s, ok)
  {
    var o, v := m.s.owner, At64(m.words, m.s.owner.p);
    if o.CollectLoad? {
      WordZero(v);
    } else {
      TakeTakes(m.s, o.p, v, o.force, o.then_);
    }
  }

  lemma TryTakes(b: Addr, p: Page, v: bv64, w: Word, spins: nat, allFreed: bool)
    requires Unpack(v) == w
    ensures PackedTry(b, p, v, spins, allFreed) == TryNext(b, p, w, spins, allFreed)
  {
    CodeZero(v);
  }

  lemma TryLoadTakes(m: Packed, ok: bool)
    requires m.s.owner.TryLoad? && Unpack(At64(m.words, m.s.owner.p)) == m.s.PageWord(m.s.owner.p)
    ensures PackedOwner(m, ok).s == ApplyOwner(m.s, ok)
  {
    var o := m.s.owner;
    TryTakes(o.b, o.p, At64(m.words, o.p), m.s.PageWord(o.p), o.spins, o.allFreed);
  }

  lemma TryCasTakes(m: Packed, ok: bool)
    requires m.s.owner.TryCas?
    ensures PackedOwner(m, ok).s == ApplyOwner(m.s, ok)
  {
    SetDelayIs(m.ownerSeen, UseDelayedFree);
  }

  lemma RetireTakes(m: Packed, ok: bool)
    requires m.s.owner.RetireCheck? && Unpack(At64(m.words, m.s.owner.p)) == m.s.PageWord(m.s.owner.p)
    ensures PackedOwner(m, ok).s == ApplyOwner(m.s, ok)
  {
    CodeZero(At64(m.words, m.s.owner.p));
  }

  lemma OtherTakes(m: Packed, ok: bool)
    requires !m.s.owner.CollectLoad? && !m.s.owner.CollectTake? && !m.s.owner.TryLoad? && !m.s.owner.TryCas?
    requires !m.s.owner.RetireCheck?
    ensures PackedOwner(m, ok) == m.(s := ApplyOwner(m.s, ok))
  {
  }

  lemma OwnerTakes(m: Packed, ok: bool)
    requires WordsMatch(m)
    ensures PackedOwner(m, ok).s == ApplyOwner(m.s, ok)
  {
    var o := m.s.owner;
    if o.CollectLoad? || o.CollectTake? {
      CollectTakes(m, ok);
    } else if o.TryLoad? {
      TryLoadTakes(m, ok);
    } else if o.TryCas? {
      TryCasTakes(m, ok);
    } else if o.RetireCheck? {
      RetireTakes(m, ok);
    } else {
      OtherTakes(m, ok);
    }
  }

  /** The steps that load, compare or change the word of a page. */
  ghost predicate OnWords(st: Step) {
    st.FreeLoad? || st.FreeLink? || st.FreePush? || st.FreeEnter? || st.Leave?
  }

  lemma FreerStepIs(m: Packed, st: Step)
    requires OnWords(st)
    ensures var ok := if st.FreePush? || st.FreeEnter? then st.ok else true;
            PackedApply(m, st) == PackedFreer(m, st.t, ok) && Apply(m.s, st) == ApplyFreer(m.s, st.t, ok)
  {
  }

  lemma OtherStepIs(m: Packed, st: Step)
    requires !OnWords(st) && !st.Run?
    ensures PackedApply(m, st) == m.(s := Apply(m.s, st), words := PackedApply(m, st).words)
    ensures PackedApply(m, st).words == if st.Enable? then m.words[st.p := 0] else m.words
  {
    StepCases(st);
  }

  lemma StepTakes(m: Packed, st: Step)
    requires Coupled(m)
    ensures PackedApply(m, st).s == Apply(m.s, st)
  {
    if OnWords(st) {
      assert SeenMatches(Fr(m.s.freers, st.t), Seen(m.seen, st.t));
      FreerStepIs(m, st);
      FreerTakes(m, st.t, if st.FreePush? || st.FreeEnter? then st.ok else true);
    } else if st.Run? {
      OwnerTakes(m, st.ok);
    } else {
      OtherStepIs(m, st);
    }
  }
}
