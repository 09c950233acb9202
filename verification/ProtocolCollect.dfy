/**
 * What `page_free_collect` does to the lists of its page while other threads go on freeing: over every run, from its
 * first load to its return, it is the collecting of `PageLists` applied to the `thread_free` list of one instant.
 */
module ProtocolCollect {
  import opened Chains
  import opened Protocol
  import opened ProtocolInv
  import opened ProtocolRuns
  import opened ProtocolTheorems
  import opened ProtocolPasses
  import opened ProtocolProgress
  import PageLists

  // ---- What the other threads can do to a list ----

  ghost predicate EndsWith(l: seq<Addr>, tail: seq<Addr>) {
    |tail| <= |l| && l[|l| - |tail|..] == tail
  }

  lemma EndsWithPush(l: seq<Addr>, tail: seq<Addr>, b: Addr)
    requires EndsWith(l, tail)
    ensures EndsWith([b] + l, tail)
  {
    assert ([b] + l)[|l| + 1 - |tail|..] == l[|l| - |tail|..];
  }

  lemma EndsWithTrans(x: seq<Addr>, y: seq<Addr>, z: seq<Addr>)
    requires EndsWith(x, y) && EndsWith(y, z)
    ensures EndsWith(x, z)
  {
    assert x[|x| - |z|..] == x[|x| - |y|..][|y| - |z|..];
  }

  /** A list only the owner works on. */
  ghost predicate OwnersOnly(id: ListId) { !id.ThreadOf? && id != Delayed }

  /** The other threads have at most put blocks in front of lists that are open to them. */
  ghost predicate Grown(s: State, s': State) {
    && s'.owner == s.owner && s'.used == s.used && s'.span == s.span
    && (forall id :: EndsWith(Lst(s'.list, id), Lst(s.list, id)))
    && (forall id :: OwnersOnly(id) ==> Lst(s'.list, id) == Lst(s.list, id))
  }

  lemma SameGrown(s: State, s': State)
    requires s'.owner == s.owner && s'.used == s.used && s'.span == s.span && s'.list == s.list
    ensures Grown(s, s')
  {
  }

  lemma PushGrown(s: State, s': State, id: ListId, b: Addr)
    requires s'.owner == s.owner && s'.used == s.used && s'.span == s.span && !OwnersOnly(id)
    requires s'.list == s.list[id := [b] + Lst(s.list, id)]
    ensures Grown(s, s')
  {
    EndsWithPush(Lst(s.list, id), Lst(s.list, id), b);
  }

  lemma FreerGrows(s: State, t: Tid, ok: bool)
    ensures Grown(s, ApplyFreer(s, t, ok))
  {
    var s' := ApplyFreer(s, t, ok);
    FreerCases(Fr(s.freers, t));
    if Fr(s.freers, t).Pushing? && ok {
      PushGrown(s, s', ThreadOf(Fr(s.freers, t).p), Fr(s.freers, t).b);
    } else if Fr(s.freers, t).DelayPushing? && ok {
      PushGrown(s, s', Delayed, Fr(s.freers, t).b);
    } else {
      FreerKeepsLists(s, t, ok);
      SameGrown(s, s');
    }
  }

  lemma FreerKeepsLists(s: State, t: Tid, ok: bool)
    requires Fr(s.freers, t).Pushing? || Fr(s.freers, t).DelayPushing? ==> !ok
    ensures var s' := ApplyFreer(s, t, ok);
            s'.owner == s.owner && s'.used == s.used && s'.span == s.span && s'.list == s.list
  {
    FreerCases(Fr(s.freers, t));
  }

  lemma OthersGrow(s: State, st: Step)
    requires OfOthers(st)
    ensures Grown(s, Apply(s, st))
  {
    if IsFreerStep(st) {
      var ok := if st.FreePush? || st.FreeEnter? || st.DelayPush? then st.ok else true;
      assert Apply(s, st) == ApplyFreer(s, st.t, ok);
      FreerGrows(s, st.t, ok);
    } else {
      assert Apply(s, st).list == s.list;
      SameGrown(s, Apply(s, st));
    }
  }

  // ---- One step of page_free_collect ----

  ghost predicate SameOperation(o: Owner, o': Owner) {
    Collecting(o) && Collecting(o') && o'.p == o.p && o'.force == o.force && o'.then_ == o.then_
  }

  /** Inside an operation, other than before taking the next delayed block, the owner has no other step. */
  lemma CollectStepCases(s: State, st: Step)
    requires Collecting(s.owner) && Enabled(s, st) && !OfOthers(st)
    ensures st.Run?
  {
    StepCases(st);
  }

  /** The first load either finds nothing to take, or sends the owner to take the list. */
  ghost predicate Loaded(s: State, s': State, p: Page) {
    && s' == s.(owner := s'.owner)
    && (s'.owner.CollectTake?
        || (s'.owner.CollectMove? && Lst(s.list, ThreadOf(p)) == [] && Hd(s.head, ThreadOf(p)) == NULL))
  }

  lemma LoadStep(s: State, p: Page, force: bool, k: Cont, ok: bool)
    requires ListsInv(s) && s.owner == CollectLoad(p, force, k)
    ensures Loaded(s, ApplyOwner(s, ok), p) && SameOperation(s.owner, ApplyOwner(s, ok).owner)
  {
    HeadNull(s, ThreadOf(p));
  }

  /** The `thread_free` list has been taken whole, if it had a block, and is empty. */
  ghost predicate TookList(s: State, s': State, p: Page) {
    && Hd(s'.head, ThreadOf(p)) == NULL && s'.used == s.used
    && Lst(s'.list, FreeOf(p)) == Lst(s.list, FreeOf(p)) && Lst(s'.list, LocalOf(p)) == Lst(s.list, LocalOf(p))
    && (|| (s'.owner.CollectAppend? && Lst(s'.list, Taken) == Lst(s.list, ThreadOf(p)))
        || (s'.owner.CollectMove? && Lst(s.list, ThreadOf(p)) == []))
  }

  lemma TakeStep(s: State, p: Page, force: bool, k: Cont)
    requires ListsInv(s) && s.owner == CollectTake(p, force, k)
    ensures var s' := TakeThreadFree(s, p, force, k); TookList(s, s', p) && SameOperation(s.owner, s'.owner)
  {
    HeadNull(s, ThreadOf(p));
    if Hd(s.head, ThreadOf(p)) != NULL { TakeAllLists(s, ThreadOf(p), Taken); }
  }

  lemma TakeAllLists(s: State, src: ListId, dst: ListId)
    requires src != dst
    ensures var s' := TakeAll(s, src, dst);
            && Hd(s'.head, src) == NULL && Hd(s'.head, dst) == Hd(s.head, src)
            && s'.used == s.used && s'.mem == s.mem && Lst(s'.list, src) == [] && Lst(s'.list, dst) == Lst(s.list, src)
            && (forall id :: id != src && id != dst ==> Lst(s'.list, id) == Lst(s.list, id))
  {
  }

  /** The list taken is in front of `local_free`, and has been counted back. */
  ghost predicate Appended(s: State, s': State, p: Page) {
    && s'.owner.CollectMove?
    && Used(s'.used, p) == Used(s.used, p) - |Lst(s.list, Taken)|
    && Lst(s'.list, LocalOf(p)) == Lst(s.list, Taken) + Lst(s.list, LocalOf(p))
    && Lst(s'.list, FreeOf(p)) == Lst(s.list, FreeOf(p))
  }

  lemma AppendStep(s: State, p: Page, force: bool, k: Cont, ok: bool)
    requires OwnerInv(s) && s.owner == CollectAppend(p, force, k)
    ensures Appended(s, ApplyOwner(s, ok), p) && SameOperation(s.owner, ApplyOwner(s, ok).owner)
  {
  }

  /** The owner is done with the lists of the page. */
  ghost predicate MovedOn(s: State, s': State, p: Page, force: bool, k: Cont) {
    && s'.owner == Resume(p, k) && s'.used == s.used
    && (Lst(s'.list, FreeOf(p)), Lst(s'.list, LocalOf(p)))
       == PageLists.Collected(Lst(s.list, FreeOf(p)), Lst(s.list, LocalOf(p)), [], force)
  }

  lemma TakeIs(s: State, ok: bool)
    requires s.owner.CollectTake?
    ensures ApplyOwner(s, ok) == TakeThreadFree(s, s.owner.p, s.owner.force, s.owner.then_)
  {
  }

  lemma MoveOwnerIs(s: State, ok: bool)
    requires s.owner.CollectMove?
    ensures var o := s.owner;
            ApplyOwner(s, ok) == MoveLocalFree(s, o.p, o.force).(owner := Resume(o.p, o.then_))
  {
  }

  lemma MoveStep(s: State, s': State, p: Page, force: bool, k: Cont)
    requires ListsInv(s) && s' == MoveLocalFree(s, p, force).(owner := Resume(p, k))
    ensures MovedOn(s, s', p, force, k)
  {
    HeadNull(s, FreeOf(p));
    HeadNull(s, LocalOf(p));
    MoveIs(s, p, force);
    MoveCollects(s, s', p, force);
  }

  lemma MoveCollects(s: State, s': State, p: Page, force: bool)
    requires MoveResult(Lst(s.list, FreeOf(p)), Lst(s.list, LocalOf(p)), force,
                        Lst(s'.list, FreeOf(p)), Lst(s'.list, LocalOf(p)))
    ensures (Lst(s'.list, FreeOf(p)), Lst(s'.list, LocalOf(p)))
            == PageLists.Collected(Lst(s.list, FreeOf(p)), Lst(s.list, LocalOf(p)), [], force)
  {
    assert [] + Lst(s.list, LocalOf(p)) == Lst(s.list, LocalOf(p));
  }

  ghost predicate MoveResult(f: seq<Addr>, l: seq<Addr>, force: bool, f': seq<Addr>, l': seq<Addr>) {
    if l == [] || (f != [] && !force) then f' == f && l' == l
    else if f == [] then f' == l && l' == []
    else f' == l + f && l' == []
  }

  lemma MoveIs(s: State, p: Page, force: bool)
    requires Hd(s.head, FreeOf(p)) == NULL <==> Lst(s.list, FreeOf(p)) == []
    requires Hd(s.head, LocalOf(p)) == NULL <==> Lst(s.list, LocalOf(p)) == []
    ensures var s' := MoveLocalFree(s, p, force);
            && s'.used == s.used
            && MoveResult(Lst(s.list, FreeOf(p)), Lst(s.list, LocalOf(p)), force,
                          Lst(s'.list, FreeOf(p)), Lst(s'.list, LocalOf(p)))
  {
  }

  /** What one step of the run does while the owner is inside `page_free_collect`. */
  ghost predicate CollectStep(s: State, s': State)
    requires Collecting(s.owner)
  {
    var o, p := s.owner, s.owner.p;
    || Grown(s, s')
    || (o.CollectMove? && MovedOn(s, s', p, o.force, o.then_))
    || (&& SameOperation(o, s'.owner)
        && match o
           case CollectLoad(_, _, _) => Loaded(s, s', p)
           case CollectTake(_, _, _) => TookList(s, s', p)
           case CollectAppend(_, _, _) => Appended(s, s', p)
           case _ => false)
  }

  lemma StepIs(s: State, st: Step, s': State)
    requires Inv(s) && StepsTo(s, st, s') && Collecting(s.owner)
    ensures CollectStep(s, s')
  {
    if OfOthers(st) {
      OthersGrow(s, st);
    } else {
      CollectStepCases(s, st);
      RunStepIs(s, st.ok);
      RunIs(s, st.ok);
    }
  }

  lemma RunIs(s: State, ok: bool)
    requires Inv(s) && Collecting(s.owner)
    ensures CollectStep(s, ApplyOwner(s, ok))
  {
    match s.owner
    case CollectLoad(p, force, k) => LoadStep(s, p, force, k, ok);
    case CollectTake(p, force, k) =>
      TakeIs(s, ok);
      TakeStep(s, p, force, k);
    case CollectAppend(p, force, k) => AppendStep(s, p, force, k, ok);
    case CollectMove(p, force, k) =>
      MoveOwnerIs(s, ok);
      MoveStep(s, ApplyOwner(s, ok), p, force, k);
  }

  // ---- The whole operation ----

  /** The free lists and the count of the page are as they were. */
  ghost predicate Untouched(s0: State, s: State, p: Page) {
    && Lst(s.list, FreeOf(p)) == Lst(s0.list, FreeOf(p)) && Lst(s.list, LocalOf(p)) == Lst(s0.list, LocalOf(p))
    && Used(s.used, p) == Used(s0.used, p)
  }

  /** What was taken is in front of `local_free` and has been counted back. */
  ghost predicate Returned(s0: State, s: State, p: Page, t: seq<Addr>) {
    && Lst(s.list, FreeOf(p)) == Lst(s0.list, FreeOf(p))
    && Lst(s.list, LocalOf(p)) == t + Lst(s0.list, LocalOf(p))
    && Used(s.used, p) == Used(s0.used, p) - |t|
  }

  /** The list has not been taken yet. */
  ghost predicate Before(o: Owner) { o.CollectLoad? || o.CollectTake? }

  /** How far the operation that began in `s0` has come in `s`; `t` is the list it took, once it has. */
  ghost predicate Stage(s0: State, s: State, p: Page, t: seq<Addr>) {
    if Before(s.owner) then Untouched(s0, s, p)
    else if s.owner.CollectAppend? then Untouched(s0, s, p) && Lst(s.list, Taken) == t
    else s.owner.CollectMove? && Returned(s0, s, p, t)
  }

  /** What is to be taken, or was, ends with what was on `thread_free` at first. */
  ghost predicate Underway(s0: State, s: State, p: Page, t: seq<Addr>) {
    Stage(s0, s, p, t) && EndsWith(TakenBy(s, p, t), Lst(s0.list, ThreadOf(p)))
  }

  /** The list the operation has taken after a step from `s`, if it has. */
  ghost function TakenBy(s: State, p: Page, t: seq<Addr>): seq<Addr> {
    if Before(s.owner) then Lst(s.list, ThreadOf(p)) else t
  }

  lemma NoneReturned(s0: State, s: State, p: Page)
    requires Untouched(s0, s, p)
    ensures Returned(s0, s, p, [])
  {
    assert [] + Lst(s0.list, LocalOf(p)) == Lst(s0.list, LocalOf(p));
  }

  /** Steps of others do not set the operation back, and each step of the owner takes it further. */
  lemma Advance(s0: State, s: State, s': State, p: Page, t: seq<Addr>)
    requires Collecting(s.owner) && s.owner.p == p && CollectStep(s, s') && Collecting(s'.owner)
    requires Underway(s0, s, p, t)
    ensures Underway(s0, s', p, TakenBy(s, p, t)) && SameOperation(s.owner, s'.owner)
    ensures Before(s.owner) && !Before(s'.owner) ==> Hd(s'.head, ThreadOf(p)) == NULL
  {
    if Grown(s, s') {
      AdvanceOthers(s0, s, s', p, t);
    } else {
      AdvanceOwner(s0, s, s', p, t);
    }
  }

  lemma AdvanceOwner(s0: State, s: State, s': State, p: Page, t: seq<Addr>)
    requires Collecting(s.owner) && s.owner.p == p && CollectStep(s, s') && !Grown(s, s') && Collecting(s'.owner)
    requires Underway(s0, s, p, t)
    ensures Underway(s0, s', p, TakenBy(s, p, t)) && SameOperation(s.owner, s'.owner)
    ensures Before(s.owner) && !Before(s'.owner) ==> Hd(s'.head, ThreadOf(p)) == NULL
  {
    if s.owner.CollectLoad? {
      AdvanceLoad(s0, s, s', p, t);
    } else if s.owner.CollectTake? {
      AdvanceTake(s0, s, s', p, t);
    } else {
      AdvanceAppend(s0, s, s', p, t);
    }
  }

  lemma AdvanceLoad(s0: State, s: State, s': State, p: Page, t: seq<Addr>)
    requires s.owner.CollectLoad? && Loaded(s, s', p) && Underway(s0, s, p, t)
    ensures Underway(s0, s', p, TakenBy(s, p, t))
    ensures !Before(s'.owner) ==> Hd(s'.head, ThreadOf(p)) == NULL
  {
    assert Untouched(s0, s', p);
    NoneReturned(s0, s', p);
  }

  lemma AdvanceTake(s0: State, s: State, s': State, p: Page, t: seq<Addr>)
    requires s.owner.CollectTake? && TookList(s, s', p) && Underway(s0, s, p, t)
    ensures Underway(s0, s', p, TakenBy(s, p, t)) && Hd(s'.head, ThreadOf(p)) == NULL
  {
    assert Untouched(s0, s', p);
    NoneReturned(s0, s', p);
  }

  lemma AdvanceAppend(s0: State, s: State, s': State, p: Page, t: seq<Addr>)
    requires s.owner.CollectAppend? && Appended(s, s', p) && Underway(s0, s, p, t)
    ensures Underway(s0, s', p, TakenBy(s, p, t))
  {
    assert Returned(s0, s', p, t);
  }

  lemma AdvanceOthers(s0: State, s: State, s': State, p: Page, t: seq<Addr>)
    requires Collecting(s.owner) && Grown(s, s') && Underway(s0, s, p, t)
    ensures Underway(s0, s', p, TakenBy(s, p, t))
  {
    GrownPage(s, s', p);
    SameStage(s0, s, s', p, t, TakenBy(s, p, t));
    if Before(s.owner) {
      EndsWithTrans(Lst(s'.list, ThreadOf(p)), Lst(s.list, ThreadOf(p)), Lst(s0.list, ThreadOf(p)));
    }
  }

  /** The owner's lists of the page are as they were. */
  ghost predicate SameLists(s: State, s': State, p: Page) {
    && s'.owner == s.owner && s'.used == s.used
    && Lst(s'.list, FreeOf(p)) == Lst(s.list, FreeOf(p)) && Lst(s'.list, LocalOf(p)) == Lst(s.list, LocalOf(p))
    && Lst(s'.list, Taken) == Lst(s.list, Taken)
  }

  lemma GrownPage(s: State, s': State, p: Page)
    requires Grown(s, s')
    ensures SameLists(s, s', p) && EndsWith(Lst(s'.list, ThreadOf(p)), Lst(s.list, ThreadOf(p)))
  {
    assert OwnersOnly(FreeOf(p)) && OwnersOnly(LocalOf(p)) && OwnersOnly(Taken);
  }

  lemma SameStage(s0: State, s: State, s': State, p: Page, t: seq<Addr>, t': seq<Addr>)
    requires SameLists(s, s', p) && Stage(s0, s, p, t) && (Before(s.owner) || t' == t)
    ensures Stage(s0, s', p, t')
  {
  }

  /** The operation that began in `s0` is over, having taken `t`. */
  ghost predicate Finished(s0: State, s: State, p: Page, t: seq<Addr>)
    requires s0.owner.CollectLoad?
  {
    && s.owner == Resume(p, s0.owner.then_) && EndsWith(t, Lst(s0.list, ThreadOf(p)))
    && (Lst(s.list, FreeOf(p)), Lst(s.list, LocalOf(p)))
       == PageLists.Collected(Lst(s0.list, FreeOf(p)), Lst(s0.list, LocalOf(p)), t, s0.owner.force)
    && Used(s.used, p) == Used(s0.used, p) - |t|
  }

  lemma Finish(s0: State, s: State, s': State, t: seq<Addr>)
    requires s0.owner.CollectLoad? && SameOperation(s0.owner, s.owner) && Underway(s0, s, s0.owner.p, t)
    requires CollectStep(s, s') && !Collecting(s'.owner)
    ensures s.owner.CollectMove? && Finished(s0, s', s0.owner.p, t)
  {
    var p := s0.owner.p;
    PageLists.CollectedTwice(Lst(s0.list, FreeOf(p)), Lst(s0.list, LocalOf(p)), t, s0.owner.force);
  }

  /** Step `k` of the run is a step of or beside `page_free_collect`. */
  ghost predicate StepAt(trace: seq<State>, k: nat) {
    k + 1 < |trace| && Collecting(trace[k].owner) && CollectStep(trace[k], trace[k + 1])
  }

  /** State `m` was the last one with `t` on `thread_free`; the next one has it empty. */
  ghost predicate LeftEmpty(trace: seq<State>, m: nat, p: Page, t: seq<Addr>) {
    m + 1 < |trace| && Lst(trace[m].list, ThreadOf(p)) == t && Hd(trace[m + 1].head, ThreadOf(p)) == NULL
  }

  /** The operation has taken `t` between `i` and `k`, unless it is still before that. */
  ghost predicate TookBetween(trace: seq<State>, i: nat, k: nat, p: Page, m: nat, t: seq<Addr>)
    requires k < |trace|
  {
    Before(trace[k].owner) || (i <= m < k && LeftEmpty(trace, m, p, t))
  }

  lemma {:induction false} CollectUnderway(trace: seq<State>, i: nat, k: nat) returns (m: nat, t: seq<Addr>)
    requires i <= k < |trace| && trace[i].owner.CollectLoad? && Collecting(trace[k].owner)
    requires forall x :: i <= x < k ==> StepAt(trace, x)
    ensures Underway(trace[i], trace[k], trace[i].owner.p, t) && SameOperation(trace[i].owner, trace[k].owner)
    ensures TookBetween(trace, i, k, trace[i].owner.p, m, t)
  {
    if k == i {
      m, t := i, [];
    } else {
      assert StepAt(trace, k - 1);
      m, t := CollectUnderway(trace, i, k - 1);
      var p, s := trace[i].owner.p, trace[k - 1];
      Advance(trace[i], s, trace[k], p, t);
      if Before(s.owner) { m, t := k - 1, TakenBy(s, p, t); }
    }
  }

  /** From its first load at state `i` to its return at state `j` the run is inside one `page_free_collect`. */
  ghost predicate Collects(trace: seq<State>, steps: seq<Step>, i: nat, j: nat) {
    && IsRun(trace, steps) && i < j < |trace| && trace[i].owner.CollectLoad?
    && (forall k :: i <= k < j ==> Collecting(trace[k].owner)) && !Collecting(trace[j].owner)
  }

  lemma RunStepAt(trace: seq<State>, steps: seq<Step>, k: nat)
    requires IsRun(trace, steps) && k < |steps| && Collecting(trace[k].owner)
    ensures StepAt(trace, k)
  {
    RunKeepsInv(trace, steps, k);
    StepTaken(trace, steps, k);
    StepIs(trace[k], steps[k], trace[k + 1]);
  }

  lemma CollectOver(trace: seq<State>, i: nat, j: nat) returns (m: nat, t: seq<Addr>)
    requires i < j < |trace| && trace[i].owner.CollectLoad? && !Collecting(trace[j].owner)
    requires forall x :: i <= x < j ==> StepAt(trace, x)
    ensures i <= m < j && LeftEmpty(trace, m, trace[i].owner.p, t)
    ensures Finished(trace[i], trace[j], trace[i].owner.p, t)
  {
    assert StepAt(trace, j - 1);
    m, t := CollectUnderway(trace, i, j - 1);
    Finish(trace[i], trace[j - 1], trace[j], t);
  }

  lemma CollectFinished(trace: seq<State>, steps: seq<Step>, i: nat, j: nat) returns (m: nat, t: seq<Addr>)
    requires Collects(trace, steps, i, j)
    ensures i <= m < j && LeftEmpty(trace, m, trace[i].owner.p, t)
    ensures Finished(trace[i], trace[j], trace[i].owner.p, t)
  {
    forall x | i <= x < j ensures StepAt(trace, x) { RunStepAt(trace, steps, x); }
    m, t := CollectOver(trace, i, j);
  }

  // ---- What it means for the caller ----

  /** From state `i` to state `j` the page's lists, as walking memory meets them, went from `f`, `l` and a
      `thread_free` list that ended with `t0` to what collecting the `thread_free` list `t` of one instant makes of
      them; at that instant it was left empty, and `used` fell by its length. */
  ghost predicate CollectedAt(trace: seq<State>, i: nat, j: nat, p: Page, force: bool,
                              f: seq<Addr>, l: seq<Addr>, t0: seq<Addr>, m: nat, t: seq<Addr>)
  {
    && i <= m < j < |trace|
    && EndsWith(t, t0)
    && Chain(trace[m].mem, Hd(trace[m].head, ThreadOf(p)), t) && Hd(trace[m + 1].head, ThreadOf(p)) == NULL
    && var (f', l') := PageLists.Collected(f, l, t, force);
    && Chain(trace[j].mem, Hd(trace[j].head, FreeOf(p)), f')
    && Chain(trace[j].mem, Hd(trace[j].head, LocalOf(p)), l')
    && Used(trace[j].used, p) == Used(trace[i].used, p) - |t|
  }

  /** `page_free_collect`, on its own or for a delayed block, whatever other threads do meanwhile. */
  lemma CollectDoes(trace: seq<State>, steps: seq<Step>, i: nat, j: nat, f: seq<Addr>, l: seq<Addr>, t0: seq<Addr>)
    requires Collects(trace, steps, i, j)
    requires Chain(trace[i].mem, Hd(trace[i].head, FreeOf(trace[i].owner.p)), f)
    requires Chain(trace[i].mem, Hd(trace[i].head, LocalOf(trace[i].owner.p)), l)
    requires Chain(trace[i].mem, Hd(trace[i].head, ThreadOf(trace[i].owner.p)), t0)
    ensures trace[j].owner == Resume(trace[i].owner.p, trace[i].owner.then_)
    ensures exists m, t :: CollectedAt(trace, i, j, trace[i].owner.p, trace[i].owner.force, f, l, t0, m, t)
  {
    var p, force := trace[i].owner.p, trace[i].owner.force;
    var m, t := CollectFinished(trace, steps, i, j);
    IsList(trace, steps, i, FreeOf(p), f);
    IsList(trace, steps, i, LocalOf(p), l);
    IsList(trace, steps, i, ThreadOf(p), t0);
    ListChain(trace, steps, m, ThreadOf(p));
    ListChain(trace, steps, j, FreeOf(p));
    ListChain(trace, steps, j, LocalOf(p));
    assert CollectedAt(trace, i, j, p, force, f, l, t0, m, t);
  }

  lemma ListChain(trace: seq<State>, steps: seq<Step>, i: nat, id: ListId)
    requires IsRun(trace, steps) && i < |trace|
    ensures Chain(trace[i].mem, Hd(trace[i].head, id), Lst(trace[i].list, id))
  {
    RunKeepsInv(trace, steps, i);
    assert ListInv(trace[i], id);
  }

  lemma IsList(trace: seq<State>, steps: seq<Step>, i: nat, id: ListId, l: seq<Addr>)
    requires IsRun(trace, steps) && i < |trace| && Chain(trace[i].mem, Hd(trace[i].head, id), l)
    ensures Lst(trace[i].list, id) == l
  {
    ListChain(trace, steps, i, id);
    ChainUnique(trace[i].mem, Hd(trace[i].head, id), l, Lst(trace[i].list, id));
  }

  /** Once started for its own sake, `page_free_collect` runs until the owner is between operations again. */
  lemma {:induction false} StaysCollecting(trace: seq<State>, steps: seq<Step>, i: nat, k: nat)
    requires IsRun(trace, steps) && i < k < |trace| && i < |steps| && steps[i].StartCollect?
    requires forall m :: i < m <= k ==> !trace[m].owner.Ready?
    ensures Collecting(trace[k].owner) && trace[k].owner.then_.Back?
  {
    StepTaken(trace, steps, k - 1);
    if k > i + 1 {
      StaysCollecting(trace, steps, i, k - 1);
      BackStep(trace[k - 1], steps[k - 1], trace[k]);
    }
  }

  lemma BackStep(s: State, st: Step, s': State)
    requires StepsTo(s, st, s') && Collecting(s.owner) && s.owner.then_.Back? && !s'.owner.Ready?
    ensures Collecting(s'.owner) && s'.owner.then_.Back?
  {
    if OfOthers(st) {
      OthersGrow(s, st);
    } else {
      CollectStepCases(s, st);
      RunStepIs(s, st.ok);
      BackRun(s, st.ok);
    }
  }

  lemma BackRun(s: State, ok: bool)
    requires Collecting(s.owner) && s.owner.then_.Back? && !ApplyOwner(s, ok).owner.Ready?
    ensures Collecting(ApplyOwner(s, ok).owner) && ApplyOwner(s, ok).owner.then_.Back?
  {
    if s.owner.CollectTake? {
      TakeOwner(s, s.owner.p, s.owner.force, s.owner.then_);
    } else if s.owner.CollectMove? {
      MoveEnds(s, ok);
    } else {
      LoadOrAppendOwner(s, ok);
    }
  }

  lemma TakeOwner(s: State, p: Page, force: bool, k: Cont)
    ensures var o := TakeThreadFree(s, p, force, k).owner;
            o == CollectMove(p, force, k) || o == CollectAppend(p, force, k)
  {
    if Hd(s.head, ThreadOf(p)) == NULL {
    }
  }

  lemma MoveEnds(s: State, ok: bool)
    requires s.owner.CollectMove?
    ensures ApplyOwner(s, ok).owner == Resume(s.owner.p, s.owner.then_)
  {
  }

  lemma LoadOrAppendOwner(s: State, ok: bool)
    requires s.owner.CollectLoad? || s.owner.CollectAppend?
    ensures Collecting(ApplyOwner(s, ok).owner) && ApplyOwner(s, ok).owner.then_ == s.owner.then_
  {
  }

  /** The owner starts `page_free_collect` on page `p` in state `i`, and `j` is the next state in which it is between
      operations. */
  ghost predicate CollectCall(trace: seq<State>, steps: seq<Step>, i: nat, j: nat, p: Page, force: bool) {
    && IsRun(trace, steps) && i < j < |trace| && steps[i] == StartCollect(p, force)
    && (forall k :: i < k < j ==> !trace[k].owner.Ready?) && trace[j].owner.Ready?
  }

  lemma CallCollects(trace: seq<State>, steps: seq<Step>, i: nat, j: nat, p: Page, force: bool)
    requires CollectCall(trace, steps, i, j, p, force)
    ensures Collects(trace, steps, i + 1, j) && trace[i + 1].owner == CollectLoad(p, force, Back)
    ensures trace[i + 1] == trace[i].(owner := CollectLoad(p, force, Back))
  {
    StepTaken(trace, steps, i);
    forall k | i + 1 <= k < j ensures Collecting(trace[k].owner) { StaysCollecting(trace, steps, i, k); }
  }

  /** What the callers of `page_free_collect` rely on: every block that other threads had given back is off
      `thread_free`, which was empty at some instant, and on one of the page's own free lists; the page has a free
      block again if there was any to collect; and when forced nothing is left on `local_free`. */
  lemma CollectBringsBack(trace: seq<State>, steps: seq<Step>, i: nat, j: nat, p: Page, force: bool)
    requires CollectCall(trace, steps, i, j, p, force)
    ensures exists m :: i < m <= j && Hd(trace[m].head, ThreadOf(p)) == NULL
    ensures forall b :: OnChain(trace[i], ThreadOf(p), b) ==>
              !OnChain(trace[j], ThreadOf(p), b) && OnFreeChain(trace[j], p, b)
    ensures (exists b :: OnChain(trace[i], ThreadOf(p), b) || OnFreeChain(trace[i], p, b)) ==>
              Hd(trace[j].head, FreeOf(p)) != NULL
    ensures force ==> Hd(trace[j].head, LocalOf(p)) == NULL
  {
    CallCollects(trace, steps, i, j, p, force);
    var m, t := CollectFinished(trace, steps, i + 1, j);
    assert i < m + 1 <= j;
    RunKeepsInv(trace, steps, i);
    RunKeepsInv(trace, steps, j);
    FinishedBrings(trace[i], trace[i + 1], trace[j], p, t);
  }

  lemma FinishedBrings(s: State, s0: State, s': State, p: Page, t: seq<Addr>)
    requires Inv(s) && Inv(s') && s0.owner.CollectLoad? && s0 == s.(owner := s0.owner)
    requires Finished(s0, s', p, t)
    ensures forall b :: OnChain(s, ThreadOf(p), b) ==> !OnChain(s', ThreadOf(p), b) && OnFreeChain(s', p, b)
    ensures (exists b :: OnChain(s, ThreadOf(p), b) || OnFreeChain(s, p, b)) ==> Hd(s'.head, FreeOf(p)) != NULL
    ensures s0.owner.force ==> Hd(s'.head, LocalOf(p)) == NULL
  {
    PageLists.CollectedKeepsAll(Lst(s.list, FreeOf(p)), Lst(s.list, LocalOf(p)), t, s0.owner.force);
    HeadNull(s', LocalOf(p));
    forall b | OnChain(s, ThreadOf(p), b) ensures b in t && !OnChain(s', ThreadOf(p), b) && OnFreeChain(s', p, b) {
      ThreadBrought(s, s0, s', p, t, b);
    }
    if b :| OnChain(s, ThreadOf(p), b) || OnFreeChain(s, p, b) { SomeFree(s, s0, s', p, t, b); }
  }

  lemma ThreadBrought(s: State, s0: State, s': State, p: Page, t: seq<Addr>, b: Addr)
    requires Inv(s) && Inv(s') && s0.owner.CollectLoad? && s0 == s.(owner := s0.owner)
    requires Finished(s0, s', p, t) && OnChain(s, ThreadOf(p), b)
    ensures b in t && !OnChain(s', ThreadOf(p), b) && OnFreeChain(s', p, b)
  {
    OnChainIff(s, ThreadOf(p), b);
    assert BlockInv(s, b);
    InTail(t, Lst(s.list, ThreadOf(p)), b);
    InCollected(Lst(s.list, FreeOf(p)), Lst(s.list, LocalOf(p)), t, s0.owner.force, b);
    InLists(s', p, b);
  }

  lemma SomeFree(s: State, s0: State, s': State, p: Page, t: seq<Addr>, b: Addr)
    requires Inv(s) && Inv(s') && s0.owner.CollectLoad? && s0 == s.(owner := s0.owner)
    requires Finished(s0, s', p, t)
    requires OnChain(s, ThreadOf(p), b) || OnFreeChain(s, p, b)
    ensures Hd(s'.head, FreeOf(p)) != NULL
  {
    PageLists.CollectedKeepsAll(Lst(s.list, FreeOf(p)), Lst(s.list, LocalOf(p)), t, s0.owner.force);
    HeadNull(s', FreeOf(p));
    OnOwnLists(s, p, b);
    assert b in t || b in Lst(s.list, FreeOf(p)) || b in Lst(s.list, LocalOf(p)) by {
      if b in Lst(s.list, ThreadOf(p)) { InTail(t, Lst(s.list, ThreadOf(p)), b); }
    }
  }

  lemma OnOwnLists(s: State, p: Page, b: Addr)
    requires Inv(s) && (OnChain(s, ThreadOf(p), b) || OnFreeChain(s, p, b))
    ensures b in Lst(s.list, ThreadOf(p)) || b in Lst(s.list, FreeOf(p)) || b in Lst(s.list, LocalOf(p))
  {
    OnChainIff(s, FreeOf(p), b);
    OnChainIff(s, LocalOf(p), b);
    OnChainIff(s, ThreadOf(p), b);
    assert BlockInv(s, b);
  }

  lemma InTail(t: seq<Addr>, t0: seq<Addr>, b: Addr)
    requires EndsWith(t, t0) && b in t0
    ensures b in t
  {
    assert b in t[|t| - |t0|..];
  }

  lemma InCollected(f: seq<Addr>, l: seq<Addr>, t: seq<Addr>, force: bool, b: Addr)
    requires b in t
    ensures var (f', l') := PageLists.Collected(f, l, t, force); b in f' || b in l'
  {
    assert b in t + l;
  }

  lemma InLists(s: State, p: Page, b: Addr)
    requires Inv(s) && (b in Lst(s.list, FreeOf(p)) || b in Lst(s.list, LocalOf(p)))
    ensures OnFreeChain(s, p, b) && !OnChain(s, ThreadOf(p), b)
  {
    assert ListInv(s, FreeOf(p)) && ListInv(s, LocalOf(p));
    OnChainIff(s, FreeOf(p), b);
    OnChainIff(s, LocalOf(p), b);
    OnChainIff(s, ThreadOf(p), b);
  }

  // ---- Freeing a delayed block ----

  /** `page_free_collect` is over for the page, having taken `t`, or the block is being freed. */
  ghost predicate Collected(s0: State, s: State, p: Page, t: seq<Addr>)
    requires s0.owner.CollectLoad?
  {
    if Collecting(s.owner) then Underway(s0, s, p, t) && SameOperation(s0.owner, s.owner) else Finished(s0, s, p, t)
  }

  /** Step `k` of the run is a step of or beside the freeing of a delayed block, before its last. */
  ghost predicate FreeingAt(trace: seq<State>, k: nat) {
    && k + 1 < |trace| && (Collecting(trace[k + 1].owner) || trace[k + 1].owner.FreeIt?)
    && (StepAt(trace, k) || (trace[k].owner.FreeIt? && Grown(trace[k], trace[k + 1])))
  }

  lemma FinishedStays(s0: State, s: State, s': State, p: Page, t: seq<Addr>)
    requires s0.owner.CollectLoad? && Finished(s0, s, p, t) && Grown(s, s')
    ensures Finished(s0, s', p, t)
  {
    GrownPage(s, s', p);
  }

  lemma FreeingStep(s0: State, s: State, s': State, t: seq<Addr>)
    requires s0.owner.CollectLoad? && Collecting(s.owner) && CollectStep(s, s')
    requires Underway(s0, s, s0.owner.p, t) && SameOperation(s0.owner, s.owner)
    ensures Collected(s0, s', s0.owner.p, TakenBy(s, s0.owner.p, t))
    ensures Before(s.owner) && !Before(s'.owner) ==> Hd(s'.head, ThreadOf(s0.owner.p)) == NULL
  {
    if Collecting(s'.owner) {
      Advance(s0, s, s', s0.owner.p, t);
    } else {
      Finish(s0, s, s', t);
    }
  }

  lemma {:induction false} FreeingUnderway(trace: seq<State>, i: nat, k: nat) returns (m: nat, t: seq<Addr>)
    requires i <= k < |trace| && trace[i].owner.CollectLoad?
    requires forall x :: i <= x < k ==> FreeingAt(trace, x)
    ensures Collected(trace[i], trace[k], trace[i].owner.p, t)
    ensures TookBetween(trace, i, k, trace[i].owner.p, m, t)
  {
    if k == i {
      m, t := i, [];
    } else {
      var s := trace[k - 1];
      assert FreeingAt(trace, k - 1);
      m, t := FreeingUnderway(trace, i, k - 1);
      if Collecting(s.owner) {
        FreeingStep(trace[i], s, trace[k], t);
        if Before(s.owner) { m, t := k - 1, TakenBy(s, trace[i].owner.p, t); }
      } else {
        FinishedStays(trace[i], s, trace[k], trace[i].owner.p, t);
      }
    }
  }

  lemma FreeItEnds(s: State, ok: bool)
    requires s.owner.FreeIt?
    ensures FreedBlock(s, ApplyOwner(s, ok))
  {
  }

  /** `try_use_delayed_free` succeeds for the block in the owner's hands in state `i`, and `j` is the next state in
      which the owner is done with the block. */
  ghost predicate DelayedFree(trace: seq<State>, steps: seq<Step>, i: nat, j: nat) {
    && IsRun(trace, steps) && i + 1 < j < |trace| && trace[i].owner.TryCas? && steps[i] == Run(true)
    && (forall k :: i < k < j ==> Collecting(trace[k].owner) || trace[k].owner.FreeIt?) && trace[j].owner.DrainNext?
  }

  /** Freeing block `b` collected the `thread_free` list `t` of one instant, without force, and put `b` in front. */
  ghost predicate DelayedFreed(trace: seq<State>, i: nat, j: nat, p: Page, b: Addr, f: seq<Addr>, l: seq<Addr>,
                               m: nat, t: seq<Addr>)
  {
    && i <= m < j < |trace|
    && Chain(trace[m].mem, Hd(trace[m].head, ThreadOf(p)), t) && Hd(trace[m + 1].head, ThreadOf(p)) == NULL
    && var (f', l') := PageLists.Collected(f, l, t, false);
    && Chain(trace[j].mem, Hd(trace[j].head, FreeOf(p)), [b] + f')
    && Chain(trace[j].mem, Hd(trace[j].head, LocalOf(p)), l')
    && Used(trace[j].used, p) == Used(trace[i].used, p) - |t| - 1
  }

  /** `free_delayed_block`, once its page accepts delayed frees again: `page_free_collect` takes what other threads
      have freed, the page's lists change as `PageLists.Collected` says when it is not forced, and the block goes in
      front of `free`; `used` falls by the length of the list taken and one. */
  lemma DelayedFreeDoes(trace: seq<State>, steps: seq<Step>, i: nat, j: nat, f: seq<Addr>, l: seq<Addr>)
    returns (m: nat, t: seq<Addr>)
    requires DelayedFree(trace, steps, i, j)
    requires Chain(trace[i].mem, Hd(trace[i].head, FreeOf(trace[i].owner.p)), f)
    requires Chain(trace[i].mem, Hd(trace[i].head, LocalOf(trace[i].owner.p)), l)
    ensures trace[i].owner.p == PageOf(trace[i].span, trace[i].owner.b)
    ensures DelayedFreed(trace, i, j, trace[i].owner.p, trace[i].owner.b, f, l, m, t)
  {
    var p := trace[i].owner.p;
    RunKeepsInv(trace, steps, i);
    PageOfIs(trace[i], trace[i].owner.b);
    IsList(trace, steps, i, FreeOf(p), f);
    IsList(trace, steps, i, LocalOf(p), l);
    m, t := DelayedLists(trace, steps, i, j);
    ListChain(trace, steps, m, ThreadOf(p));
    ListChain(trace, steps, j, FreeOf(p));
    ListChain(trace, steps, j, LocalOf(p));
  }

  /** The same, of the lists that the chains are. */
  ghost predicate DelayedMoves(trace: seq<State>, i: nat, j: nat, p: Page, b: Addr, t: seq<Addr>)
    requires i < j < |trace|
  {
    var s, s' := trace[i], trace[j];
    var (f', l') := PageLists.Collected(Lst(s.list, FreeOf(p)), Lst(s.list, LocalOf(p)), t, false);
    && Lst(s'.list, FreeOf(p)) == [b] + f' && Lst(s'.list, LocalOf(p)) == l'
    && Used(s'.used, p) == Used(s.used, p) - |t| - 1
  }

  lemma DelayedLists(trace: seq<State>, steps: seq<Step>, i: nat, j: nat) returns (m: nat, t: seq<Addr>)
    requires DelayedFree(trace, steps, i, j)
    ensures i <= m < j && LeftEmpty(trace, m, trace[i].owner.p, t)
    ensures DelayedMoves(trace, i, j, trace[i].owner.p, trace[i].owner.b, t)
  {
    ResumedAt(trace, steps, i);
    forall x | i + 1 <= x < j - 1 ensures FreeingAt(trace, x) { FreeingAtIs(trace, steps, x); }
    LastFree(trace, steps, j - 1);
    m, t := FreeingWalk(trace, i, j);
  }

  lemma FreeingWalk(trace: seq<State>, i: nat, j: nat) returns (m: nat, t: seq<Addr>)
    requires i + 1 < j < |trace| && trace[i].owner.TryCas? && Resumed(trace[i], trace[i + 1])
    requires FreedBlock(trace[j - 1], trace[j]) && forall x :: i + 1 <= x < j - 1 ==> FreeingAt(trace, x)
    ensures i <= m < j && LeftEmpty(trace, m, trace[i].owner.p, t)
    ensures DelayedMoves(trace, i, j, trace[i].owner.p, trace[i].owner.b, t)
  {
    m, t := FreeingUnderway(trace, i + 1, j - 1);
    MovesAre(trace, i, j, t);
  }

  lemma ResumedAt(trace: seq<State>, steps: seq<Step>, i: nat)
    requires IsRun(trace, steps) && i < |steps| && trace[i].owner.TryCas? && steps[i] == Run(true)
    ensures Resumed(trace[i], trace[i + 1])
  {
    StepTaken(trace, steps, i);
    RunStepIs(trace[i], true);
    TrySucceeds(trace[i]);
  }

  lemma MovesAre(trace: seq<State>, i: nat, j: nat, t: seq<Addr>)
    requires i + 1 < j < |trace| && trace[i].owner.TryCas? && Resumed(trace[i], trace[i + 1])
    requires Finished(trace[i + 1], trace[j - 1], trace[i].owner.p, t) && FreedBlock(trace[j - 1], trace[j])
    ensures DelayedMoves(trace, i, j, trace[i].owner.p, trace[i].owner.b, t)
  {
  }

  /** The compare-exchange has succeeded, and collecting begins. */
  ghost predicate Resumed(s: State, s': State)
    requires s.owner.TryCas?
  {
    && s'.owner == CollectLoad(s.owner.p, false, FreeDelayed(s.owner.b, s.owner.allFreed))
    && s'.list == s.list && s'.used == s.used
  }

  /** The block is in front of `free` and has been counted back. */
  ghost predicate FreedBlock(s: State, s': State) {
    && s.owner.FreeIt? && s'.owner.DrainNext?
    && Used(s'.used, s.owner.p) == Used(s.used, s.owner.p) - 1
    && Lst(s'.list, FreeOf(s.owner.p)) == [s.owner.b] + Lst(s.list, FreeOf(s.owner.p))
    && Lst(s'.list, LocalOf(s.owner.p)) == Lst(s.list, LocalOf(s.owner.p))
  }

  lemma TrySucceeds(s: State)
    requires s.owner.TryCas?
    ensures Resumed(s, ApplyOwner(s, true))
  {
  }

  lemma FreeingAtIs(trace: seq<State>, steps: seq<Step>, x: nat)
    requires IsRun(trace, steps) && x < |steps|
    requires Collecting(trace[x].owner) || trace[x].owner.FreeIt?
    requires Collecting(trace[x + 1].owner) || trace[x + 1].owner.FreeIt?
    ensures FreeingAt(trace, x)
  {
    if Collecting(trace[x].owner) {
      RunStepAt(trace, steps, x);
    } else {
      StepTaken(trace, steps, x);
      StaysFreeIt(trace[x], steps[x], trace[x + 1]);
    }
  }

  lemma StaysFreeIt(s: State, st: Step, s': State)
    requires StepsTo(s, st, s') && s.owner.FreeIt? && (Collecting(s'.owner) || s'.owner.FreeIt?)
    ensures Grown(s, s')
  {
    if OfOthers(st) {
      OthersGrow(s, st);
    } else {
      OwnStepFrees(s, st, s');
    }
  }

  lemma OwnStepFrees(s: State, st: Step, s': State)
    requires StepsTo(s, st, s') && s.owner.FreeIt? && !OfOthers(st)
    ensures FreedBlock(s, s')
  {
    PassStepCases(s, st);
    RunStepIs(s, st.ok);
    FreeItEnds(s, st.ok);
  }

  /** The step that ends the freeing of the block puts it in front of `free`. */
  lemma LastFree(trace: seq<State>, steps: seq<Step>, k: nat)
    requires IsRun(trace, steps) && k < |steps| && trace[k + 1].owner.DrainNext?
    requires Collecting(trace[k].owner) || trace[k].owner.FreeIt?
    ensures FreedBlock(trace[k], trace[k + 1])
  {
    StepTaken(trace, steps, k);
    if Collecting(trace[k].owner) {
      RunStepAt(trace, steps, k);
    } else if OfOthers(steps[k]) {
      OthersGrow(trace[k], steps[k]);
    } else {
      OwnStepFrees(trace[k], steps[k], trace[k + 1]);
    }
  }
}
