/**
 * The pages of the protocol at their addresses: when every page set up is laid out in a segment, the
 * address calculations of `free`, from any block to its segment, its slice and its page header, lead to
 * the page the protocol works on.
 */
module ProtocolLayout {
  import opened Layout
  import opened MachineWord
  import opened Chains
  import opened Protocol
  import opened ProtocolInv
  import opened ProtocolRuns
  import opened ProtocolSpans

  // ---- The address calculations find the page ----

  /** Page `p` is the header of slice `slice` of segment `seg`, its first block is the first of that slice,
      and its blocks start within the segment. */
  ghost predicate LaidOut(p: Page, g: Span, seg: nat, slice: nat) {
    && p == PageHeaderStart(seg, slice)
    && g.start == BlockStartAt(seg, slice, g.bsize, 0)
    && forall i :: 0 <= i < |g.blocks| ==> InSegment(seg, g.blocks[i])
  }

  ghost predicate InSomeSegment(p: Page, g: Span) {
    exists seg: nat, slice: nat :: LaidOut(p, g, seg, slice)
  }

  /** A run in which pages are set up in segments only. */
  ghost predicate LaidOutRun(trace: seq<State>, steps: seq<Step>) {
    IsRun(trace, steps) && forall k :: 0 <= k < |steps| && steps[k].Enable? ==> InSomeSegment(steps[k].p, steps[k].g)
  }

  /** The header of every slice in which a block of a page starts holds the offset back to the page's header. */
  ghost predicate HeadersWritten(span: map<Page, Span>, offset: nat -> nat) {
    forall p: Page, seg: nat, slice: nat :: p in span && LaidOut(p, span[p], seg, slice) ==>
      OffsetsWritten(span[p], seg, slice, offset)
  }

  ghost predicate OffsetsWritten(g: Span, seg: nat, slice: nat, offset: nat -> nat) {
    forall i: nat :: i < |g.blocks| ==>
      offset(PageHeaderStart(seg, SliceIdx(slice, g.bsize, i))) == StoredOffset(slice, SliceIdx(slice, g.bsize, i))
  }

  /** The page that `free` computes from a pointer and the offset it reads in the slice header. */
  function FoundPage(ptr: bv64, offset: nat -> nat): int {
    var segment := Val(SegmentPtrFromBlock(ptr));
    if segment > Val(ptr) then 0
    else
      var slice := SlicePagePtrFromBlock(Val(ptr), segment);
      PagePtrSubtractOffset(slice, offset(slice))
  }

  lemma FoundIs(p: Page, g: Span, seg: nat, slice: nat, i: nat, ptr: bv64, offset: nat -> nat)
    requires Regular(g) && LaidOut(p, g, seg, slice) && OffsetsWritten(g, seg, slice, offset)
    requires i < |g.blocks| && Val(ptr) == g.blocks[i]
    ensures FoundPage(ptr, offset) == p
  {
    assert BlockStartAt(seg, slice, g.bsize, i) == BlockStartAt(seg, slice, g.bsize, 0) + i * g.bsize;
    PointerRecovery(seg, slice, g.bsize, i, ptr);
  }

  lemma SpanLaidOut(trace: seq<State>, steps: seq<Step>, i: nat, p: Page)
    requires LaidOutRun(trace, steps) && i < |trace| && p in trace[i].span
    ensures InSomeSegment(p, trace[i].span[p])
  {
    SetUpBefore(trace, steps, i, p);
  }

  /** In every run whose pages are laid out in segments, for every block that exists, the three address
      calculations of `free` find the page the protocol works on, which is also the page of any thread that is
      freeing the block. */
  lemma FreeFindsPage(trace: seq<State>, steps: seq<Step>, i: nat, b: Addr, ptr: bv64, offset: nat -> nat)
    requires LaidOutRun(trace, steps) && i < |trace| && HeadersWritten(trace[i].span, offset)
    requires !Plc(trace[i].place, b).Unborn? && Val(ptr) == b
    ensures FoundPage(ptr, offset) == PageOf(trace[i].span, b)
    ensures forall t :: Holds(Fr(trace[i].freers, t)) && Fr(trace[i].freers, t).b == b ==>
              Fr(trace[i].freers, t).p == FoundPage(ptr, offset)
  {
    RunKeepsInv(trace, steps, i);
    FindsHome(trace, steps, i, b, ptr, offset);
    PageOfIs(trace[i], b);
    forall t | Holds(Fr(trace[i].freers, t)) && Fr(trace[i].freers, t).b == b
      ensures Fr(trace[i].freers, t).p == Home(trace[i].home, b)
    {
      assert ThreadInv(trace[i], t);
    }
  }

  lemma FindsHome(trace: seq<State>, steps: seq<Step>, i: nat, b: Addr, ptr: bv64, offset: nat -> nat)
    requires LaidOutRun(trace, steps) && i < |trace| && HeadersWritten(trace[i].span, offset)
    requires Inv(trace[i]) && !Plc(trace[i].place, b).Unborn? && Val(ptr) == b
    ensures FoundPage(ptr, offset) == Home(trace[i].home, b)
  {
    var s := trace[i];
    var p := Home(s.home, b);
    assert BlockInv(s, b) && RegularInv(s, p);
    SpanLaidOut(trace, steps, i, p);
    var seg: nat, slice: nat :| LaidOut(p, s.span[p], seg, slice);
    FoundIs(p, s.span[p], seg, slice, IndexOf(s.span[p], b), ptr, offset);
  }
}
