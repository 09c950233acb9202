/**
 * A page's atomic word: the head of `thread_free` and the delay state packed into 64 bits.
 *
 * The bit operations on the packed word simulate operations on a (pointer, delay) pair, each
 * changing only the intended component, over any sequence of atomic accesses.
 */
module PackedWord {
  import opened MachineWord
  import opened Protocol

  function Code(d: Delay): bv64 {
    match d
    case UseDelayedFree => 0
    case Freeing => 1
    case NoDelayedFree => 2
    case NeverDelayedFree => 3
  }

  function Decode(c: bv64): Delay {
    if c == 0 then UseDelayedFree else if c == 1 then Freeing else if c == 2 then NoDelayedFree else NeverDelayedFree
  }

  // ---- The operations of the program ----

  function GetDelay(v: bv64): bv64 { v % 4 }
  function GetPtr(v: bv64): bv64 { v & !3 }
  function SetPtr(v: bv64, ptr: bv64): bv64 { (v & 3) | ptr }
  function SetFreeing(v: bv64): bv64 { (v & !3) | 1 }
  function SetDelay(v: bv64, d: bv64): bv64 { (v & !3) | d }

  /** The pair a packed word stands for. */
  function Unpack(v: bv64): Word { Word(Val(v & !3), Decode(v & 3)) }

  ghost predicate Aligned(ptr: bv64) { ptr & 3 == 0 }

  // ---- The encoding ----

  lemma MaskTwo()
    ensures IsMask(3, 2) && Pow2(2) == 4
  {
    assert Half(3) == 1 && Half(1) == 0;
    assert IsMask(1, 1);
  }

  /** The components by arithmetic: the word is the pointer plus the delay code. */
  lemma UnpackArithmetic(v: bv64)
    ensures Unpack(v).ptr == Val(v) - Val(v) % 4
    ensures Val(Code(Unpack(v).delay)) == Val(v) % 4
    ensures Val(v) == Unpack(v).ptr + Val(Code(Unpack(v).delay))
  {
    PtrArithmetic(v);
    DelayArithmetic(v);
  }

  lemma PtrArithmetic(v: bv64)
    ensures Unpack(v).ptr == Val(v) - Val(v) % 4
  {
    MaskTwo();
    ClearTwo(v, 3, v & !3);
  }

  lemma ClearTwo(v: bv64, m: bv64, r: bv64)
    requires IsMask(m, 2) && Pow2(2) == 4 && r == v & !m
    ensures Val(r) == Val(v) - Val(v) % 4
  {
    ValClear(v, m, 2);
  }

  lemma DelayArithmetic(v: bv64)
    ensures Val(Code(Unpack(v).delay)) == Val(v) % 4
  {
    MaskTwo();
    KeepTwo(v, 3, v & 3);
    DecodeCode(v);
  }

  lemma KeepTwo(v: bv64, m: bv64, r: bv64)
    requires IsMask(m, 2) && Pow2(2) == 4 && r == v & m
    ensures Val(r) == Val(v) % 4
  {
    ValMask(v, m, 2);
  }

  lemma DecodeCode(v: bv64)
    ensures Code(Decode(v & 3)) == v & 3
  {
    assert (v & 3) < 4;
  }

  /** Two packed words are equal exactly when the pairs are: comparing packed words compares pairs. */
  lemma UnpackInjective(u: bv64, v: bv64)
    ensures Unpack(u) == Unpack(v) <==> u == v
  {
    if Unpack(u) == Unpack(v) {
      UnpackArithmetic(u);
      UnpackArithmetic(v);
      ValInjective(u, v);
    }
  }

  /** Every pair of a 4-aligned pointer and a delay state has a packed word. */
  lemma PackExists(ptr: bv64, d: Delay)
    requires Aligned(ptr)
    ensures Unpack(ptr | Code(d)) == Word(Val(ptr), d)
  {
    PackBits(ptr, d);
  }

  lemma PackBits(ptr: bv64, d: Delay)
    requires Aligned(ptr)
    ensures (ptr | Code(d)) & !3 == ptr && Decode((ptr | Code(d)) & 3) == d
  {
    LowBits(ptr, Code(d));
  }

  lemma LowBits(ptr: bv64, c: bv64)
    requires ptr & 3 == 0 && c < 4
    ensures (ptr | c) & !3 == ptr && (ptr | c) & 3 == c
  {
  }

  // ---- Each operation changes the intended component only ----

  lemma GetDelayIs(v: bv64)
    ensures GetDelay(v) == Code(Unpack(v).delay)
  {
    assert v % 4 == v & 3;
    DecodeCode(v);
  }

  lemma GetPtrIs(v: bv64)
    ensures Val(GetPtr(v)) == Unpack(v).ptr && Aligned(GetPtr(v))
  {
    assert (v & !3) & 3 == 0;
  }

  lemma SetPtrIs(v: bv64, ptr: bv64)
    requires Aligned(ptr)
    ensures Unpack(SetPtr(v, ptr)) == Unpack(v).(ptr := Val(ptr))
  {
    assert ((v & 3) | ptr) & !3 == ptr;
    assert ((v & 3) | ptr) & 3 == v & 3;
  }

  lemma SetDelayIs(v: bv64, d: Delay)
    ensures Unpack(SetDelay(v, Code(d))) == Unpack(v).(delay := d)
  {
    assert (v & !3) & 3 == 0;
    PackBits(v & !3, d);
  }

  lemma SetFreeingIs(v: bv64)
    ensures Unpack(SetFreeing(v)) == Unpack(v).(delay := Freeing)
  {
    SetDelayIs(v, Freeing);
  }

  /** `fetch_and(3)` clears the pointer and keeps the delay. */
  lemma AndThreeIs(v: bv64)
    ensures Unpack(v & 3) == Unpack(v).(ptr := 0)
  {
    assert (v & 3) & !3 == 0;
    assert (v & 3) & 3 == v & 3;
  }

  /** `fetch_xor(3)` keeps the pointer and complements the delay code. */
  lemma XorThreeIs(v: bv64)
    ensures Unpack(v ^ 3) == Unpack(v).(delay := Protocol.Xor3(Unpack(v).delay))
  {
    XorBits(v);
    XorCode(v & 3);
  }

  lemma XorBits(v: bv64)
    ensures (v ^ 3) & !3 == v & !3 && (v ^ 3) & 3 == (v & 3) ^ 3 && (v & 3) < 4
  {
  }

  lemma XorCode(c: bv64)
    requires c < 4
    ensures Decode(c ^ 3) == Protocol.Xor3(Decode(c))
  {
    assert c == 0 || c == 1 || c == 2 || c == 3;
    assert (0 as bv64) ^ 3 == 3 && (1 as bv64) ^ 3 == 2 && (2 as bv64) ^ 3 == 1 && (3 as bv64) ^ 3 == 0;
  }

  // ---- Whole sequences of accesses ----

  /** The atomic accesses the protocol makes, with the packed words it computed from what it loaded. */
  datatype Access =
    | Load
    | CasPush(seen: bv64, block: bv64)      // compare-exchange (seen, set_ptr(seen, block))
    | CasFreeing(seen: bv64)                // compare-exchange (seen, set_freeing(seen))
    | CasUse(seen: bv64)                    // compare-exchange (seen, set_delay(seen, 0))
    | TakeList                              // fetch_and(3)
    | LeaveFreeing                          // fetch_xor(3)

  ghost predicate AccessOk(a: Access) { a.CasPush? ==> Aligned(a.block) }

  /** The new packed word and what the access returns: the old word, and whether it succeeded. */
  function AccessBits(v: bv64, a: Access): (bv64, bv64, bool) {
    match a
    case Load => (v, v, true)
    case CasPush(seen, block) => if v == seen then (SetPtr(seen, block), v, true) else (v, v, false)
    case CasFreeing(seen) => if v == seen then (SetFreeing(seen), v, true) else (v, v, false)
    case CasUse(seen) => if v == seen then (SetDelay(seen, 0), v, true) else (v, v, false)
    case TakeList => (v & 3, v, true)
    case LeaveFreeing => (v ^ 3, v, true)
  }

  /** The same accesses on the pair. */
  function AccessPair(w: Word, a: Access): (Word, Word, bool) {
    match a
    case Load => (w, w, true)
    case CasPush(seen, block) => if w == Unpack(seen) then (w.(ptr := Val(block)), w, true) else (w, w, false)
    case CasFreeing(seen) => if w == Unpack(seen) then (w.(delay := Freeing), w, true) else (w, w, false)
    case CasUse(seen) => if w == Unpack(seen) then (w.(delay := UseDelayedFree), w, true) else (w, w, false)
    case TakeList => (w.(ptr := 0), w, true)
    case LeaveFreeing => (w.(delay := Protocol.Xor3(w.delay)), w, true)
  }

  /** The packed access and the access on the pair agree on the new word, the old word and success. */
  ghost predicate Agree(r: (bv64, bv64, bool), q: (Word, Word, bool)) {
    Unpack(r.0) == q.0 && Unpack(r.1) == q.1 && r.2 == q.2
  }

  lemma CasPushSimulates(v: bv64, seen: bv64, block: bv64)
    requires Aligned(block)
    ensures Agree(AccessBits(v, CasPush(seen, block)), AccessPair(Unpack(v), CasPush(seen, block)))
  {
    UnpackInjective(v, seen);
    SetPtrIs(v, block);
  }

  lemma CasFreeingSimulates(v: bv64, seen: bv64)
    ensures Agree(AccessBits(v, CasFreeing(seen)), AccessPair(Unpack(v), CasFreeing(seen)))
  {
    UnpackInjective(v, seen);
    SetFreeingIs(v);
  }

  lemma CasUseSimulates(v: bv64, seen: bv64)
    ensures Agree(AccessBits(v, CasUse(seen)), AccessPair(Unpack(v), CasUse(seen)))
  {
    UnpackInjective(v, seen);
    SetDelayIs(v, UseDelayedFree);
  }

  lemma AccessSimulates(v: bv64, a: Access)
    requires AccessOk(a)
    ensures Agree(AccessBits(v, a), AccessPair(Unpack(v), a))
  {
    match a
    case Load =>
    case CasPush(seen, block) => CasPushSimulates(v, seen, block);
    case CasFreeing(seen) => CasFreeingSimulates(v, seen);
    case CasUse(seen) => CasUseSimulates(v, seen);
    case TakeList => AndThreeIs(v);
    case LeaveFreeing => XorThreeIs(v);
  }

  function RunBits(v: bv64, accesses: seq<Access>): bv64
    decreases |accesses|
  {
    if accesses == [] then v else RunBits(AccessBits(v, accesses[0]).0, accesses[1..])
  }

  function RunPair(w: Word, accesses: seq<Access>): Word
    decreases |accesses|
  {
    if accesses == [] then w else RunPair(AccessPair(w, accesses[0]).0, accesses[1..])
  }

  /** Any sequence of accesses leaves the packed word standing for what the pair machine computes. */
  lemma {:induction false} PackedRefinesPair(v: bv64, accesses: seq<Access>)
    requires forall i :: 0 <= i < |accesses| ==> AccessOk(accesses[i])
    ensures Unpack(RunBits(v, accesses)) == RunPair(Unpack(v), accesses)
    decreases |accesses|
  {
    if accesses != [] {
      AccessSimulates(v, accesses[0]);
      PackedRefinesPair(AccessBits(v, accesses[0]).0, accesses[1..]);
    }
  }
}
