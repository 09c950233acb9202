/**
 * The accounting of one page on its owner's thread: allocation, local free, collecting and extending.
 */
module PageLists {
  import opened Chains
  import opened FreeList

  datatype Option<T> = None | Some(value: T)

  const MAX_EXTEND_SIZE: nat := 4096
  const MIN_EXTEND: nat := 4

  /** How many blocks `page_extend_free` carves out of a page that is not full. */
  function ExtendAmount(bsize: nat, capacity: nat, reserved: nat): (n: nat)
    requires bsize > 0 && capacity < reserved
    ensures 0 < n <= reserved - capacity
    ensures n <= MIN_EXTEND || n * bsize <= MAX_EXTEND_SIZE
    ensures n < reserved - capacity ==> n >= MIN_EXTEND && (n + 1) * bsize > MAX_EXTEND_SIZE
  {
    var most := if bsize >= MAX_EXTEND_SIZE then MIN_EXTEND else MAX_EXTEND_SIZE / bsize;
    var enough := if most < MIN_EXTEND then MIN_EXTEND else most;
    ExtendBounds(bsize, most, enough);
    if reserved - capacity > enough then enough else reserved - capacity
  }

  lemma ExtendBounds(bsize: nat, most: nat, enough: nat)
    requires bsize > 0
    requires most == if bsize >= MAX_EXTEND_SIZE then MIN_EXTEND else MAX_EXTEND_SIZE / bsize
    requires enough == if most < MIN_EXTEND then MIN_EXTEND else most
    ensures enough >= MIN_EXTEND && (enough + 1) * bsize > MAX_EXTEND_SIZE
    ensures forall n: nat :: n <= enough ==> n <= MIN_EXTEND || n * bsize <= MAX_EXTEND_SIZE
  {
    if bsize < MAX_EXTEND_SIZE {
      MostFits(bsize, most);
      EnoughBounds(bsize, most, enough);
    }
  }

  lemma EnoughBounds(bsize: nat, most: nat, enough: nat)
    requires most * bsize <= MAX_EXTEND_SIZE < (most + 1) * bsize
    requires enough == if most < MIN_EXTEND then MIN_EXTEND else most
    ensures (enough + 1) * bsize > MAX_EXTEND_SIZE
    ensures forall n: nat :: n <= enough ==> n <= MIN_EXTEND || n * bsize <= MAX_EXTEND_SIZE
  {
    assert (enough - most) * bsize >= 0;
    forall n: nat | MIN_EXTEND < n <= enough ensures n * bsize <= MAX_EXTEND_SIZE {
      assert (most - n) * bsize >= 0;
    }
  }

  lemma MostFits(bsize: nat, most: nat)
    requires 0 < bsize < MAX_EXTEND_SIZE && most == MAX_EXTEND_SIZE / bsize
    ensures most * bsize <= MAX_EXTEND_SIZE < (most + 1) * bsize
  {
    assert MAX_EXTEND_SIZE == bsize * most + MAX_EXTEND_SIZE % bsize;
  }

  /** The `free` and `local_free` lists after `page_free_collect`. */
  function Collected(free: seq<Addr>, local: seq<Addr>, thread: seq<Addr>, force: bool): (seq<Addr>, seq<Addr>) {
    var l := thread + local;
    if l == [] then (free, [])
    else if free == [] then (l, [])
    else if force then (l + free, [])
    else (free, l)
  }

  /** Collecting loses nothing, makes the page usable again if any block came back, and when forced leaves
      nothing behind. */
  lemma CollectedKeepsAll(free: seq<Addr>, local: seq<Addr>, thread: seq<Addr>, force: bool)
    ensures var (f, l) := Collected(free, local, thread, force);
            && multiset(f) + multiset(l) == multiset(free) + multiset(local) + multiset(thread)
            && (f == [] <==> free == [] && local == [] && thread == [])
            && (force ==> l == [])
            && (l != [] ==> f == free != [])
  {
    var l := thread + local;
    assert multiset(l) == multiset(thread) + multiset(local);
    assert multiset(l + free) == multiset(l) + multiset(free);
    assert l == [] ==> thread == [] && local == [];
  }

  /** What `used` counts: `out` and the two lists divide the blocks below capacity between them. */
  ghost predicate Divided(all: seq<Addr>, free: seq<Addr>, local: seq<Addr>, out: set<Addr>) {
    NoDup(free + local) && forall b :: DividedAt(all, free, local, out, b)
  }

  ghost predicate DividedAt(all: seq<Addr>, free: seq<Addr>, local: seq<Addr>, out: set<Addr>, b: Addr) {
    && (b in out ==> b !in free && b !in local)
    && (b in all <==> b in out || b in free || b in local)
  }

  /** `used + |free| + |local_free| = capacity`. */
  lemma DividedCount(all: seq<Addr>, free: seq<Addr>, local: seq<Addr>, out: set<Addr>)
    requires Divided(all, free, local, out) && NoDup(all)
    ensures |out| + |free| + |local| == |all|
  {
    ElementsSize(all);
    ElementsSize(free + local);
    forall b ensures b in Elements(all) <==> b in out || b in Elements(free + local)
      ensures b in out ==> b !in Elements(free + local)
    {
      assert DividedAt(all, free, local, out, b);
    }
    assert Elements(all) == out + Elements(free + local);
    assert out * Elements(free + local) == {};
  }

  lemma OthersKeptTrans(m0: map<Addr, Addr>, m1: map<Addr, Addr>, m2: map<Addr, Addr>, t1: seq<Addr>, t2: seq<Addr>)
    requires OthersKept(m0, m1, t1) && OthersKept(m1, m2, t2)
    ensures OthersKept(m0, m2, t1 + t2)
  {
    forall head, l | Chain(m0, head, l) && (forall b :: b in l ==> b !in t1 + t2)
      ensures Chain(m2, head, l)
    {
      assert forall b :: b in l ==> b !in t1;
      assert Chain(m1, head, l);
    }
  }

  lemma OthersKeptTwice(
    m0: map<Addr, Addr>, m1: map<Addr, Addr>, m2: map<Addr, Addr>, t: seq<Addr>, l: seq<Addr>)
    requires OthersKept(m0, m1, t) && OthersKept(m1, m2, t + l)
    ensures OthersKept(m0, m2, t + l)
  {
    OthersKeptTrans(m0, m1, m2, t, t + l);
    assert forall b :: b in t + (t + l) ==> b in t + l;
  }

  lemma OtherChain(mem: map<Addr, Addr>, mem': map<Addr, Addr>, touched: seq<Addr>, head: Addr, l: seq<Addr>)
    requires OthersKept(mem, mem', touched) && Chain(mem, head, l) && forall b :: b in l ==> b !in touched
    ensures Chain(mem', head, l)
  {
  }

  lemma NothingTaken(m: map<Addr, Addr>, t: seq<Addr>, l: seq<Addr>)
    requires t == []
    ensures OthersKept(m, m, t) && t + l == l && Elements(t) == {}
  {
    OthersKeptBy(m, m, t);
  }

  /** Moving `local_free` after the list of the other threads has joined it. */
  lemma CollectedTwice(free: seq<Addr>, local: seq<Addr>, thread: seq<Addr>, force: bool)
    ensures Collected(free, thread + local, [], force) == Collected(free, local, thread, force)
  {
    assert [] + (thread + local) == thread + local;
  }

  lemma PushDivided(all: seq<Addr>, free: seq<Addr>, local: seq<Addr>, out: set<Addr>, b: Addr)
    requires Divided(all, free, local, out) && b in out
    ensures Divided(all, [b] + free, local, out - {b})
  {
    assert ([b] + free) + local == [b] + (free + local);
    assert DividedAt(all, free, local, out, b);
    NoDupConcat([b], free + local);
    forall c ensures DividedAt(all, [b] + free, local, out - {b}, c) { assert DividedAt(all, free, local, out, c); }
  }

  lemma PopDivided(all: seq<Addr>, free: seq<Addr>, local: seq<Addr>, out: set<Addr>, b: Addr)
    requires Divided(all, [b] + free, local, out)
    ensures Divided(all, free, local, out + {b}) && b !in out && b in all
  {
    var l := [b] + free + local;
    assert l == [b] + (free + local);
    assert (free + local) == l[1..];
    assert l[0] == b && b in l;
    forall i, j | 0 <= i < j < |free + local| ensures (free + local)[i] != (free + local)[j] {
      assert l[i + 1] != l[j + 1];
    }
    forall i | 0 <= i < |free + local| ensures (free + local)[i] != b { assert l[0] != l[i + 1]; }
    assert b !in free + local;
    forall c ensures DividedAt(all, free, local, out + {b}, c) { assert DividedAt(all, [b] + free, local, out, c); }
    assert DividedAt(all, [b] + free, local, out, b);
  }

  lemma BackDisjoint(all: seq<Addr>, free: seq<Addr>, local: seq<Addr>, out: set<Addr>, back: seq<Addr>)
    requires Divided(all, free, local, out) && forall b :: b in back ==> b in out
    ensures forall b :: b in free ==> b !in back
    ensures forall b :: b in local ==> b !in back
  {
    forall b | b in back ensures b !in free && b !in local { assert DividedAt(all, free, local, out, b); }
  }

  /** Blocks that were out come back in front of `local_free`. */
  lemma ReturnDivided(all: seq<Addr>, free: seq<Addr>, local: seq<Addr>, out: set<Addr>, back: seq<Addr>)
    requires Divided(all, free, local, out) && NoDup(back) && forall b :: b in back ==> b in out
    ensures Divided(all, free, back + local, out - Elements(back))
    ensures |out - Elements(back)| == |out| - |back|
  {
    ElementsSize(back);
    assert Elements(back) <= out;
    BackDisjoint(all, free, local, out, back);
    NoDupConcat(back, free + local);
    SwapNoDup(back, free, local);
    forall b ensures DividedAt(all, free, back + local, out - Elements(back), b) {
      assert DividedAt(all, free, local, out, b);
    }
  }

  lemma SwapNoDup(x: seq<Addr>, y: seq<Addr>, z: seq<Addr>)
    requires NoDup(x + (y + z))
    ensures NoDup(y + (x + z))
  {
    var l, r := x + (y + z), y + (x + z);
    forall i, j | 0 <= i < j < |r| ensures r[i] != r[j] {
      var i' := if i < |y| then i + |x| else if i < |y| + |x| then i - |y| else i;
      var j' := if j < |y| then j + |x| else if j < |y| + |x| then j - |y| else j;
      assert l[i'] == r[i] && l[j'] == r[j] && i' != j';
    }
  }

  /** Blocks move between the two lists. */
  lemma SameDivided(
    all: seq<Addr>, free: seq<Addr>, local: seq<Addr>, free': seq<Addr>, local': seq<Addr>, out: set<Addr>)
    requires Divided(all, free, local, out) && NoDup(free' + local')
    requires forall b :: b in free' || b in local' <==> b in free || b in local
    ensures Divided(all, free', local', out)
  {
    forall b ensures DividedAt(all, free', local', out, b) { assert DividedAt(all, free, local, out, b); }
  }

  lemma ExtendDivided(all: seq<Addr>, more: seq<Addr>, free: seq<Addr>, local: seq<Addr>, out: set<Addr>)
    requires Divided(all, free, local, out) && NoDup(all + more)
    ensures Divided(all + more, more + free, local, out)
  {
    assert (more + free) + local == more + (free + local);
    NoDupSplit(all, more);
    forall b | b in more ensures b !in out && b !in free && b !in local { assert DividedAt(all, free, local, out, b); }
    NoDupConcat(more, free + local);
    forall b ensures DividedAt(all + more, more + free, local, out, b) { assert DividedAt(all, free, local, out, b); }
  }

  lemma NoDupSplit(x: seq<Addr>, y: seq<Addr>)
    requires NoDup(x + y)
    ensures NoDup(y) && forall b :: b in y ==> b !in x
  {
    var l := x + y;
    forall i, j | 0 <= i < j < |y| ensures y[i] != y[j] { assert l[|x| + i] != l[|x| + j]; }
    forall i, j | 0 <= i < |x| && 0 <= j < |y| ensures x[i] != y[j] { assert l[i] != l[|x| + j]; }
  }

  lemma DividedLists(all: seq<Addr>, free: seq<Addr>, local: seq<Addr>, out: set<Addr>)
    requires Divided(all, free, local, out)
    ensures forall b :: b in free ==> b !in local
  {
    NoDupSplit(free, local);
  }

  class Page {
    const start: Addr
    const bsize: nat
    const reserved: nat
    var capacity: nat
    var used: nat
    var free: LL
    var localFree: LL
    /** The blocks on neither list: allocated, or on their way back from other threads. */
    ghost var out: set<Addr>

    ghost function Blocks(): seq<Addr>
      reads this
    {
      Contiguous(start, bsize, capacity)
    }

    ghost predicate Valid(m: Memory)
      reads this, free, localFree, m
    {
      && start > 0 && bsize > 0 && capacity <= reserved
      && free != localFree && free.Valid(m) && localFree.Valid(m)
      && Divided(Blocks(), free.blocks, localFree.blocks, out)
      && used == |out|
    }

    constructor (m: Memory, start: Addr, bsize: nat, reserved: nat)
      requires start > 0 && bsize > 0
      ensures Valid(m) && fresh(free) && fresh(localFree)
      ensures this.start == start && this.bsize == bsize && this.reserved == reserved
      ensures capacity == 0 && out == {} && free.blocks == [] && localFree.blocks == []
    {
      this.start, this.bsize, this.reserved := start, bsize, reserved;
      capacity, used, out := 0, 0, {};
      free := new LL();
      localFree := new LL();
    }

    /** At every operation boundary. */
    lemma Counts(m: Memory)
      requires Valid(m)
      ensures used + |free.blocks| + |localFree.blocks| == capacity
    {
      ContiguousNoDup(start, bsize, capacity);
      DividedCount(Blocks(), free.blocks, localFree.blocks, out);
    }

    /** `page_malloc`: the first free block, or nothing when the free list is empty, which the caller then
        leaves to `malloc_generic`. */
    method Malloc(m: Memory) returns (r: Option<Addr>)
      requires Valid(m)
      modifies this, free
      ensures Valid(m) && free == old(free) && localFree == old(localFree) && capacity == old(capacity)
      ensures localFree.blocks == old(localFree.blocks)
      ensures r.None? <==> old(free.blocks) == []
      ensures r.None? ==> free.blocks == [] && out == old(out) && used == old(used)
      ensures r.Some? ==>
                && old(free.blocks) == [r.value] + free.blocks
                && r.value in Blocks() && r.value !in old(out)
                && out == old(out) + {r.value} && used == old(used) + 1
    {
      if free.first == NULL {
        return None;
      }
      var b := free.PopBlock(m);
      PopDivided(Blocks(), free.blocks, localFree.blocks, out, b);
      used := used + 1;
      out := out + {b};
      return Some(b);
    }

    /** `free_block` on the owner's thread: the block goes to `free`, and `used` does not underflow. */
    method FreeBlock(m: Memory, b: Addr)
      requires Valid(m) && b in out
      modifies this, free, m
      ensures Valid(m) && free == old(free) && localFree == old(localFree) && capacity == old(capacity)
      ensures free.blocks == [b] + old(free.blocks)
      ensures out == old(out) - {b} && used == old(used) - 1
      ensures OthersKept(old(m.next), m.next, [b])
    {
      ghost var all, f, l := Blocks(), free.blocks, localFree.blocks;
      assert DividedAt(all, f, l, out, b);
      BlockNotNull(b);
      PushDivided(all, f, l, out, b);
      free.InsertBlock(m, b);
      assert Chain(m.next, localFree.first, l);
      used := used - 1;
      out := out - {b};
    }

    lemma BlockNotNull(b: Addr)
      requires start > 0 && bsize > 0 && b in Blocks()
      ensures b != NULL
    {
      ContiguousNoDup(start, bsize, capacity);
    }

    /** `page_thread_free_collect`: the list taken from other threads goes in front of `local_free`. */
    method ThreadFreeCollect(m: Memory, taken: LL)
      requires Valid(m) && taken != free && taken != localFree && taken.Valid(m)
      requires forall b :: b in taken.blocks ==> b in out
      modifies this, localFree, taken, m
      ensures Valid(m) && free == old(free) && localFree == old(localFree) && capacity == old(capacity)
      ensures taken.Valid(m) && taken.blocks == [] && free.blocks == old(free.blocks)
      ensures localFree.blocks == old(taken.blocks) + old(localFree.blocks)
      ensures out == old(out) - Elements(old(taken.blocks)) && used == old(used) - |old(taken.blocks)|
      ensures OthersKept(old(m.next), m.next, old(taken.blocks))
    {
      ghost var all, f, l, back := Blocks(), free.blocks, localFree.blocks, taken.blocks;
      ghost var m0 := m.next;
      ReturnDivided(all, f, l, out, back);
      BackDisjoint(all, f, l, out, back);
      out := out - Elements(back);
      if taken.first == NULL {
        NothingTaken(m0, back, l);
      } else {
        var count := localFree.Append(m, taken);
        OtherChain(m0, m.next, back, free.first, f);
        used := used - count;
      }
    }

    /** `page_free_collect`, with the list that other threads have pushed so far. */
    method FreeCollect(m: Memory, thread: LL, force: bool)
      requires Valid(m) && thread != free && thread != localFree && thread.Valid(m)
      requires forall b :: b in thread.blocks ==> b in out
      modifies this, free, localFree, thread, m
      ensures Valid(m) && thread.Valid(m) && thread.blocks == [] && capacity == old(capacity)
      ensures (free.blocks, localFree.blocks)
              == Collected(old(free.blocks), old(localFree.blocks), old(thread.blocks), force)
      ensures out == old(out) - Elements(old(thread.blocks)) && used == old(used) - |old(thread.blocks)|
      ensures OthersKept(old(m.next), m.next, old(thread.blocks) + old(localFree.blocks))
    {
      ghost var f, t, l := free.blocks, thread.blocks, localFree.blocks;
      ghost var m0 := m.next;
      if force || thread.first != NULL {
        ThreadFreeCollect(m, thread);
      } else {
        NothingTaken(m0, t, l);
      }
      ghost var m1 := m.next;
      MoveLocalFree(m, force);
      CollectedTwice(f, l, t, force);
      OthersKeptTwice(m0, m1, m.next, t, l);
    }

    /** The second half of `page_free_collect`. */
    method MoveLocalFree(m: Memory, force: bool)
      requires Valid(m)
      modifies this, free, localFree, m
      ensures Valid(m) && capacity == old(capacity) && out == old(out) && used == old(used)
      ensures {free, localFree} <= old({free, localFree}) || fresh(localFree)
      ensures (free.blocks, localFree.blocks) == Collected(old(free.blocks), old(localFree.blocks), [], force)
      ensures OthersKept(old(m.next), m.next, old(localFree.blocks))
    {
      ghost var f, l := free.blocks, localFree.blocks;
      MoveDivided(Blocks(), f, l, out);
      OthersKeptBy(m.next, m.next, l);
      assert [] + l == l;
      if localFree.first != NULL {
        if free.first == NULL {
          free := localFree;
          localFree := new LL();
        } else if force {
          var _ := free.Append(m, localFree);
        }
      }
    }

    /** `page_extend_free`: carve out more blocks, in address order, in front of the free list. */
    method ExtendFree(m: Memory)
      requires Valid(m)
      modifies this, free, m
      ensures Valid(m) && free == old(free) && localFree == old(localFree)
      ensures localFree.blocks == old(localFree.blocks) && out == old(out) && used == old(used)
      ensures old(capacity) == reserved ==>
                capacity == old(capacity) && free.blocks == old(free.blocks) && m.next == old(m.next)
      ensures old(capacity) < reserved ==>
                && capacity == old(capacity) + ExtendAmount(bsize, old(capacity), reserved)
                && free.blocks == Blocks()[old(capacity)..] + old(free.blocks)
                && OthersKept(old(m.next), m.next, Blocks()[old(capacity)..])
    {
      if capacity >= reserved {
        return;
      }
      var extend := ExtendAmount(bsize, capacity, reserved);
      FreeListExtend(m, extend);
    }

    /** `page_free_list_extend`. */
    method FreeListExtend(m: Memory, extend: nat)
      requires Valid(m) && 0 < extend <= reserved - capacity
      modifies this, free, m
      ensures Valid(m) && free == old(free) && localFree == old(localFree)
      ensures localFree.blocks == old(localFree.blocks) && out == old(out) && used == old(used)
      ensures capacity == old(capacity) + extend
      ensures free.blocks == Blocks()[old(capacity)..] + old(free.blocks)
      ensures OthersKept(old(m.next), m.next, Blocks()[old(capacity)..])
    {
      ghost var all, l := Blocks(), localFree.blocks;
      var first := BlockStart(start, bsize, capacity);
      var last := BlockStart(first, bsize, extend - 1);
      ghost var more := Contiguous(first, bsize, extend);
      MoreBlocks(start, bsize, capacity, extend);
      NewBlocks(all, more, free.blocks, l, out);
      free.PrependContiguousBlocks(m, first, last, bsize, extend);
      assert Chain(m.next, localFree.first, l);
      capacity := capacity + extend;
      assert Blocks() == all + more;
    }
  }

  lemma NewBlocks(all: seq<Addr>, more: seq<Addr>, free: seq<Addr>, local: seq<Addr>, out: set<Addr>)
    requires Divided(all, free, local, out) && NoDup(all + more)
    ensures forall b :: b in more ==> b !in free
    ensures forall b :: b in local ==> b !in more
    ensures Divided(all + more, more + free, local, out) && (all + more)[|all|..] == more
  {
    ExtendDivided(all, more, free, local, out);
    NoDupSplit(all, more);
    forall b | b in more ensures b !in free && b !in local { assert DividedAt(all, free, local, out, b); }
  }

  function BlockStart(start: Addr, bsize: nat, i: nat): Addr { start + i * bsize }

  lemma MoreBlocks(start: Addr, bsize: nat, capacity: nat, extend: nat)
    requires start > 0 && bsize > 0
    ensures Contiguous(start, bsize, capacity) + Contiguous(BlockStart(start, bsize, capacity), bsize, extend)
            == Contiguous(start, bsize, capacity + extend)
    ensures NoDup(Contiguous(start, bsize, capacity + extend))
  {
    ContiguousNoDup(start, bsize, capacity + extend);
    var x, y, z := Contiguous(start, bsize, capacity), Contiguous(start + capacity * bsize, bsize, extend),
                   Contiguous(start, bsize, capacity + extend);
    forall i | 0 <= i < |z| ensures (x + y)[i] == z[i] {
      if i >= capacity {
        assert start + capacity * bsize + (i - capacity) * bsize == start + i * bsize;
      }
    }
  }

  /** Either way of moving `local_free` to `free` keeps the division. */
  lemma MoveDivided(all: seq<Addr>, free: seq<Addr>, local: seq<Addr>, out: set<Addr>)
    requires Divided(all, free, local, out)
    ensures Divided(all, local + free, [], out)
    ensures free == [] ==> Divided(all, local, [], out)
    ensures forall b :: b in free ==> b !in local
  {
    DividedLists(all, free, local, out);
    SwapTwo(free, local);
    assert (local + free) + [] == local + free;
    SameDivided(all, free, local, local + free, [], out);
    if free == [] {
      assert local + free == local;
    }
  }

  lemma SwapTwo(x: seq<Addr>, y: seq<Addr>)
    requires NoDup(x + y)
    ensures NoDup(y + x)
  {
    assert x + (y + []) == x + y && y + (x + []) == y + x;
    SwapNoDup(x, y, []);
  }
}
