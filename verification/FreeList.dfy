/**
 * Intrusive free lists, updated in place through a memory that all lists share.
 */
module FreeList {
  import opened Chains

  /** The memory: the first word of every block. */
  class Memory {
    var next: map<Addr, Addr>

    constructor ()
      ensures next == map[]
    {
      next := map[];
    }
  }

  /** Every list in `mem` that avoids the blocks in `touched` is the same list in `mem'`. */
  ghost predicate OthersKept(mem: map<Addr, Addr>, mem': map<Addr, Addr>, touched: seq<Addr>) {
    forall head, l :: Chain(mem, head, l) && (forall b :: b in l ==> b !in touched) ==> Chain(mem', head, l)
  }

  lemma OthersKeptBy(mem: map<Addr, Addr>, mem': map<Addr, Addr>, touched: seq<Addr>)
    requires forall a :: a !in touched ==> Next(mem', a) == Next(mem, a)
    ensures OthersKept(mem, mem', touched)
  {
    forall head, l | Chain(mem, head, l) && (forall b :: b in l ==> b !in touched)
      ensures Chain(mem', head, l)
    {
      ChainFrame(mem, mem', head, l);
    }
  }

  /** The addresses `start`, `start + bsize`, ..., `n` of them. */
  function Contiguous(start: Addr, bsize: nat, n: nat): (s: seq<Addr>)
    ensures |s| == n
  {
    seq(n, i requires 0 <= i < n => start + i * bsize)
  }

  lemma ContiguousOrder(start: Addr, bsize: nat, i: nat, j: nat)
    requires bsize > 0 && i < j
    ensures start + i * bsize + bsize <= start + j * bsize
  {
    assert j * bsize == i * bsize + (j - i) * bsize;
    assert (j - i) * bsize >= bsize by { assert (j - i - 1) * bsize >= 0; }
  }

  lemma ContiguousNoDup(start: Addr, bsize: nat, n: nat)
    requires start > 0 && bsize > 0
    ensures NoDup(Contiguous(start, bsize, n)) && NULL !in Contiguous(start, bsize, n)
  {
    var s := Contiguous(start, bsize, n);
    forall i, j | 0 <= i < j < n ensures s[i] != s[j] { ContiguousOrder(start, bsize, i, j); }
    forall i | 0 <= i < n ensures s[i] != NULL { assert i * bsize >= 0; }
  }

  class LL {
    var first: Addr
    /** The blocks of the list, in order; determined by `first` and the memory. */
    ghost var blocks: seq<Addr>

    ghost predicate Valid(m: Memory)
      reads this, m
    {
      Chain(m.next, first, blocks) && NoDup(blocks)
    }

    constructor ()
      ensures first == NULL && blocks == []
    {
      first := NULL;
      blocks := [];
    }

    method IsEmpty(m: Memory) returns (e: bool)
      requires Valid(m)
      ensures e <==> blocks == []
    {
      e := first == NULL;
    }

    method InsertBlock(m: Memory, b: Addr)
      requires Valid(m) && b != NULL && b !in blocks
      modifies this, m
      ensures Valid(m) && blocks == [b] + old(blocks)
      ensures OthersKept(old(m.next), m.next, [b])
    {
      ghost var before := m.next;
      m.next := m.next[b := first];
      OthersKeptBy(before, m.next, [b]);
      ChainFrame(before, m.next, first, blocks);
      ChainPush(m.next, first, blocks, b);
      NoDupConcat([b], blocks);
      first := b;
      blocks := [b] + blocks;
    }

    method PopBlock(m: Memory) returns (b: Addr)
      requires Valid(m) && blocks != []
      modifies this
      ensures Valid(m)
      ensures old(blocks) == [b] + blocks && b !in blocks && b != NULL
    {
      b := first;
      ChainTail(m.next, first, blocks);
      first := Next(m.next, b);
      blocks := blocks[1..];
    }

    /** Put all blocks of `other` in front of this list and empty `other`, walking `other` to find its
        last block; the number of blocks moved is returned. */
    method Append(m: Memory, other: LL) returns (count: nat)
      requires other != this && Valid(m) && other.Valid(m)
      requires forall b :: b in blocks ==> b !in other.blocks
      modifies this, other, m
      ensures Valid(m) && other.Valid(m)
      ensures blocks == old(other.blocks) + old(blocks)
      ensures other.blocks == [] && count == |old(other.blocks)|
      ensures OthersKept(old(m.next), m.next, old(other.blocks))
    {
      if other.first == NULL {
        OthersKeptBy(m.next, m.next, other.blocks);
        assert old(other.blocks) + old(blocks) == old(blocks);
        return 0;
      }
      count := 1;
      var p := other.first;
      while Next(m.next, p) != NULL
        invariant 1 <= count <= |other.blocks|
        invariant p == other.blocks[count - 1]
        decreases |other.blocks| - count
      {
        assert Next(m.next, p) == At(other.blocks, count);
        count := count + 1;
        p := Next(m.next, p);
      }
      assert At(other.blocks, count) == NULL;
      assert count == |other.blocks|;
      JoinLists(m.next, first, blocks, other.first, other.blocks);
      ghost var before := m.next;
      m.next := m.next[p := first];
      OthersKeptBy(before, m.next, other.blocks);
      first := other.first;
      blocks := other.blocks + blocks;
      other.first := NULL;
      other.blocks := [];
    }

    /** Link the blocks `start`, `start + bsize`, ..., `last` one to the next in front of this list. */
    method PrependContiguousBlocks(m: Memory, start: Addr, last: Addr, bsize: nat, ghost n: nat)
      requires Valid(m) && start > 0 && bsize > 0 && n > 0
      requires last == start + (n - 1) * bsize
      requires forall b :: b in Contiguous(start, bsize, n) ==> b !in blocks
      modifies this, m
      ensures Valid(m)
      ensures blocks == Contiguous(start, bsize, n) + old(blocks)
      ensures OthersKept(old(m.next), m.next, Contiguous(start, bsize, n))
    {
      ghost var before := m.next;
      ghost var run := Contiguous(start, bsize, n);
      ContiguousRun(start, bsize, n, run);
      LinkBlocks(m, start, last, bsize, first, run);
      OthersKeptBy(before, m.next, run);
      LinkedRun(before, m.next, run, first, blocks);
      first := start;
      blocks := run + blocks;
    }

    method MakeEmpty()
      modifies this
      ensures first == NULL && blocks == []
      ensures forall m: Memory :: Valid(m)
    {
      first := NULL;
      blocks := [];
    }
  }

  /** The writes of `PrependContiguousBlocks`: each block of the run links to the next, the last one to
      `tail`. */
  method LinkBlocks(m: Memory, start: Addr, last: Addr, bsize: nat, tail: Addr, ghost run: seq<Addr>)
    requires IsRun(run, bsize) && run[0] == start && run[|run| - 1] == last
    modifies m
    ensures LinkedUpTo(m.next, run, |run| - 1) && Next(m.next, last) == tail
    ensures forall a :: a !in run ==> Next(m.next, a) == Next(old(m.next), a)
  {
    var block := start;
    ghost var i: nat := 0;
    while block < last
      invariant i < |run| && block == run[i]
      invariant LinkedUpTo(m.next, run, i)
      invariant forall a :: a !in run ==> Next(m.next, a) == Next(old(m.next), a)
      decreases last - block
    {
      RunLinks(m.next, run, bsize, i);
      m.next := m.next[block := block + bsize];
      block := block + bsize;
      i := i + 1;
    }
    RunEnds(run, bsize, i);
    EndLinked(m.next, run, tail);
    m.next := m.next[block := tail];
  }

  lemma JoinLists(mem: map<Addr, Addr>, first: Addr, l: seq<Addr>, otherFirst: Addr, other: seq<Addr>)
    requires Chain(mem, first, l) && NoDup(l) && Chain(mem, otherFirst, other) && NoDup(other) && other != []
    requires forall b :: b in l ==> b !in other
    ensures Chain(mem[other[|other| - 1] := first], otherFirst, other + l) && NoDup(other + l)
  {
    ChainJoin(mem, other, l, otherFirst, first);
    NoDupConcat(other, l);
  }

  /** Ascending addresses `bsize` apart. */
  ghost predicate IsRun(run: seq<Addr>, bsize: nat) {
    && bsize > 0 && run != [] && NoDup(run) && NULL !in run
    && (forall i :: 0 < i < |run| ==> run[i] == run[i - 1] + bsize)
    && (forall i :: 0 <= i < |run| - 1 ==> run[i] < run[|run| - 1])
  }

  lemma ContiguousRun(start: Addr, bsize: nat, n: nat, run: seq<Addr>)
    requires start > 0 && bsize > 0 && n > 0 && run == Contiguous(start, bsize, n)
    ensures IsRun(run, bsize) && |run| == n && run[0] == start && run[n - 1] == start + (n - 1) * bsize
  {
    ContiguousNoDup(start, bsize, n);
    forall i | 0 < i < n ensures run[i] == run[i - 1] + bsize {
      assert i * bsize == (i - 1) * bsize + bsize;
    }
    forall i | 0 <= i < n - 1 ensures run[i] < run[n - 1] { ContiguousOrder(start, bsize, i, n - 1); }
  }

  /** The first `i` blocks of the run link each to the next. */
  ghost predicate LinkedUpTo(mem: map<Addr, Addr>, run: seq<Addr>, i: nat) {
    forall k :: 0 <= k < i && k < |run| - 1 ==> Next(mem, run[k]) == run[k + 1]
  }

  lemma RunLinks(mem: map<Addr, Addr>, run: seq<Addr>, bsize: nat, i: nat)
    requires IsRun(run, bsize) && i < |run| && run[i] < run[|run| - 1] && LinkedUpTo(mem, run, i)
    ensures i + 1 < |run| && run[i + 1] == run[i] + bsize
    ensures LinkedUpTo(mem[run[i] := run[i] + bsize], run, i + 1)
  {
    assert run[i + 1] == run[i + 1 - 1] + bsize;
  }

  lemma RunEnds(run: seq<Addr>, bsize: nat, i: nat)
    requires IsRun(run, bsize) && i < |run| && run[i] >= run[|run| - 1]
    ensures i == |run| - 1
  {
  }

  lemma EndLinked(mem: map<Addr, Addr>, run: seq<Addr>, first: Addr)
    requires run != [] && NoDup(run) && LinkedUpTo(mem, run, |run| - 1)
    ensures LinkedUpTo(mem[run[|run| - 1] := first], run, |run| - 1)
  {
  }

  /** A run whose blocks are linked one to the next and whose last block links to `first` precedes it. */
  lemma LinkedRun(before: map<Addr, Addr>, mem: map<Addr, Addr>, run: seq<Addr>, first: Addr, l: seq<Addr>)
    requires run != [] && NoDup(run) && NULL !in run && Chain(before, first, l) && NoDup(l)
    requires forall b :: b in run ==> b !in l
    requires LinkedUpTo(mem, run, |run| - 1)
    requires Next(mem, run[|run| - 1]) == first
    requires forall a :: a !in run ==> Next(mem, a) == Next(before, a)
    ensures Chain(mem, run[0], run + l) && NoDup(run + l)
  {
    var r := run + l;
    NoDupConcat(run, l);
    forall i | 0 <= i < |r| ensures r[i] != NULL && Next(mem, r[i]) == At(r, i + 1) {
      if i < |run| {
        assert r[i] in run;
      } else {
        assert r[i] == l[i - |run|] && r[i] in l;
        assert At(r, i + 1) == At(l, i - |run| + 1);
      }
    }
  }
}
