/**
 * Intrusive lists as chains threaded through one shared memory.
 *
 * A free block stores, in its first word, the address of the next block of the
 * list it is on.  `mem` gives that word for every address that was ever written;
 * address 0 is the null pointer.
 */
module Chains {

  type Addr = nat

  const NULL: Addr := 0

  /** The word stored in the first bytes of the block at `a`. */
  function Next(mem: map<Addr, Addr>, a: Addr): Addr {
    if a in mem then mem[a] else NULL
  }

  /** The `i`-th element of a list, or null past its end. */
  function At(l: seq<Addr>, i: nat): Addr {
    if i < |l| then l[i] else NULL
  }

  /** Following `Next` from `head` visits exactly the blocks of `l`, in order, and then null. */
  ghost predicate Chain(mem: map<Addr, Addr>, head: Addr, l: seq<Addr>) {
    && head == At(l, 0)
    && forall i :: 0 <= i < |l| ==> l[i] != NULL && Next(mem, l[i]) == At(l, i + 1)
  }

  ghost predicate NoDup(l: seq<Addr>) {
    forall i, j :: 0 <= i < j < |l| ==> l[i] != l[j]
  }

  /** The list a chain denotes is determined by the memory and the head pointer alone. */
  lemma {:induction false} ChainUnique(mem: map<Addr, Addr>, head: Addr, l1: seq<Addr>, l2: seq<Addr>)
    requires Chain(mem, head, l1) && Chain(mem, head, l2)
    ensures l1 == l2
    decreases |l1|
  {
    if |l1| == 0 || |l2| == 0 {
      assert At(l1, 0) == At(l2, 0);
    } else {
      assert l1[0] == l2[0];
      ChainTail(mem, head, l1);
      ChainTail(mem, head, l2);
      ChainUnique(mem, Next(mem, head), l1[1..], l2[1..]);
      assert l1 == [l1[0]] + l1[1..];
      assert l2 == [l2[0]] + l2[1..];
    }
  }

  lemma ChainTail(mem: map<Addr, Addr>, head: Addr, l: seq<Addr>)
    requires Chain(mem, head, l) && l != []
    ensures Chain(mem, Next(mem, head), l[1..])
  {
    var tl := l[1..];
    assert At(tl, 0) == At(l, 1);
    forall i | 0 <= i < |tl| ensures tl[i] != NULL && Next(mem, tl[i]) == At(tl, i + 1) {
      assert tl[i] == l[i + 1];
      assert At(tl, i + 1) == At(l, i + 2);
    }
  }

  /** Writing outside a chain does not disturb it. */
  lemma ChainFrame(mem: map<Addr, Addr>, mem': map<Addr, Addr>, head: Addr, l: seq<Addr>)
    requires Chain(mem, head, l)
    requires forall a :: a in l ==> Next(mem', a) == Next(mem, a)
    ensures Chain(mem', head, l)
  {
  }

  /** Linking `b` to the current head and moving the head to `b` pushes `b`. */
  lemma ChainPush(mem: map<Addr, Addr>, head: Addr, l: seq<Addr>, b: Addr)
    requires Chain(mem, head, l)
    requires b != NULL && Next(mem, b) == head
    ensures Chain(mem, b, [b] + l)
  {
    var r := [b] + l;
    forall i | 0 <= i < |r| ensures r[i] != NULL && Next(mem, r[i]) == At(r, i + 1) {
      if i > 0 {
        assert r[i] == l[i - 1];
        assert At(r, i + 1) == At(l, i);
      } else {
        assert At(r, 1) == At(l, 0);
      }
    }
  }

  /** Redirecting the last link of the front list to the head of the back list joins the two. */
  lemma ChainJoin(mem: map<Addr, Addr>, front: seq<Addr>, back: seq<Addr>, hf: Addr, hb: Addr)
    requires front != [] && NoDup(front)
    requires Chain(mem, hf, front) && Chain(mem, hb, back)
    requires forall b :: b in front ==> b !in back
    ensures Chain(mem[front[|front| - 1] := hb], hf, front + back)
  {
    var last := front[|front| - 1];
    var mem' := mem[last := hb];
    var r := front + back;
    assert At(r, 0) == At(front, 0);
    forall i | 0 <= i < |r| ensures r[i] != NULL && Next(mem', r[i]) == At(r, i + 1) {
      if i < |front| - 1 {
        assert r[i] == front[i] && front[i] != last;
        assert At(r, i + 1) == At(front, i + 1);
      } else if i == |front| - 1 {
        assert At(r, i + 1) == At(back, 0);
      } else {
        assert r[i] == back[i - |front|];
        assert r[i] in back;
        assert At(r, i + 1) == At(back, i - |front| + 1);
      }
    }
  }

  lemma NoDupConcat(front: seq<Addr>, back: seq<Addr>)
    requires NoDup(front) && NoDup(back)
    requires forall b :: b in front ==> b !in back
    ensures NoDup(front + back)
  {
    var r := front + back;
    forall i, j | 0 <= i < j < |r| ensures r[i] != r[j] {
      if i < |front| && |front| <= j {
        assert r[i] in front;
        assert r[j] == back[j - |front|];
        assert r[j] in back;
      }
    }
  }

  /** The memory after linking the blocks of `bs` one to the next and the last one to `tail`. */
  function LinkRun(mem: map<Addr, Addr>, bs: seq<Addr>, tail: Addr): map<Addr, Addr> {
    if bs == [] then mem
    else LinkRun(mem, bs[1..], tail)[bs[0] := if |bs| == 1 then tail else bs[1]]
  }

  lemma {:induction false} LinkRunFrame(mem: map<Addr, Addr>, bs: seq<Addr>, tail: Addr, a: Addr)
    requires a !in bs
    ensures Next(LinkRun(mem, bs, tail), a) == Next(mem, a)
    decreases |bs|
  {
    if bs != [] {
      assert a !in bs[1..];
      LinkRunFrame(mem, bs[1..], tail, a);
    }
  }

  lemma {:induction false} LinkRunAt(mem: map<Addr, Addr>, bs: seq<Addr>, tail: Addr, i: nat)
    requires NoDup(bs) && i < |bs|
    ensures Next(LinkRun(mem, bs, tail), bs[i]) == if i + 1 < |bs| then bs[i + 1] else tail
    decreases |bs|
  {
    if i > 0 {
      var rest := bs[1..];
      assert rest[i - 1] == bs[i];
      LinkRunAt(mem, rest, tail, i - 1);
    }
  }

  /** Linking a run of blocks in front of a list yields the run followed by the list. */
  lemma LinkRunChain(mem: map<Addr, Addr>, bs: seq<Addr>, head: Addr, l: seq<Addr>)
    requires Chain(mem, head, l)
    requires NoDup(bs) && NULL !in bs
    requires forall b :: b in bs ==> b !in l
    ensures Chain(LinkRun(mem, bs, head), At(bs + l, 0), bs + l)
  {
    var m := LinkRun(mem, bs, head);
    var r := bs + l;
    forall i | 0 <= i < |r| ensures r[i] != NULL && Next(m, r[i]) == At(r, i + 1) {
      if i < |bs| {
        assert r[i] in bs;
        LinkRunAt(mem, bs, head, i);
      } else {
        assert r[i] == l[i - |bs|];
        LinkRunFrame(mem, bs, head, r[i]);
        assert At(r, i + 1) == At(l, i - |bs| + 1);
      }
    }
  }

  ghost function Elements(l: seq<Addr>): set<Addr> { set b | b in l }

  lemma {:induction false} ElementsSize(l: seq<Addr>)
    requires NoDup(l)
    ensures |Elements(l)| == |l|
  {
    if l != [] {
      var rest := l[1..];
      ElementsSize(rest);
      assert l == [l[0]] + rest;
      assert Elements(l) == Elements(rest) + {l[0]};
    }
  }

  /** A list without repetition drawn from a finite set is no longer than the set,
      and exhausts the set when it is as long. */
  lemma {:induction false} Pigeonhole(l: seq<Addr>, s: set<Addr>)
    requires NoDup(l) && forall b :: b in l ==> b in s
    ensures |l| <= |s|
    ensures |l| == |s| ==> forall b :: b in s ==> b in l
    decreases |l|
  {
    if l != [] {
      var x := l[0];
      var rest := l[1..];
      forall b | b in rest ensures b in s - {x} { assert b in l; }
      Pigeonhole(rest, s - {x});
      assert l == [x] + rest;
    }
  }
}
