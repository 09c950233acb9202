/**
 * 64-bit machine words and the numbers they stand for.
 *
 * The masks, shifts and decrements the allocator applies to addresses act on bit-vectors; its
 * address arithmetic is about numbers.  `Val` relates the two, bit by bit.
 */
module MachineWord {

  function Bit0(v: bv64): (b: nat)
    ensures b <= 1
  {
    if v & 1 == 1 then 1 else 0
  }

  function Half(v: bv64): bv64 { v >> 1 }

  /** The number a machine word stands for. */
  function Val(v: bv64): nat
    decreases v
  {
    if v == 0 then 0 else Bit0(v) + 2 * Val(Half(v))
  }

  function Pow2(k: nat): nat {
    if k == 0 then 1 else 2 * Pow2(k - 1)
  }

  /** Exactly the low `k` bits of `m` are set. */
  ghost predicate IsMask(m: bv64, k: nat) {
    if k == 0 then m == 0 else Bit0(m) == 1 && IsMask(Half(m), k - 1)
  }

  lemma ValStep(v: bv64)
    ensures Val(v) == Bit0(v) + 2 * Val(Half(v))
  {
  }

  // ---- Words are determined by their numbers ----

  lemma {:induction false} Positive(v: bv64)
    requires v != 0
    ensures Val(v) > 0
    decreases v
  {
    if Half(v) != 0 { Positive(Half(v)); }
  }

  lemma Parts(u: bv64, v: bv64)
    requires Bit0(u) == Bit0(v) && Half(u) == Half(v)
    ensures u == v
  {
  }

  lemma Halves(u: bv64, v: bv64)
    requires Val(u) == Val(v) != 0
    ensures Bit0(u) == Bit0(v) && Val(Half(u)) == Val(Half(v)) < Val(u)
  {
    ValStep(u);
    ValStep(v);
    SameHalf(Bit0(u), Val(Half(u)), Bit0(v), Val(Half(v)));
  }

  lemma SameHalf(a: nat, x: nat, b: nat, y: nat)
    requires a <= 1 && b <= 1 && a + 2 * x == b + 2 * y
    ensures a == b && x == y
  {
  }

  lemma ZeroVal(v: bv64)
    ensures Val(v) == 0 <==> v == 0
  {
    if v != 0 { Positive(v); }
  }

  lemma {:induction false} ValInjective(u: bv64, v: bv64)
    requires Val(u) == Val(v)
    ensures u == v
    decreases Val(u)
  {
    ZeroVal(u);
    ZeroVal(v);
    if Val(u) != 0 {
      Halves(u, v);
      ValInjective(Half(u), Half(v));
      Parts(u, v);
    }
  }

  // ---- Masking is division with remainder ----

  lemma Pow2Positive(k: nat)
    ensures Pow2(k) > 0
  {
  }

  lemma MaskedBits(v: bv64, m: bv64)
    requires Bit0(m) == 1
    ensures Bit0(v & m) == Bit0(v) && Half(v & m) == Half(v) & Half(m)
  {
  }

  lemma RemainderStep(b: nat, x: nat, n: nat)
    requires b <= 1 && n > 0
    ensures (b + 2 * x) % (2 * n) == b + 2 * (x % n)
  {
    var q, r := x / n, x % n;
    assert b + 2 * x == (2 * n) * q + (b + 2 * r) by { assert x == n * q + r; }
    Remainder(b + 2 * x, 2 * n, q, b + 2 * r);
  }

  lemma Remainder(x: nat, n: nat, q: nat, r: nat)
    requires r < n && x == n * q + r
    ensures x % n == r && x / n == q
  {
    var q', r' := x / n, x % n;
    assert n * (q - q') == r' - r;
    MultipleAtLeast(n, q - q');
  }

  lemma MultipleAtLeast(n: int, k: int)
    requires n >= 0
    ensures k >= 1 ==> n * k >= n
    ensures k <= -1 ==> n * k <= -n
  {
    if k >= 1 { assert n * (k - 1) >= 0; }
    if k <= -1 { assert n * (-1 - k) >= 0; }
  }

  /** The low `k` bits of a word are its remainder modulo two to the power `k`. */
  lemma {:induction false} ValMask(v: bv64, m: bv64, k: nat)
    requires IsMask(m, k)
    ensures Pow2(k) > 0 && Val(v & m) == Val(v) % Pow2(k)
    decreases k
  {
    Pow2Positive(k);
    if k == 0 {
      ZeroBits(v);
    } else {
      ValMask(Half(v), Half(m), k - 1);
      MaskStep(v, m, Pow2(k - 1));
    }
  }

  lemma MaskStep(v: bv64, m: bv64, n: nat)
    requires n > 0 && Bit0(m) == 1 && Val(Half(v) & Half(m)) == Val(Half(v)) % n
    ensures Val(v & m) == Val(v) % (2 * n)
  {
    MaskedBits(v, m);
    RemainderStep(Bit0(v), Val(Half(v)), n);
    SplitVal(v, Bit0(v), Val(Half(v)));
    SplitVal(v & m, Bit0(v), Val(Half(v) & Half(m)));
  }

  lemma SplitVal(v: bv64, b: nat, h: nat)
    requires Bit0(v) == b && Val(Half(v)) == h
    ensures Val(v) == b + 2 * h
  {
    ValStep(v);
  }

  lemma ZeroBits(v: bv64)
    ensures v & 0 == 0
  {
  }

  /** `r` is `v` with its low `k` bits cleared. */
  ghost predicate Cleared(v: bv64, r: bv64, k: nat)
    decreases k
  {
    if k == 0 then r == v else Bit0(r) == 0 && Cleared(Half(v), Half(r), k - 1)
  }

  lemma ClearedBits(v: bv64, m: bv64)
    requires Bit0(m) == 1
    ensures Bit0(v & !m) == 0 && Half(v & !m) == Half(v) & !Half(m)
  {
  }

  lemma {:induction false} MaskClears(v: bv64, m: bv64, k: nat)
    requires IsMask(m, k)
    ensures Cleared(v, v & !m, k)
    decreases k
  {
    if k == 0 {
      assert v & !m == v;
    } else {
      MaskClears(Half(v), Half(m), k - 1);
      ClearedBits(v, m);
    }
  }

  lemma {:induction false} ClearedVal(v: bv64, r: bv64, k: nat)
    requires Cleared(v, r, k)
    ensures Pow2(k) > 0 && Val(r) == Val(v) - Val(v) % Pow2(k)
    decreases k
  {
    Pow2Positive(k);
    if k > 0 {
      ClearedVal(Half(v), Half(r), k - 1);
      ValStep(v);
      ValStep(r);
      RemainderStep(Bit0(v), Val(Half(v)), Pow2(k - 1));
    }
  }

  /** Clearing the low `k` bits of a word rounds it down to a multiple of two to the power `k`. */
  lemma ValClear(v: bv64, m: bv64, k: nat)
    requires IsMask(m, k)
    ensures Pow2(k) > 0 && Val(v & !m) == Val(v) - Val(v) % Pow2(k)
  {
    MaskClears(v, m, k);
    ClearedVal(v, v & !m, k);
  }

  // ---- Subtracting one ----

  lemma DecrementOdd(v: bv64)
    requires Bit0(v) == 1
    ensures Bit0(v - 1) == 0 && Half(v - 1) == Half(v)
  {
  }

  lemma DecrementEven(v: bv64)
    requires Bit0(v) == 0 && v != 0
    ensures Bit0(v - 1) == 1 && Half(v - 1) == Half(v) - 1 && Half(v) != 0
  {
  }

  lemma {:induction false} ValDecrement(v: bv64)
    requires v != 0
    ensures Val(v - 1) == Val(v) - 1
    decreases Val(v)
  {
    ZeroVal(v);
    ValStep(v);
    ValStep(v - 1);
    if Bit0(v) == 1 {
      DecrementOdd(v);
    } else {
      DecrementEven(v);
      ValDecrement(Half(v));
    }
  }

  // ---- Powers of two ----

  lemma LowestOdd(y: bv64, m: bv64)
    requires Bit0(y) == 1 && m == y - 1
    ensures y & m == 0 <==> m == 0
  {
  }

  lemma LowestEven(y: bv64, m: bv64)
    requires Bit0(y) == 0 && y != 0 && m == y - 1
    ensures y & m == 0 <==> Half(y) & (Half(y) - 1) == 0
  {
  }

  /** The test of the program: for `y` other than 0, `y & (y - 1)` is 0 exactly when `y` is a power of two,
      and then `y - 1` has exactly the bits below it. */
  lemma {:induction false} PowerOfTwoTest(y: bv64)
    requires y != 0
    ensures y & (y - 1) == 0 <==> exists k: nat :: IsPower(y, k)
    decreases Val(y)
  {
    ZeroVal(y);
    ValStep(y);
    if Bit0(y) == 1 {
      OddPower(y);
    } else {
      DecrementEven(y);
      Positive(Half(y));
      PowerOfTwoTest(Half(y));
      EvenPower(y, Half(y));
    }
  }

  lemma EvenPower(y: bv64, h: bv64)
    requires y != 0 && Bit0(y) == 0 && h == Half(y)
    requires h & (h - 1) == 0 <==> exists k: nat :: IsPower(h, k)
    ensures y & (y - 1) == 0 <==> exists k: nat :: IsPower(y, k)
  {
    LowestEven(y, y - 1);
    if k: nat :| IsPower(h, k) {
      HalfPower(y, k);
    }
    if k: nat :| IsPower(y, k) {
      EvenNotOne(y, k);
      HalfPower(y, k - 1);
    }
  }

  lemma EvenNotOne(y: bv64, k: nat)
    requires Bit0(y) == 0 && IsPower(y, k)
    ensures k > 0
  {
    ValStep(y);
  }

  ghost predicate IsPower(y: bv64, k: nat) {
    IsMask(y - 1, k) && Val(y) == Pow2(k)
  }

  lemma OddPower(y: bv64)
    requires Bit0(y) == 1
    ensures y & (y - 1) == 0 <==> exists k: nat :: IsPower(y, k)
  {
    DecrementOdd(y);
    LowestOdd(y, y - 1);
    if y - 1 == 0 {
      OneVal(y);
      assert IsPower(y, 0);
    }
    if k: nat :| IsPower(y, k) {
      assert k == 0;
    }
  }

  lemma OneVal(y: bv64)
    requires y - 1 == 0
    ensures Val(y) == 1
  {
    assert y == 1 && Half(y) == 0;
  }

  lemma HalfPower(y: bv64, k: nat)
    requires y != 0 && Bit0(y) == 0
    ensures IsPower(Half(y), k) <==> IsPower(y, k + 1)
  {
    DecrementEven(y);
    ValStep(y);
  }
}
