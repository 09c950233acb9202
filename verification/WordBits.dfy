/**
 * The bits of a machine word, as the set of their positions.
 *
 * A shift by a variable number of places is that many shifts by one place.
 */
module WordBits {
  import opened MachineWord

  const ONES: bv64 := 0xFFFF_FFFF_FFFF_FFFF

  function Shr(w: bv64, k: nat): bv64
    decreases k
  {
    if k == 0 then w else Shr(Half(w), k - 1)
  }

  function Double(w: bv64): bv64 { w << 1 }

  function Shl(w: bv64, k: nat): bv64
    decreases k
  {
    if k == 0 then w else Double(Shl(w, k - 1))
  }

  /** Bit `k` of `w` is set. */
  predicate Bit(w: bv64, k: nat)
    decreases k
  {
    if k == 0 then Bit0(w) == 1 else Bit(Half(w), k - 1)
  }

  // ---- Shifting right ----

  lemma {:induction false} ShrNext(w: bv64, k: nat)
    ensures Shr(w, k + 1) == Half(Shr(w, k))
    decreases k
  {
    if k > 0 { ShrNext(Half(w), k - 1); }
  }

  lemma {:induction false} ShrBit(w: bv64, k: nat, j: nat)
    ensures Bit(Shr(w, k), j) == Bit(w, k + j)
    decreases k
  {
    if k > 0 { ShrBit(Half(w), k - 1, j); }
  }

  lemma {:induction false} ShrTwice(w: bv64, j: nat, k: nat)
    ensures Shr(Shr(w, j), k) == Shr(w, j + k)
    decreases j
  {
    if j > 0 { ShrTwice(Half(w), j - 1, k); }
  }

  lemma ShrEight(w: bv64)
    ensures Shr(w, 8) == w >> 8
  {
    var a := Half(Half(w));
    var b := Half(Half(a));
    var c := Half(Half(b));
    assert Shr(w, 8) == Shr(a, 6) && Shr(a, 6) == Shr(b, 4) && Shr(b, 4) == Shr(c, 2);
  }

  lemma ShrMore(w: bv64, k: nat, v: bv64)
    requires Shr(w, k) == v
    ensures Shr(w, k + 8) == v >> 8
  {
    ShrTwice(w, k, 8);
    ShrEight(v);
  }

  /** Every word has 64 bits. */
  lemma ShrAll(w: bv64)
    ensures Shr(w, 64) == 0
  {
    var a := w >> 8;
    var b := a >> 8;
    var c := b >> 8;
    var d := c >> 8;
    var e := d >> 8;
    var f := e >> 8;
    var g := f >> 8;
    ShrMore(w, 0, w);
    ShrMore(w, 8, a);
    ShrMore(w, 16, b);
    ShrMore(w, 24, c);
    ShrMore(w, 32, d);
    ShrMore(w, 40, e);
    ShrMore(w, 48, f);
    ShrMore(w, 56, g);
  }

  // ---- Words and sets of bits ----

  lemma {:induction false} NoBits(k: nat)
    ensures !Bit(0, k)
    decreases k
  {
    if k > 0 { NoBits(k - 1); }
  }

  /** A word that is not zero has a bit. */
  lemma {:induction false} FindBit(w: bv64, n: nat) returns (k: nat)
    requires w != 0 && Shr(w, n) == 0
    ensures k < n && Bit(w, k)
    decreases n
  {
    if Bit0(w) == 1 {
      k := 0;
    } else {
      HalfNonzero(w);
      var j := FindBit(Half(w), n - 1);
      k := j + 1;
    }
  }

  lemma HalfNonzero(w: bv64)
    requires w != 0 && Bit0(w) == 0
    ensures Half(w) != 0
  {
  }

  // The bitwise operations are intersection, union and difference of sets of bits.

  lemma AndParts(u: bv64, v: bv64, r: bv64)
    requires r == u & v
    ensures Half(r) == Half(u) & Half(v)
    ensures r & 1 == 1 <==> u & 1 == 1 && v & 1 == 1
  {
  }

  lemma {:induction false} BitAnd(u: bv64, v: bv64, r: bv64, k: nat)
    requires r == u & v
    ensures Bit(r, k) <==> Bit(u, k) && Bit(v, k)
    decreases k
  {
    AndParts(u, v, r);
    if k > 0 { BitAnd(Half(u), Half(v), Half(r), k - 1); }
  }

  lemma OrParts(u: bv64, v: bv64, r: bv64)
    requires r == u | v
    ensures Half(r) == Half(u) | Half(v)
    ensures r & 1 == 1 <==> u & 1 == 1 || v & 1 == 1
  {
  }

  lemma {:induction false} BitOr(u: bv64, v: bv64, r: bv64, k: nat)
    requires r == u | v
    ensures Bit(r, k) <==> Bit(u, k) || Bit(v, k)
    decreases k
  {
    OrParts(u, v, r);
    if k > 0 { BitOr(Half(u), Half(v), Half(r), k - 1); }
  }

  lemma AndNotParts(u: bv64, v: bv64, r: bv64)
    requires r == u & !v
    ensures Half(r) == Half(u) & !Half(v)
    ensures r & 1 == 1 <==> u & 1 == 1 && v & 1 != 1
  {
  }

  lemma {:induction false} BitAndNot(u: bv64, v: bv64, r: bv64, k: nat)
    requires r == u & !v
    ensures Bit(r, k) <==> Bit(u, k) && !Bit(v, k)
    decreases k
  {
    AndNotParts(u, v, r);
    if k > 0 { BitAndNot(Half(u), Half(v), Half(r), k - 1); }
  }

  /** Words with the same bits are equal. */
  lemma SameBits(u: bv64, v: bv64)
    requires forall k :: 0 <= k < 64 ==> Bit(u, k) == Bit(v, k)
    ensures u == v
  {
    NoMoreBits(u, v);
    NoMoreBits(v, u);
    Differences(u, v);
  }

  lemma NoMoreBits(u: bv64, v: bv64)
    requires forall k :: 0 <= k < 64 && Bit(u, k) ==> Bit(v, k)
    ensures u & !v == 0
  {
    var r := u & !v;
    if r != 0 {
      ShrAll(r);
      var k := FindBit(r, 64);
      BitAndNot(u, v, r, k);
    }
  }

  lemma Differences(u: bv64, v: bv64)
    ensures u & !v == 0 && v & !u == 0 ==> u == v
  {
  }

  // ---- Masks ----

  lemma {:induction false} MaskBit(m: bv64, n: nat, k: nat)
    requires IsMask(m, n)
    ensures Bit(m, k) <==> k < n
    decreases k
  {
    if n == 0 {
      NoBits(k);
    } else if k > 0 {
      MaskBit(Half(m), n - 1, k - 1);
    }
  }

  lemma EightMore(m: bv64, n: nat)
    requires m & 0xFF == 0xFF && IsMask(m >> 8, n)
    ensures IsMask(m, n + 8)
  {
    FourMore(m >> 4, n);
    FourMore(m, n + 4);
  }

  lemma FourMore(m: bv64, n: nat)
    requires m & 0xF == 0xF && IsMask(m >> 4, n)
    ensures IsMask(m, n + 4)
  {
    TwoMore(m >> 2, n);
    TwoMore(m, n + 2);
  }

  lemma TwoMore(m: bv64, n: nat)
    requires m & 3 == 3 && IsMask(m >> 2, n)
    ensures IsMask(m, n + 2)
  {
    TwoLow(m);
    assert IsMask(Half(m), n + 1);
  }

  lemma TwoLow(m: bv64)
    requires m & 3 == 3
    ensures Bit0(m) == 1 && Bit0(Half(m)) == 1 && Half(Half(m)) == m >> 2
  {
  }

  lemma AllOnes()
    ensures IsMask(ONES, 64)
  {
    EightMore(0xFF, 0);
    EightMore(0xFFFF, 8);
    EightMore(0xFF_FFFF, 16);
    EightMore(0xFFFF_FFFF, 24);
    EightMore(0xFF_FFFF_FFFF, 32);
    EightMore(0xFFFF_FFFF_FFFF, 40);
    EightMore(0xFF_FFFF_FFFF_FFFF, 48);
    EightMore(ONES, 56);
  }

  // ---- Shifting left ----

  const LOW63: bv64 := 0x7FFF_FFFF_FFFF_FFFF

  lemma SixtyThree()
    ensures IsMask(LOW63, 63)
  {
    EightMore(0xFF, 0);
    EightMore(0xFFFF, 8);
    EightMore(0xFF_FFFF, 16);
    EightMore(0xFFFF_FFFF, 24);
    EightMore(0xFF_FFFF_FFFF, 32);
    EightMore(0xFFFF_FFFF_FFFF, 40);
    EightMore(0xFF_FFFF_FFFF_FFFF, 48);
    FourMore(0xFFF_FFFF_FFFF_FFFF, 56);
    TwoMore(0x3FFF_FFFF_FFFF_FFFF, 60);
    assert Half(LOW63) == 0x3FFF_FFFF_FFFF_FFFF && Bit0(LOW63) == 1;
  }

  lemma ShlParts(w: bv64, r: bv64)
    requires r == Double(w)
    ensures Half(r) == w & LOW63 && r & 1 != 1
  {
  }

  lemma ShlOneBit(w: bv64, r: bv64, k: nat)
    requires r == Double(w) && k < 64
    ensures Bit(r, k) <==> k > 0 && Bit(w, k - 1)
  {
    ShlParts(w, r);
    if k > 0 {
      BitAnd(w, LOW63, Half(r), k - 1);
      SixtyThree();
      MaskBit(LOW63, 63, k - 1);
    }
  }

  lemma {:induction false} ShlBit(w: bv64, n: nat, k: nat)
    requires k < 64
    ensures Bit(Shl(w, n), k) <==> k >= n && Bit(w, k - n)
    decreases n
  {
    if n > 0 {
      ShlOneBit(Shl(w, n - 1), Shl(w, n), k);
      if k > 0 { ShlBit(w, n - 1, k - 1); }
    }
  }

  /** `1 << c` has bit `c` and no other. */
  lemma OneBit(c: nat, k: nat)
    requires k < 64
    ensures Bit(Shl(1, c), k) <==> k == c
  {
    ShlBit(1, c, k);
    if k > c {
      assert Half(1) == 0;
      NoBits(k - c - 1);
    }
  }

  lemma OneSmall(c: nat, p: bv64)
    requires c < 63 && p == Shl(1, c)
    ensures p & LOW63 == p && p != 0
  {
    var r := p & LOW63;
    SixtyThree();
    forall k | 0 <= k < 64 ensures Bit(r, k) == Bit(p, k) {
      BitAnd(p, LOW63, r, k);
      MaskBit(LOW63, 63, k);
      OneBit(c, k);
    }
    SameBits(r, p);
    OneBit(c, c);
    NoBits(c);
  }

  lemma DoubleLessOne(p: bv64, r: bv64)
    requires p & LOW63 == p && p != 0 && r == Double(p) - 1
    ensures Half(r) == p - 1 && Bit0(r) == 1
  {
  }

  /** `(1 << c) - 1` has exactly the low `c` bits. */
  lemma {:induction false} LowMask(c: nat, p: bv64, m: bv64)
    requires c < 64 && p == Shl(1, c) && m == p - 1
    ensures IsMask(m, c)
    decreases c
  {
    if c > 0 {
      var q := Shl(1, c - 1);
      ShlStep(1, c, q, p);
      OneSmall(c - 1, q);
      DoubleLessOne(q, m);
      LowMask(c - 1, q, q - 1);
    }
  }

  lemma ShlStep(w: bv64, c: nat, q: bv64, p: bv64)
    requires c > 0 && q == Shl(w, c - 1) && p == Shl(w, c)
    ensures p == Double(q)
  {
  }

  /** The word with bits `ofs` up to `ofs + c`. */
  function RangeWord(ofs: nat, c: nat): bv64 {
    if c >= 64 then ONES else Shl(Shl(1, c) - 1, ofs)
  }

  lemma RangeWordBit(ofs: nat, c: nat, k: nat)
    requires ofs + c <= 64 && k < 64
    ensures Bit(RangeWord(ofs, c), k) <==> ofs <= k < ofs + c
  {
    if c >= 64 {
      AllOnes();
      MaskBit(ONES, 64, k);
    } else {
      LowMask(c, Shl(1, c), Shl(1, c) - 1);
      ShlBit(Shl(1, c) - 1, ofs, k);
      if k >= ofs { MaskBit(Shl(1, c) - 1, c, k - ofs); }
    }
  }

  // ---- Words and the numbers below two to the power 64 ----

  /** The remainder of a number below the modulus is the number. */
  lemma BelowModulus(x: nat, n: nat)
    requires x < n
    ensures x % n == x
  {
    Remainder(x, n, 0, x);
  }

  lemma ValBound(v: bv64)
    ensures Val(v) < Pow2(64)
  {
    AllOnes();
    AndOnes(v);
    ValMask(v, ONES, 64);
  }

  lemma AndOnes(v: bv64)
    ensures v & ONES == v
  {
  }

  /** Some word stands for `a`. */
  ghost predicate Fits(a: int) { exists v: bv64 :: Val(v) == a }

  ghost function WordOf(a: int): (v: bv64)
    requires Fits(a)
    ensures Val(v) == a
  {
    var v: bv64 :| Val(v) == a; v
  }

  lemma DoublePlus(h: bv64, r: bv64)
    requires h & LOW63 == h && (r == Double(h) || r == Double(h) | 1)
    ensures Half(r) == h && Bit0(r) == if r == Double(h) then 0 else 1
  {
  }

  lemma LowHalf(h: bv64)
    requires Val(h) < Pow2(63)
    ensures h & LOW63 == h
  {
    SixtyThree();
    ValMask(h, LOW63, 63);
    BelowModulus(Val(h), Pow2(63));
    ValInjective(h & LOW63, h);
  }

  /** The words stand for exactly the numbers below two to the power 64. */
  lemma FitsIff(a: int)
    ensures Fits(a) <==> 0 <= a < Pow2(64)
  {
    if 0 <= a < Pow2(64) {
      var v := Build(a);
    }
    if Fits(a) {
      ValBound(WordOf(a));
    }
  }

  lemma {:induction false} Build(a: nat) returns (v: bv64)
    requires a < Pow2(64)
    ensures Val(v) == a
    decreases a
  {
    if a == 0 {
      v := 0;
    } else {
      assert Pow2(64) == 2 * Pow2(63);
      var h := Build(a / 2);
      LowHalf(h);
      v := if a % 2 == 0 then Double(h) else Double(h) | 1;
      BuildStep(a, h, v);
    }
  }

  lemma BuildStep(a: nat, h: bv64, v: bv64)
    requires h & LOW63 == h && Val(h) == a / 2 && v == if a % 2 == 0 then Double(h) else Double(h) | 1
    ensures Val(v) == a
  {
    DoublePlus(h, v);
    OddWord(h);
    ValStep(v);
  }

  lemma OddWord(h: bv64)
    ensures Double(h) | 1 != Double(h)
  {
  }

  // Arithmetic on machine words that does not overflow, as numbers.

  ghost function Plus(x: bv64, y: bv64): (r: bv64)
    requires Val(x) + Val(y) < Pow2(64)
    ensures Val(r) == Val(x) + Val(y)
  {
    FitsIff(Val(x) + Val(y));
    WordOf(Val(x) + Val(y))
  }

  ghost function Times(x: bv64, y: bv64): (r: bv64)
    requires Fits(Val(x) * Val(y))
    ensures Val(r) == Val(x) * Val(y)
  {
    WordOf(Val(x) * Val(y))
  }

  ghost function DividedBy(x: bv64, y: bv64): (r: bv64)
    requires Val(y) > 0
    ensures Val(r) == Val(x) / Val(y)
  {
    QuotientFits(x, y);
    WordOf(Val(x) / Val(y))
  }

  lemma QuotientFits(x: bv64, y: bv64)
    requires Val(y) > 0
    ensures Fits(Val(x) / Val(y)) && Fits(Val(x) / Val(y) * Val(y))
  {
    QuotientBounds(Val(x), Val(y));
    FitsBelow(x, Val(x) / Val(y));
    FitsBelow(x, Val(x) / Val(y) * Val(y));
  }

  lemma FitsBelow(x: bv64, a: int)
    requires 0 <= a <= Val(x)
    ensures Fits(a)
  {
    ValBound(x);
    FitsIff(a);
  }

  lemma QuotientBounds(x: nat, y: nat)
    requires y > 0
    ensures 0 <= x / y <= x && 0 <= x / y * y <= x
  {
    assert x == y * (x / y) + x % y;
    SmallerQuotient(x, y, x / y, x % y);
  }

  lemma SmallerQuotient(x: nat, y: nat, q: int, r: nat)
    requires r < y && x == y * q + r
    ensures 0 <= q <= x && 0 <= q * y <= x
  {
    MultipleAtLeast(y, q);
    if q > 0 { MultipleAtLeast(q, y); }
  }
}
