/** `__clzsi2`, `__ctzsi2` and their 64-bit compositions:
    abstract-machine/klib/src/int64.c lines 636-731. */
module BitCount {
  import opened Words
  import opened Int64

  /** `-(c)` for a truth value, as a mask. */
  function MaskOf(c: bool): U32 { if c then W32 - 1 else 0 }

  lemma AndMaskOf(x: U32, c: bool)
    ensures And(x, MaskOf(c)) == if c then x else 0
  {
    Pow2Words();
    AndAllOnes(x, 32);
  }

  lemma Masks()
    ensures Mask(16, 16) == 0xFFFF_0000 && Mask(8, 8) == 0xFF00 && Mask(4, 4) == 0xF0 && Mask(2, 2) == 0xC
    ensures Pow2(16) == 65536 && Pow2(8) == 256 && Pow2(4) == 16 && Pow2(2) == 4 && Pow2(1) == 2
  {
    assert Pow2(8) == 256;
    Pow2Add(8, 8);
    MaskValue(16, 16);
    MaskValue(8, 8);
  }

  // ---------------------------------------------------------- leading zeros

  lemma {:induction false} BitLengthShift(x: nat, k: nat)
    requires x >= Pow2(k)
    ensures BitLength(x) == k + BitLength(x / Pow2(k))
    decreases k
  {
    if k > 0 {
      BitLengthShift(x / 2, k - 1);
      DivDiv(x, 2, Pow2(k - 1));
    }
  }

  /** One halving: the mask tells whether x fits in the low h bits of 2h, and
      either way h bits of the answer are settled. */
  lemma HalveLeading(x: nat, h: nat)
    requires 0 < x < Pow2(2 * h)
    ensures And(x, Mask(h, h)) == 0 <==> x < Pow2(h)
    ensures x >= Pow2(h) ==> 0 < x / Pow2(h) < Pow2(h) && BitLength(x / Pow2(h)) == BitLength(x) - h
  {
    var p := Pow2(h);
    Pow2Add(h, h);
    AndFieldMask(x, h, h);
    HalfSplit(x, p);
    if x >= p { BitLengthShift(x, h); }
  }

  lemma HalfSplit(x: nat, p: nat)
    requires x < p * p
    ensures x / p < p && x / p % p == x / p
    ensures x < p <==> x / p == 0
  {
    DivLess(x, p, p);
    SmallMod(x / p, p);
    DivEquation(x, p);
    if x < p { SmallMod(x, p); }
  }

  /** Lines 640-669. */
  method Clzsi2(a: U32) returns (count: nat)
    requires a != 0
    ensures count == Clz32(a)
  {
    Masks();
    Pow2Words();
    var x, r := a, 0;
    HalveLeading(x, 16);
    var t := if And(x, 0xFFFF_0000) == 0 then 16 else 0;
    x, r := Shr32(x, 16 - t), t;
    assert Shr32(a, 0) == a;
    assert 0 < x < 65536 && Clz32(a) == r + 16 - BitLength(x);
    x, r := ClzStep(x, r, 0xFF00, 8);
    x, r := ClzStep(x, r, 0xF0, 4);
    x, r := ClzStep(x, r, 0xC, 2);
    count := r + And(Sub32(2, x), MaskOf(And(x, 2) == 0));
    LastLeading(x);
  }

  /** The branchless tail of line 668. */
  lemma LastLeading(x: U32)
    requires 0 < x < 4
    ensures And(Sub32(2, x), MaskOf(And(x, 2) == 0)) == 2 - BitLength(x)
  {
    AndMaskOf(Sub32(2, x), And(x, 2) == 0);
    AndDouble(x, 1);
    AndLowMask(x / 2, 1);
    assert Pow2(1) == 2;
    if x == 1 {
      SmallMod(1, W32);
      assert BitLength(1) == 1;
    } else {
      BitLengthUnique(x, 2);
    }
  }

  /** Lines 646-656: the same step at widths 16, 8 and 4. */
  method ClzStep(x0: U32, r0: nat, mask: nat, h: nat) returns (x: U32, r: nat)
    requires h <= 8 && mask == Mask(h, h) && 0 < x0 < Pow2(2 * h)
    ensures 0 < x < Pow2(h) && r + h - BitLength(x) == r0 + 2 * h - BitLength(x0)
  {
    HalveLeading(x0, h);
    var t := if And(x0, mask) == 0 then h else 0;
    assert Pow2(0) == 1;
    x, r := Shr32(x0, h - t), r0 + t;
  }

  // ---------------------------------------------------------- trailing zeros

  /** x has at least k trailing zeros exactly when 2^k divides it. */
  lemma {:induction false} CtzAtLeast(x: nat, k: nat)
    requires x > 0
    ensures Ctz(x) >= k <==> x % Pow2(k) == 0
    decreases k
  {
    if k > 0 {
      ModSplit(x, Pow2(k - 1));
      if x % 2 == 0 { CtzAtLeast(x / 2, k - 1); }
    }
  }

  /** Lines 675-709. */
  method Ctzsi2(a: U32) returns (count: nat)
    requires a != 0
    ensures count == Ctz(a)
  {
    Masks();
    Pow2Words();
    SmallMod(a, W32);
    CtzAtLeast(a, 32);
    var x, r := CtzStep(a, 0, 16);
    x, r := CtzStep(x, r, 8);
    x, r := CtzStep(x, r, 4);
    x, r := CtzStep(x, r, 2);
    count := LastBits(x, r);
  }

  /** Lines 692-708: the lowest two bits, without a branch. */
  method LastBits(y: U32, r: nat) returns (count: nat)
    requires y > 0 && Ctz(y) < 2
    ensures count == r + Ctz(y)
  {
    Masks();
    AndLowMask(y, 2);
    CtzAtLeast(y, 2);
    CtzLowBits(y);
    var x := And(y, 3);
    count := r + And(Sub32(2, Shr32(x, 1)), MaskOf(And(x, 1) == 0));
    AndLowMask(x, 1);
    AndMaskOf(Sub32(2, Shr32(x, 1)), And(x, 1) == 0);
  }

  lemma CtzLowBits(y: nat)
    requires y > 0 && y % 4 != 0
    ensures Ctz(y) == if y % 4 == 2 then 1 else 0
  {
  }

  /** Lines 677-693: drop h low bits when they are all zero. */
  method CtzStep(x0: U32, r0: nat, h: nat) returns (x: U32, r: nat)
    requires x0 > 0 && 1 <= h <= 16 && Ctz(x0) < 2 * h
    ensures x > 0 && Ctz(x) < h && r + Ctz(x) == r0 + Ctz(x0)
  {
    AndLowMask(x0, h);
    CtzAtLeast(x0, h);
    var t := if And(x0, Pow2(h) - 1) == 0 then h else 0;
    assert Pow2(0) == 1;
    if t == h { CtzShift(x0, h); }
    x, r := Shr32(x0, t), r0 + t;
  }

  // ---------------------------------------------------------- 64-bit compositions

  lemma OrZero(x: nat)
    ensures Or(x, 0) == x && Or(0, x) == x
  {
  }

  /** Lines 717-723. */
  method Ctzdi2(a: U64) returns (count: nat)
    requires a != 0
    ensures count == Ctz(a)
  {
    var x := Split(a);
    var none := x.low == 0;
    AndMaskOf(x.high, none);
    AndMaskOf(x.low, !none);
    AndMaskOf(32, none);
    OrZero(x.high);
    OrZero(x.low);
    Pow2Words();
    if none { CtzShift(a, 32); } else { CtzOfLow(x); }
    var c := Ctzsi2(Or(And(x.high, MaskOf(none)), And(x.low, MaskOf(!none))));
    count := c + And(MaskOf(none), 32);
    AndMaskOfLeft(none);
  }

  lemma AndMaskOfLeft(c: bool)
    ensures And(MaskOf(c), 32) == if c then 32 else 0
  {
    AndComm(MaskOf(c), 32);
    AndMaskOf(32, c);
  }

  lemma {:induction false} AndComm(x: nat, y: nat)
    ensures And(x, y) == And(y, x)
  {
    if x > 0 && y > 0 { AndComm(x / 2, y / 2); }
  }

  lemma CtzOfLow(x: Udwords)
    requires x.low > 0
    ensures Ctz(x.All()) == Ctz(x.low)
  {
    Pow2Words();
    SmallMod(x.low, W32);
    CtzAtLeast(x.low, 32);
    var k := Ctz(x.low);
    SameDivisibility(x, k);
    SameDivisibility(x, k + 1);
  }

  lemma SameDivisibility(x: Udwords, j: nat)
    requires x.low > 0 && j <= 32
    ensures Ctz(x.low) >= j <==> Ctz(x.All()) >= j
  {
    Pow2Words();
    Pow2Add(j, 32 - j);
    FunnelShift(x.high, x.low, Pow2(j), Pow2(32 - j));
    CtzAtLeast(x.low, j);
    CtzAtLeast(x.All(), j);
  }

  /** Lines 725-731: 64 minus the bit length. */
  method Clzdi2(a: U64) returns (count: nat)
    requires a != 0
    ensures count + BitLength(a) == 64
  {
    var x := Split(a);
    var none := x.high == 0;
    AndMaskOf(x.high, !none);
    AndMaskOf(x.low, none);
    OrZero(x.high);
    OrZero(x.low);
    if !none {
      Pow2Words();
      BitLengthShift(a, 32);
      DivUnique(a, W32, x.high, x.low);
    }
    var c := Clzsi2(Or(And(x.high, MaskOf(!none)), And(x.low, MaskOf(none))));
    count := c + And(MaskOf(none), 32);
    AndMaskOfLeft(none);
  }
}
