/** Unsigned machine words as natural numbers, with the C operators the sources
    use on them.  `&`, `|` and `^` are defined bit by bit; the lemmas say when
    they coincide with arithmetic. */
module Words {

  const W32: nat := 0x1_0000_0000
  const W64: nat := 0x1_0000_0000_0000_0000

  type U32 = x: nat | x < W32
  type U64 = x: nat | x < W64

  function Pow2(k: nat): (r: nat)
    ensures r > 0
  {
    if k == 0 then 1 else 2 * Pow2(k - 1)
  }

  function And(x: nat, y: nat): (r: nat)
    ensures r <= x && r <= y
  {
    if x == 0 || y == 0 then 0 else (if x % 2 + y % 2 == 2 then 1 else 0) + 2 * And(x / 2, y / 2)
  }

  function Or(x: nat, y: nat): nat
    decreases x + y
  {
    if x == 0 then y else if y == 0 then x
    else (if x % 2 + y % 2 == 0 then 0 else 1) + 2 * Or(x / 2, y / 2)
  }

  function Xor(x: nat, y: nat): nat
    decreases x + y
  {
    if x == 0 then y else if y == 0 then x
    else (x % 2 + y % 2) % 2 + 2 * Xor(x / 2, y / 2)
  }

  /** `x << k` on a word of 32 bits; C leaves a shift count outside the word undefined. */
  function Shl32(x: U32, k: nat): U32
    requires k < 32
  {
    x * Pow2(k) % W32
  }

  /** `x >> k` on a word of 32 bits. */
  function Shr32(x: U32, k: nat): (r: U32)
    requires k < 32
  {
    DivBound(x, Pow2(k));
    x / Pow2(k)
  }

  // ---------------------------------------------------------- arithmetic

  lemma DivBound(x: nat, d: nat)
    requires d > 0
    ensures 0 <= x / d <= x
  {
    var q, r := x / d, x % d;
    MulSign(q, d);
    MulMono(1, d, q);
  }

  lemma MulMono(a: int, b: int, c: int)
    requires a <= b && 0 <= c
    ensures a * c <= b * c && c * a <= c * b
  {
  }

  /** A nonzero multiple of d is at least d away from zero. */
  lemma MulSign(k: int, d: int)
    requires 0 <= d
    ensures k >= 1 ==> k * d >= d
    ensures k <= -1 ==> k * d <= -d
  {
    if k >= 1 { MulMono(1, k, d); }
    if k <= -1 { MulMono(k, -1, d); }
  }

  lemma MulCancel(a: int, b: int, s: int)
    requires s > 0 && a * s <= b * s
    ensures a <= b
  {
    Distribute(a, -b, s);
    MulSign(a - b, s);
  }

  /** Quotient and remainder are determined by the division equation. */
  lemma DivUnique(x: int, d: int, q: int, r: int)
    requires 0 <= r < d && x == q * d + r
    ensures x / d == q && x % d == r
  {
    var q1, r1 := x / d, x % d;
    assert x == d * q1 + r1;
    assert (q - q1) * d == r1 - r;
    MulSign(q - q1, d);
  }

  lemma DivEquation(x: int, d: int)
    requires d > 0
    ensures x == x / d * d + x % d && 0 <= x % d < d
  {
  }

  /** Sums and differences of multiples of d. */
  lemma MultipleAdd(x: int, y: int, d: int)
    requires d > 0 && x % d == 0 && y % d == 0
    ensures (x + y) % d == 0 && (x - y) % d == 0
  {
    var i, j := x / d, y / d;
    Distribute(i, j, d);
    Distribute(i, -j, d);
    DivUnique(x + y, d, i + j, 0);
    DivUnique(x - y, d, i - j, 0);
  }

  lemma MultipleSelf(d: int)
    requires d > 0
    ensures 0 % d == 0 && d % d == 0
  {
    DivUnique(d, d, 1, 0);
    DivUnique(0, d, 0, 0);
  }

  /** A positive multiple of d is at least d. */
  lemma MultipleAtLeast(x: int, d: int)
    requires d > 0 && x > 0 && x % d == 0
    ensures x >= d
  {
    if x < d { SmallMod(x, d); }
  }

  lemma Pow2Add(j: nat, k: nat)
    ensures Pow2(j + k) == Pow2(j) * Pow2(k)
  {
    if j > 0 {
      Pow2Add(j - 1, k);
      assert Pow2(j + k) == 2 * Pow2(j - 1 + k);
    }
  }

  lemma Pow2Mono(j: nat, k: nat)
    requires j <= k
    ensures Pow2(j) <= Pow2(k)
  {
    if j < k { Pow2Mono(j, k - 1); }
  }

  lemma Pow2Words()
    ensures Pow2(31) == 0x8000_0000 && Pow2(32) == W32 && Pow2(63) == 0x8000_0000_0000_0000 && Pow2(64) == W64
  {
    assert Pow2(8) == 256;
    Pow2Add(8, 8);
    Pow2Add(16, 16);
    Pow2Add(32, 32);
    assert Pow2(32) == 2 * Pow2(31);
    assert Pow2(64) == 2 * Pow2(63);
  }

  lemma ModSplit(x: nat, p: nat)
    requires p > 0
    ensures x % (2 * p) == x % 2 + 2 * (x / 2 % p)
  {
    var h := x / 2;
    assert h == p * (h / p) + h % p;
    assert x == (h / p) * (2 * p) + (x % 2 + 2 * (h % p)) by {
      assert (h / p) * (2 * p) == 2 * (p * (h / p));
    }
    DivUnique(x, 2 * p, h / p, x % 2 + 2 * (h % p));
  }

  // ---------------------------------------------------------- bit operators

  /** Masking with 2^k - 1 takes the remainder by 2^k. */
  lemma {:induction false} AndLowMask(x: nat, k: nat)
    ensures And(x, Pow2(k) - 1) == x % Pow2(k)
    decreases k
  {
    if x == 0 {
      ZeroMod(Pow2(k));
    } else if k > 0 {
      var h, p := x / 2, Pow2(k - 1);
      AndLowMask(h, k - 1);
      ModSplit(x, p);
      AndOdd(x, p - 1);
    }
  }

  lemma ZeroMod(d: int)
    requires d > 0
    ensures 0 / d == 0 && 0 % d == 0
  {
    DivUnique(0, d, 0, 0);
  }

  lemma SmallMod(x: int, d: int)
    requires 0 <= x < d
    ensures x / d == 0 && x % d == x
  {
    DivUnique(x, d, 0, x);
  }

  /** The mask of j ones starting at bit k. */
  function Mask(j: nat, k: nat): nat {
    if k == 0 then Pow2(j) - 1 else 2 * Mask(j, k - 1)
  }

  /** Masking with j ones at bit k and shifting down by k extracts the bit field;
      the mask misses x exactly when the field is zero. */
  lemma {:induction false} AndFieldMask(x: nat, j: nat, k: nat)
    ensures And(x, Mask(j, k)) / Pow2(k) == x / Pow2(k) % Pow2(j)
    ensures And(x, Mask(j, k)) == 0 <==> x / Pow2(k) % Pow2(j) == 0
    decreases k
  {
    if k == 0 {
      AndLowMask(x, j);
    } else {
      var p, y := Pow2(k - 1), Mask(j, k - 1);
      AndFieldMask(x / 2, j, k - 1);
      AndDouble(x, y);
      DivDiv(x, 2, p);
      EvenDiv(And(x / 2, y), p);
    }
  }

  lemma MulAssoc(a: int, b: int, c: int)
    ensures a * (b * c) == b * (a * c) == (a * b) * c
  {
  }

  /** A mask of j bits above bit k as a number. */
  lemma MaskValue(j: nat, k: nat)
    ensures Mask(j, k) == (Pow2(j) - 1) * Pow2(k)
  {
    if k > 0 {
      MaskValue(j, k - 1);
      MulAssoc(Pow2(j) - 1, 2, Pow2(k - 1));
    }
  }

  lemma AndOdd(x: nat, y: nat)
    ensures And(x, 2 * y + 1) == x % 2 + 2 * And(x / 2, y)
  {
  }

  lemma AndDouble(x: nat, y: nat)
    ensures And(x, 2 * y) == 2 * And(x / 2, y)
  {
  }

  lemma DivDiv(x: nat, a: nat, b: nat)
    requires a > 0 && b > 0
    ensures a * b > 0 && x / (a * b) == x / a / b
  {
    var q, s := x / a, x % a;
    var t, r := q / b, q % b;
    MulMono(1, a, b);
    MulMono(r + 1, b, a);
    Distribute(r, 1, a);
    Distribute(t * b, r, a);
    MulAssoc(t, b, a);
    assert x == t * (a * b) + (r * a + s);
    DivUnique(x, a * b, t, r * a + s);
  }

  lemma Distribute(x: int, y: int, z: int)
    ensures (x + y) * z == x * z + y * z
  {
  }

  lemma EvenDiv(a: nat, p: nat)
    requires p > 0
    ensures 2 * a / (2 * p) == a / p
  {
    DivDiv(2 * a, 2, p);
  }

  lemma AndAllOnes(x: nat, k: nat)
    requires x < Pow2(k)
    ensures And(x, Pow2(k) - 1) == x
  {
    AndLowMask(x, k);
    SmallMod(x, Pow2(k));
  }

  lemma AndZero(x: nat)
    ensures And(x, 0) == 0
  {
  }

  /** Disjoint bit fields: `|` is addition. */
  lemma {:induction false} OrDisjoint(hi: nat, lo: nat, k: nat)
    requires hi % Pow2(k) == 0 && lo < Pow2(k)
    ensures Or(hi, lo) == hi + lo
    decreases k
  {
    if k > 0 && hi > 0 && lo > 0 {
      ModSplit(hi, Pow2(k - 1));
      OrDisjoint(hi / 2, lo / 2, k - 1);
    }
  }

  /** `^` with all ones complements the word. */
  lemma {:induction false} XorAllOnes(x: nat, k: nat)
    requires x < Pow2(k)
    ensures Xor(x, Pow2(k) - 1) == Pow2(k) - 1 - x
    decreases k
  {
    if k > 0 && x > 0 {
      XorAllOnes(x / 2, k - 1);
      assert (Pow2(k) - 1) % 2 == 1 && (Pow2(k) - 1) / 2 == Pow2(k - 1) - 1;
    }
  }

  /** The test `(x & (x - 1)) == 0` recognises exactly the powers of two. */
  lemma {:induction false} AndPredZero(x: nat)
    requires x > 0
    ensures And(x, x - 1) == 0 <==> x == Pow2(Ctz(x))
  {
    if x > 1 {
      if x % 2 == 1 {
        assert (x - 1) / 2 == x / 2 && (x - 1) % 2 == 0;
        AndSelf(x / 2);
      } else {
        AndPredZero(x / 2);
        assert (x - 1) / 2 == x / 2 - 1 && (x - 1) % 2 == 1;
        assert Ctz(x) == 1 + Ctz(x / 2);
      }
    }
  }

  lemma AndSelf(x: nat)
    ensures And(x, x) == x
  {
    if x > 0 { AndSelf(x / 2); }
  }

  // ---------------------------------------------------------- bit counting

  /** Number of trailing zero bits. */
  function Ctz(x: nat): nat
    requires x > 0
  {
    if x % 2 == 1 then 0 else 1 + Ctz(x / 2)
  }

  /** Number of bits up to and including the highest one bit. */
  function BitLength(x: nat): nat {
    if x == 0 then 0 else 1 + BitLength(x / 2)
  }

  lemma {:induction false} BitLengthBounds(x: nat)
    requires x > 0
    ensures BitLength(x) >= 1
    ensures Pow2(BitLength(x) - 1) <= x < Pow2(BitLength(x))
  {
    if x > 1 { BitLengthBounds(x / 2); }
  }

  lemma {:induction false} BitLengthUnique(x: nat, k: nat)
    requires k >= 1 && Pow2(k - 1) <= x < Pow2(k)
    ensures BitLength(x) == k
  {
    if k > 1 { BitLengthUnique(x / 2, k - 1); }
  }

  lemma BitLengthAtMost(x: nat, k: nat)
    requires x < Pow2(k)
    ensures BitLength(x) <= k
  {
    if x > 0 {
      BitLengthBounds(x);
      if BitLength(x) > k {
        var j := BitLength(x) - 1;
        Pow2Mono(k, j);
      }
    }
  }

  /** Number of leading zero bits of a nonzero 32-bit word. */
  function Clz32(x: U32): (r: nat)
    requires x > 0
    ensures r < 32
  {
    Pow2Words();
    BitLengthAtMost(x, 32);
    BitLengthBounds(x);
    32 - BitLength(x)
  }

  lemma Clz32Bounds(x: U32)
    requires x > 0
    ensures Pow2(31 - Clz32(x)) <= x < Pow2(32 - Clz32(x))
  {
    BitLengthBounds(x);
  }

  /** Dividing out a power of two reduces the count of trailing zeros by its exponent. */
  lemma {:induction false} CtzShift(x: nat, k: nat)
    requires x > 0 && x % Pow2(k) == 0
    ensures x / Pow2(k) > 0 && Ctz(x) == k + Ctz(x / Pow2(k))
    decreases k
  {
    if k > 0 {
      var p := Pow2(k - 1);
      ModSplit(x, p);
      CtzShift(x / 2, k - 1);
      DivDiv(x, 2, p);
    }
  }
}
