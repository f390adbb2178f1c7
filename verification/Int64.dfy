/** 64-bit division from 32-bit halves: abstract-machine/klib/src/int64.c.
    A `du_int` is a U64, a `su_int` a U32; a signed `di_int` is the U64 holding
    its two's complement pattern, read by `Signed`. */
module Int64 {
  import opened Words

  const SIGN32: nat := 0x8000_0000
  const SIGN64: nat := 0x8000_0000_0000_0000

  /** The union `udwords`. */
  datatype Udwords = Udwords(high: U32, low: U32) {
    function All(): U64 { high * W32 + low }
  }

  function Split(x: U64): (u: Udwords)
    ensures u.All() == x
  {
    Udwords(x / W32, x % W32)
  }

  /** `(di_int)t >> 63`: all ones when the sign bit is set, else zero. */
  function SignMask(t: U64): U64 {
    if t >= SIGN64 then W64 - 1 else 0
  }

  function Sub64(x: U64, y: U64): U64 { (x - y) % W64 }

  // ---------------------------------------------------------- shifting across the two halves

  /** `(x << 1) | b` for a bit b. */
  lemma ShiftLeftOne(x: U32, b: nat)
    requires b < 2
    ensures Or(Shl32(x, 1), b) == 2 * x % W32 + b
    ensures Shr32(x, 31) == x / SIGN32 < 2
  {
    Pow2Words();
    assert Pow2(1) == 2;
    OrDisjoint(Shl32(x, 1), b, 1);
  }

  /** Lines 615-618: a double word shifted left by one through its halves, with b entering at the bottom. */
  function ShiftIn(u: Udwords, b: nat): (v: Udwords)
    requires b < 2
    ensures v.All() == (2 * u.All() + b) % W64
  {
    ShiftLeftOne(u.low, b);
    ShiftLeftOne(u.high, Shr32(u.low, 31));
    ShiftInValue(u, b);
    Udwords(Or(Shl32(u.high, 1), Shr32(u.low, 31)), Or(Shl32(u.low, 1), b))
  }

  /** The bit that leaves the double word at the top. */
  function TopBit(u: Udwords): (b: nat)
    ensures b == u.All() / SIGN64 < 2
  {
    Pow2Words();
    DivUnique(u.All(), SIGN64, u.high / SIGN32, u.high % SIGN32 * W32 + u.low);
    Shr32(u.high, 31)
  }

  lemma ShiftInValue(u: Udwords, b: nat)
    requires b < 2
    ensures (2 * u.high % W32 + u.low / SIGN32) * W32 + (2 * u.low % W32 + b) == (2 * u.All() + b) % W64
  {
    var hb, lb := u.high / SIGN32, u.low / SIGN32;
    var h, l := u.high - hb * SIGN32, u.low - lb * SIGN32;
    DivUnique(2 * u.high, W32, hb, 2 * h);
    DivUnique(2 * u.low, W32, lb, 2 * l);
    DivUnique(2 * u.All() + b, W64, hb, (2 * h + lb) * W32 + (2 * l + b));
  }

  /** `((high << (32-k)) | (low >> k))` is the low half of the double word shifted right by k. */
  lemma ShiftDoubleRight(n: Udwords, k: nat)
    requires 1 <= k <= 31
    ensures Or(Shl32(n.high, 32 - k), Shr32(n.low, k)) < W32
    ensures Udwords(Shr32(n.high, k), Or(Shl32(n.high, 32 - k), Shr32(n.low, k))).All() == n.All() / Pow2(k)
    ensures Shl32(n.low, 32 - k) * W32 == n.All() % Pow2(k) * Pow2(64 - k)
  {
    var p, c := Pow2(k), Pow2(32 - k);
    Pow2Words();
    Pow2Add(k, 32 - k);
    Pow2Add(32 - k, 32);
    HighPart(n.high, p, c);
    HighPart(n.low, p, c);
    FunnelShift(n.high, n.low, p, c);
    var b, f := n.high % p, n.low / p;
    ZeroModProduct(b, c);
    OrDisjoint(b * c, f, 32 - k);
    MulAssoc(n.low % p, c, W32);
  }

  lemma FunnelShift(high: U32, low: U32, p: nat, c: nat)
    requires p > 0 && c > 0 && p * c == W32
    ensures 0 <= low / p < c && 0 <= high % p * c && high % p * c + low / p < W32
    ensures (high * W32 + low) / p == high / p * W32 + (high % p * c + low / p)
    ensures (high * W32 + low) % p == low % p
  {
    var a, b, f, e := high / p, high % p, low / p, low % p;
    DivEquation(high, p);
    DivEquation(low, p);
    DivLess(low, p, c);
    MulMono(b + 1, p, c);
    Distribute(b, 1, c);
    NonNegative(b, c);
    Recombine(a, b, f, e, p, c);
    DivUnique(high * W32 + low, p, a * W32 + b * c + f, e);
  }

  lemma Recombine(a: nat, b: nat, f: nat, e: nat, p: nat, c: nat)
    requires p * c == W32
    ensures (a * p + b) * W32 + (f * p + e) == (a * W32 + b * c + f) * p + e
  {
    MulAssoc(a, p, W32);
    MulAssoc(b, p, c);
    Distribute(a * p, b, W32);
    Distribute(a * W32, b * c, p);
    Distribute(a * W32 + b * c, f, p);
  }

  /** x * c modulo p * c keeps the low part of x. */
  lemma HighPart(x: nat, p: nat, c: nat)
    requires p > 0 && c > 0 && p * c == W32
    ensures x * c % W32 == x % p * c
    ensures x == (x / p) * p + x % p
  {
    var a, b := x / p, x % p;
    assert x * c == a * (p * c) + b * c by {
      assert (a * p + b) * c == a * (p * c) + b * c;
    }
    MulMono(b + 1, p, c);
    DivUnique(x * c, W32, a, b * c);
  }

  lemma DivLess(x: nat, p: nat, c: nat)
    requires p > 0 && x < p * c
    ensures x / p < c
  {
    if x / p >= c {
      MulMono(c, x / p, p);
    }
  }

  lemma ZeroModProduct(b: nat, c: nat)
    requires c > 0
    ensures b * c % c == 0 && b * c / c == b
  {
    DivUnique(b * c, c, b, 0);
  }

  // ---------------------------------------------------------- the shift-subtract loop

  /** What the case analysis of lines 505-609 hands to the loop:
      q = n << (64 - sr), r = n >> sr, and r below the divisor. */
  ghost predicate Normalised(n: U64, d: U64, sr: nat, q: U64, r: U64) {
    && 1 <= sr <= 63
    && q == n % Pow2(sr) * Pow2(64 - sr)
    && r == n / Pow2(sr)
    && r < d
    && (d >= SIGN64 ==> sr == 1 && n >= SIGN64)
  }

  /** The variables of the loop. */
  datatype LoopState = LoopState(sr: nat, q: U64, r: U64, carry: nat)

  /** The loop invariant: qb and the carry are the quotient bits found so far,
      and the remaining sr bits of n wait in the top of q. */
  ghost predicate Partial(n: U64, d: U64, st: LoopState, qb: nat) {
    match st
    case LoopState(sr, q, r, carry) =>
      && sr <= 63
      && carry < 2
      && r < d
      && q == n % Pow2(sr) * Pow2(64 - sr) + qb
      && qb < Pow2(64 - sr)
      && n / Pow2(sr) == (2 * qb + carry) * d + r
      && (d >= SIGN64 && sr > 0 ==> sr == 1 && n >= SIGN64)
  }

  /** n modulo 2^(k+1) is bit k on top of n modulo 2^k. */
  lemma ModPow2Step(n: nat, k: nat)
    ensures n / Pow2(k) == 2 * (n / Pow2(k + 1)) + n / Pow2(k) % 2
    ensures n % Pow2(k + 1) == (n / Pow2(k) % 2) * Pow2(k) + n % Pow2(k)
  {
    var p := Pow2(k);
    var h := n / p;
    DivDiv(n, p, 2);
    assert n == p * h + n % p;
    assert p * (2 * (h / 2) + h % 2) == (h / 2) * (2 * p) + (h % 2) * p;
    DivUnique(n, 2 * p, h / 2, (h % 2) * p + n % p);
  }

  /** The top bit of q is the next bit of n, and shifting q left keeps its form. */
  lemma NextBit(n: U64, sr: nat, q: U64, qb: nat, carry: nat)
    requires 1 <= sr <= 63 && carry < 2 && qb < Pow2(64 - sr)
    requires q == n % Pow2(sr) * Pow2(64 - sr) + qb
    ensures q / SIGN64 == n / Pow2(sr - 1) % 2
    ensures (2 * q + carry) % W64 == n % Pow2(sr - 1) * Pow2(64 - (sr - 1)) + (2 * qb + carry)
    ensures 2 * qb + carry < Pow2(64 - (sr - 1))
  {
    var p, c := Pow2(sr - 1), Pow2(64 - sr);
    var bit, low := n / p % 2, n % p;
    ModPow2Step(n, sr - 1);
    Pow2Add(sr - 1, 64 - sr);
    Pow2Words();
    assert Pow2(64 - (sr - 1)) == 2 * c;
    PlaceBit(bit, low, p, c, qb);
    DivUnique(q, SIGN64, bit, low * c + qb);
    MulAssoc(low, 2, c);
    DivUnique(2 * q + carry, W64, bit, 2 * (low * c) + (2 * qb + carry));
  }

  lemma PlaceBit(bit: nat, low: nat, p: nat, c: nat, qb: nat)
    requires low < p && qb < c && p * c == SIGN64
    ensures (bit * p + low) * c == bit * SIGN64 + low * c
    ensures 0 <= low * c && low * c + qb < SIGN64
  {
    Distribute(bit * p, low, c);
    MulAssoc(bit, p, c);
    MulMono(low + 1, p, c);
    Distribute(low, 1, c);
  }

  lemma Sub64Value(x: U64, y: U64)
    ensures Sub64(x, y) == if x >= y then x - y else x - y + W64
  {
    DivUnique(x - y, W64, if x >= y then 0 else -1, if x >= y then x - y else x - y + W64);
  }

  /** `d - r - 1` after the shift, as the mask the code derives from its sign bit. */
  function CompareMask(d: U64, r: U64): U64 {
    SignMask(Sub64(Sub64(d, r), 1))
  }

  /** The branchless comparison: `d - r - 1` has its sign bit set exactly when r >= d,
      so the mask subtracts d and sets the carry exactly then. */
  lemma BranchlessCompare(d: U64, r: nat, r1: U64)
    requires r < d && 2 * r <= r1 <= 2 * r + 1
    requires d >= SIGN64 ==> r1 >= SIGN64
    ensures CompareMask(d, r1) == (if r1 >= d then W64 - 1 else 0)
    ensures And(CompareMask(d, r1), 1) == (if r1 >= d then 1 else 0)
    ensures Sub64(r1, And(d, CompareMask(d, r1))) == (if r1 >= d then r1 - d else r1)
  {
    Sub64Value(d, r1);
    Sub64Value(Sub64(d, r1), 1);
    MaskEffects(d);
    if r1 >= d { Sub64Value(r1, d); } else { Sub64Value(r1, 0); }
  }

  lemma MaskEffects(d: U64)
    ensures And(d, W64 - 1) == d && And(d, 0) == 0
    ensures And(W64 - 1, 1) == 1 && And(0, 1) == 0
  {
    Pow2Words();
    AndAllOnes(d, 64);
    AndLowMask(W64 - 1, 1);
    assert Pow2(1) == 2;
  }

  /** One turn of the loop keeps the invariant. */
  lemma LoopStep(n: U64, d: U64, sr: nat, q: U64, r: U64, carry: nat, qb: nat)
    requires sr >= 1 && Partial(n, d, LoopState(sr, q, r, carry), qb)
    ensures q / SIGN64 < 2 && 2 * r + q / SIGN64 < W64
    ensures d >= SIGN64 ==> 2 * r + q / SIGN64 >= SIGN64
    ensures var r1 := 2 * r + q / SIGN64;
            var ge := if r1 >= d then 1 else 0;
            Partial(n, d, LoopState(sr - 1, (2 * q + carry) % W64, if r1 >= d then r1 - d else r1, ge), 2 * qb + carry)
  {
    NextBit(n, sr, q, qb, carry);
    ModPow2Step(n, sr - 1);
    var r1, qc := 2 * r + q / SIGN64, 2 * qb + carry;
    assert n / Pow2(sr - 1) == 2 * qc * d + r1 by { MulAssoc(2, qc, d); }
    NonNegative(2 * qc, d);
    DivBound(n, Pow2(sr - 1));
    if sr == 1 {
      assert Pow2(0) == 1;
      if d >= SIGN64 { QuotientZero(qc, d, r, n / Pow2(1)); }
    }
    Distribute(2 * qc, 1, d);
  }

  lemma NonNegative(a: nat, b: nat)
    ensures a * b >= 0
  {
  }

  lemma QuotientZero(qc: nat, d: nat, r: nat, x: nat)
    requires x == qc * d + r && x < d
    ensures qc == 0
  {
    MulSign(qc, d);
  }

  /** The same turn in the code's own operations. */
  lemma CodeStep(n: U64, d: U64, sr: nat, q: Udwords, r: Udwords, carry: nat, qb: nat)
    requires sr >= 1 && Partial(n, d, LoopState(sr, q.All(), r.All(), carry), qb)
    ensures var r1 := ShiftIn(r, TopBit(q)).All();
            var s := CompareMask(d, r1);
            Partial(n, d, LoopState(sr - 1, ShiftIn(q, carry).All(), Sub64(r1, And(d, s)), And(s, 1)), 2 * qb + carry)
  {
    var r1 := ShiftIn(r, TopBit(q)).All();
    LoopStep(n, d, sr, q.All(), r.All(), carry, qb);
    CodeValues(d, q, r);
    assert ShiftIn(q, carry).All() == (2 * q.All() + carry) % W64;
    assert Partial(n, d, LoopState(sr - 1, ShiftIn(q, carry).All(), if r1 >= d then r1 - d else r1,
      if r1 >= d then 1 else 0), 2 * qb + carry);
  }

  /** What lines 615-628 compute on r and the carry. */
  lemma CodeValues(d: U64, q: Udwords, r: Udwords)
    requires r.All() < d && 2 * r.All() + q.All() / SIGN64 < W64
    requires d >= SIGN64 ==> 2 * r.All() + q.All() / SIGN64 >= SIGN64
    ensures var r1 := ShiftIn(r, TopBit(q)).All();
            var s := CompareMask(d, r1);
            && r1 == 2 * r.All() + q.All() / SIGN64
            && And(s, 1) == (if r1 >= d then 1 else 0)
            && Sub64(r1, And(d, s)) == (if r1 >= d then r1 - d else r1)
  {
    var r1 := 2 * r.All() + TopBit(q);
    SmallMod(r1, W64);
    BranchlessCompare(d, r.All(), r1);
  }

  /** Lines 611-633: the shift-subtract loop turns a normalised state into quotient and remainder. */
  method ShiftSubtract(ghost n: U64, d: U64, shift: nat, q0: Udwords, r0: Udwords) returns (quot: U64, rem: U64)
    requires Normalised(n, d, shift, q0.All(), r0.All())
    ensures n == quot * d + rem && rem < d
  {
    var sr, q, r, carry := shift, q0, r0, 0;
    ghost var qb := 0;
    Start(n, d, sr, q.All(), r.All());
    while sr > 0
      invariant Partial(n, d, LoopState(sr, q.All(), r.All(), carry), qb)
    {
      CodeStep(n, d, sr, q, r, carry, qb);
      r, q := ShiftIn(r, TopBit(q)), ShiftIn(q, carry);
      var s := CompareMask(d, r.All());
      r, qb, carry, sr := Split(Sub64(r.All(), And(d, s))), 2 * qb + carry, And(s, 1), sr - 1;
    }
    Finish(n, d, q, r, carry, qb);
    quot, rem := ShiftIn(q, carry).All(), r.All();
  }

  lemma Start(n: U64, d: U64, sr: nat, q: U64, r: U64)
    requires Normalised(n, d, sr, q, r)
    ensures Partial(n, d, LoopState(sr, q, r, 0), 0)
  {
  }

  /** With no bits left, the last carry completes the quotient. */
  lemma Finish(n: U64, d: U64, q: Udwords, r: Udwords, carry: nat, qb: nat)
    requires Partial(n, d, LoopState(0, q.All(), r.All(), carry), qb)
    ensures n == ShiftIn(q, carry).All() * d + r.All() && r.All() < d
  {
    assert Pow2(0) == 1;
    ZeroMod(1);
    QuotientFits(n, d, ShiftIn(q, carry).All(), 2 * qb + carry, r.All());
  }

  lemma QuotientFits(n: U64, d: U64, quot: nat, full: nat, rem: nat)
    requires n == full * d + rem && rem < d && quot == full % W64
    ensures quot == full
  {
    MulMono(1, d, full);
    SmallMod(full, W64);
  }

  // ---------------------------------------------------------- normalisation

  function Sub32(x: U32, y: U32): U32 { (x - y) % W32 }

  /** How far r = n >> sr falls below the divisor, from the leading zeros of the two operands. */
  lemma ShiftedBelow(n: Udwords, d: U64, sr: nat, top: nat)
    requires n.high > 0 && sr + top == 64 - Clz32(n.high) && Pow2(top) <= d
    ensures n.All() / Pow2(sr) < d
  {
    var k := 32 - Clz32(n.high);
    assert n.All() < Pow2(k + 32) by {
      Clz32Bounds(n.high);
      Pow2Words();
      Pow2Add(k, 32);
      MulMono(n.high + 1, Pow2(k), W32);
    }
    Pow2Add(sr, top);
    DivLess(n.All(), Pow2(sr), Pow2(top));
  }

  /** Lines 516-520, 557-563 and 599-601: fewer than 32 places. */
  lemma NormaliseShort(n: Udwords, d: U64, sr: nat)
    requires 1 <= sr <= 31 && n.All() / Pow2(sr) < d
    requires d >= SIGN64 ==> sr == 1 && n.All() >= SIGN64
    ensures Or(Shl32(n.high, 32 - sr), Shr32(n.low, sr)) < W32
    ensures Normalised(n.All(), d, sr, Udwords(Shl32(n.low, 32 - sr), 0).All(),
                       Udwords(Shr32(n.high, sr), Or(Shl32(n.high, 32 - sr), Shr32(n.low, sr))).All())
  {
    ShiftDoubleRight(n, sr);
  }

  /** Lines 550-556 and 591-596: exactly one word. */
  lemma NormaliseWord(n: Udwords, d: U64)
    requires n.high < d < SIGN64
    ensures Normalised(n.All(), d, 32, Udwords(n.low, 0).All(), Udwords(0, n.high).All())
  {
    Pow2Words();
    DivUnique(n.All(), W32, n.high, n.low);
  }

  /** Lines 564-571: more than one word. */
  lemma NormaliseLong(n: Udwords, d: U64, sr: nat)
    requires 33 <= sr <= 63 && d < SIGN64
    requires n.All() / Pow2(sr) < d
    ensures Or(Shl32(n.high, 64 - sr), Shr32(n.low, sr - 32)) < W32
    ensures Normalised(n.All(), d, sr,
                       Udwords(Or(Shl32(n.high, 64 - sr), Shr32(n.low, sr - 32)), Shl32(n.low, 64 - sr)).All(),
                       Udwords(0, Shr32(n.high, sr - 32)).All())
  {
    var k := sr - 32;
    var p, c := Pow2(k), Pow2(32 - k);
    Pow2Words();
    Pow2Add(k, 32 - k);
    Pow2Add(32, k);
    HighPart(n.high, p, c);
    HighPart(n.low, p, c);
    FunnelShift(n.high, n.low, p, c);
    ZeroModProduct(n.high % p, c);
    OrDisjoint(n.high % p * c, n.low / p, 32 - k);
    WideRemainder(n.high, n.low, p, c);
  }

  lemma WideRemainder(high: U32, low: U32, p: nat, c: nat)
    requires p > 0 && c > 0 && p * c == W32
    ensures (high * W32 + low) / (W32 * p) == high / p
    ensures (high * W32 + low) % (W32 * p) * c == (high % p * c + low / p) * W32 + low % p * c
  {
    var a, b := high / p, high % p;
    HighPart(high, p, c);
    HighPart(low, p, c);
    MulAssoc(a, p, W32);
    Distribute(a * p, b, W32);
    MulMono(b + 1, p, W32);
    DivUnique(high * W32 + low, W32 * p, a, b * W32 + low);
    Distribute(b * W32, low, c);
    MulAssoc(b, W32, c);
    Distribute(low / p * p, low % p, c);
    MulAssoc(low / p, p, c);
  }

  // ---------------------------------------------------------- the special cases

  /** Shifting both halves right by the trailing zeros of a power-of-two divisor below 2^32 divides by it. */
  lemma PowerOfTwoLow(n: Udwords, dl: U32)
    requires dl > 1 && And(dl, dl - 1) == 0
    ensures 1 <= Ctz(dl) <= 31
    ensures Or(Shl32(n.high, 32 - Ctz(dl)), Shr32(n.low, Ctz(dl))) < W32
    ensures Udwords(Shr32(n.high, Ctz(dl)), Or(Shl32(n.high, 32 - Ctz(dl)), Shr32(n.low, Ctz(dl)))).All() ==
        n.All() / dl
  {
    PowerOfTwo(dl);
    assert Pow2(0) == 1;
    ShiftDoubleRight(n, Ctz(dl));
  }

  lemma LowRemainder(n: Udwords, dl: U32)
    requires dl > 0 && And(dl, dl - 1) == 0
    ensures And(n.low, dl - 1) == n.All() % dl
  {
    var k := Ctz(dl);
    PowerOfTwo(dl);
    Pow2Add(k, 32 - k);
    Pow2Words();
    AndLowMask(n.low, k);
    FunnelShift(n.high, n.low, dl, Pow2(32 - k));
  }

  lemma PowerOfTwoHigh(nh: U32, dh: U32)
    requires dh > 0 && And(dh, dh - 1) == 0
    ensures Ctz(dh) <= 31 && Shr32(nh, Ctz(dh)) == nh / dh && And(nh, dh - 1) == nh % dh
  {
    PowerOfTwo(dh);
    AndLowMask(nh, Ctz(dh));
  }

  lemma PowerOfTwo(d: U32)
    requires d > 0 && And(d, d - 1) == 0
    ensures d == Pow2(Ctz(d)) && Ctz(d) <= 31
  {
    AndPredZero(d);
    Pow2Words();
    if Ctz(d) >= 32 { Pow2Mono(32, Ctz(d)); }
  }

  /** A divisor whose low word is zero divides the high word alone. */
  lemma DivideHigh(n: Udwords, d: Udwords)
    requires d.high > 0 && d.low == 0
    ensures 0 <= n.high / d.high < W32 && 0 <= n.high % d.high < W32
    ensures n.All() == n.high / d.high * d.All() + Udwords(n.high % d.high, n.low).All()
    ensures Udwords(n.high % d.high, n.low).All() < d.All()
  {
    var dh := d.high;
    DivBound(n.high, dh);
    var q, r := n.high / dh, n.high % dh;
    assert n.high == q * dh + r;
    Distribute(q * dh, r, W32);
    MulAssoc(q, dh, W32);
  }

  /** The comparison `sr > 31` after the wrapped subtraction means the dividend is the smaller number. */
  lemma ClzOrder(n: Udwords, d: Udwords)
    requires n.high > 0 && d.high > 0
    ensures Sub32(Clz32(d.high), Clz32(n.high)) > 31 <==> Clz32(d.high) < Clz32(n.high)
    ensures Clz32(d.high) < Clz32(n.high) ==> n.All() < d.All()
    ensures Clz32(d.high) >= Clz32(n.high) ==> Sub32(Clz32(d.high), Clz32(n.high)) == Clz32(d.high) - Clz32(n.high)
  {
    var x, y := Clz32(d.high), Clz32(n.high);
    if x < y {
      DivUnique(x - y, W32, -1, x - y + W32);
      Clz32Bounds(n.high);
      Clz32Bounds(d.high);
      Pow2Mono(32 - y, 31 - x);
    } else {
      SmallMod(x - y, W32);
    }
  }

  lemma HighShift(n: Udwords, d: Udwords, sr: nat)
    requires n.high > 0 && d.high > 0
    requires Clz32(d.high) >= Clz32(n.high) && sr == Clz32(d.high) - Clz32(n.high) + 1
    ensures 1 <= sr <= 32 && n.All() / Pow2(sr) < d.All()
    ensures sr == 32 ==> n.high < d.All() < SIGN64
    ensures d.All() >= SIGN64 ==> sr == 1 && n.All() >= SIGN64
  {
    var top := 63 - Clz32(d.high);
    Pow2Words();
    Clz32Bounds(d.high);
    Clz32Bounds(n.high);
    Pow2Add(31 - Clz32(d.high), 32);
    ShiftedBelow(n, d.All(), sr, top);
    DivUnique(n.All(), W32, n.high, n.low);
    if d.All() >= SIGN64 && Clz32(d.high) > 0 {
      Pow2Mono(32 - Clz32(d.high), 31);
    }
  }

  lemma LowShift(n: Udwords, d: Udwords, sr: U32)
    requires n.high > 0 && d.high == 0 && d.low > 1
    requires sr == Sub32(1 + 32 + Clz32(d.low), Clz32(n.high))
    ensures 2 <= sr <= 63 && n.All() / Pow2(sr) < d.All()
    ensures sr == 32 ==> n.high < d.All()
  {
    var x, y := Clz32(d.low), Clz32(n.high);
    SmallMod(33 + x - y, W32);
    Clz32Bounds(d.low);
    assert Pow2(1) == 2;
    ShiftedBelow(n, d.All(), sr, 31 - x);
    Pow2Words();
    DivUnique(n.All(), W32, n.high, n.low);
  }

  /** Lines 460-521: the low word of the divisor is zero.  Every shift meets the
      precondition of Shl32 or Shr32, so no count reaches the word width. */
  method DivideByHighWord(n: Udwords, d: Udwords) returns (quot: U64, rem: U64)
    requires n.high > 0 && d.low == 0 && d.high > 0
    ensures n.All() == quot * d.All() + rem && rem < d.All()
  {
    DivideHigh(n, d);
    if n.low == 0 {
      return n.high / d.high, Udwords(n.high % d.high, 0).All();
    }
    if And(d.high, d.high - 1) == 0 {
      PowerOfTwoHigh(n.high, d.high);
      return Shr32(n.high, Ctz(d.high)), Udwords(And(n.high, d.high - 1), n.low).All();
    }
    var sr := Sub32(Clz32(d.high), Clz32(n.high));
    ClzOrder(n, d);
    Clz32Bounds(d.high);
    assert Pow2(1) == 2;
    if sr > 30 {
      return 0, n.All();
    }
    sr := sr + 1;
    HighShift(n, d, sr);
    NormaliseShort(n, d.All(), sr);
    var q := Udwords(Shl32(n.low, 32 - sr), 0);
    var r := Udwords(Shr32(n.high, sr), Or(Shl32(n.high, 32 - sr), Shr32(n.low, sr)));
    quot, rem := ShiftSubtract(n.All(), d.All(), sr, q, r);
  }

  /** Lines 524-572: the divisor fits in the low word. */
  method DivideByLowWord(n: Udwords, d: Udwords) returns (quot: U64, rem: U64)
    requires n.high > 0 && d.low > 0 && d.high == 0
    ensures n.All() == quot * d.All() + rem && rem < d.All()
  {
    if And(d.low, d.low - 1) == 0 {
      rem := And(n.low, d.low - 1);
      LowRemainder(n, d.low);
      DivEquation(n.All(), d.low);
      if d.low == 1 {
        return n.All(), rem;
      }
      PowerOfTwoLow(n, d.low);
      var sr := Ctz(d.low);
      return Udwords(Shr32(n.high, sr), Or(Shl32(n.high, 32 - sr), Shr32(n.low, sr))).All(), rem;
    }
    var sr := Sub32(1 + 32 + Clz32(d.low), Clz32(n.high));
    AndZero(1);
    LowShift(n, d, sr);
    var q, r;
    if sr == 32 {
      NormaliseWord(n, d.All());
      q, r := Udwords(n.low, 0), Udwords(0, n.high);
    } else if sr < 32 {
      NormaliseShort(n, d.All(), sr);
      q := Udwords(Shl32(n.low, 32 - sr), 0);
      r := Udwords(Shr32(n.high, sr), Or(Shl32(n.high, 32 - sr), Shr32(n.low, sr)));
    } else {
      NormaliseLong(n, d.All(), sr);
      q := Udwords(Or(Shl32(n.high, 64 - sr), Shr32(n.low, sr - 32)), Shl32(n.low, 64 - sr));
      r := Udwords(0, Shr32(n.high, sr - 32));
    }
    quot, rem := ShiftSubtract(n.All(), d.All(), sr, q, r);
  }

  /** Lines 573-603: both words of the divisor are set. */
  method DivideByBothWords(n: Udwords, d: Udwords) returns (quot: U64, rem: U64)
    requires n.high > 0 && d.low > 0 && d.high > 0
    ensures n.All() == quot * d.All() + rem && rem < d.All()
  {
    var sr := Sub32(Clz32(d.high), Clz32(n.high));
    ClzOrder(n, d);
    if sr > 31 {
      return 0, n.All();
    }
    sr := sr + 1;
    HighShift(n, d, sr);
    var q, r;
    if sr == 32 {
      NormaliseWord(n, d.All());
      q, r := Udwords(n.low, 0), Udwords(0, n.high);
    } else {
      NormaliseShort(n, d.All(), sr);
      q := Udwords(Shl32(n.low, 32 - sr), 0);
      r := Udwords(Shr32(n.high, sr), Or(Shl32(n.high, 32 - sr), Shr32(n.low, sr)));
    }
    quot, rem := ShiftSubtract(n.All(), d.All(), sr, q, r);
  }

  /** Lines 426-634: the quotient and, through `rem`, the remainder of two unsigned 64-bit numbers. */
  method Udivmoddi4(a: U64, b: U64) returns (quot: U64, rem: U64)
    requires b != 0
    ensures a == quot * b + rem && rem < b
  {
    var n, d := Split(a), Split(b);
    if n.high == 0 {
      if d.high == 0 {
        DivEquation(n.low, d.low);
        DivBound(n.low, d.low);
        return n.low / d.low, n.low % d.low;
      }
      return 0, n.low;
    }
    if d.low == 0 {
      quot, rem := DivideByHighWord(n, d);
    } else if d.high == 0 {
      quot, rem := DivideByLowWord(n, d);
    } else {
      quot, rem := DivideByBothWords(n, d);
    }
  }
}
