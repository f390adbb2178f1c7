/** The signed entry points of abstract-machine/klib/src/int64.c:
    truncating division built on the unsigned one by conditional negation. */
module SignedDivision {
  import opened Words
  import opened Int64

  const MIN64: int := -0x8000_0000_0000_0000

  /** The two's complement reading of a 64-bit pattern. */
  function Signed(x: U64): (r: int)
    ensures MIN64 <= r < -MIN64
  {
    if x >= SIGN64 then x - W64 else x
  }

  function Abs(x: int): nat { if x < 0 then -x else x }

  predicate SameSign(x: int, y: int) { x < 0 <==> y < 0 }

  /** Section 6.5.5 of ISO/IEC 9899:2011: q is a/b with any fractional part discarded. */
  ghost predicate TruncatedQuotient(a: int, b: int, q: int) {
    RemainderFits(a, b, a - q * b)
  }

  ghost predicate RemainderFits(a: int, b: int, r: int) {
    Abs(r) < Abs(b) && (r == 0 || (r < 0 <==> a < 0))
  }

  ghost predicate DivisionEquation(a: int, b: int, q: int, r: int) { a == q * b + r }

  /** r is a % b: it fits and differs from a by a multiple of b. */
  ghost predicate TruncatedRemainder(a: int, b: int, r: int) {
    RemainderFits(a, b, r) && exists q :: DivisionEquation(a, b, q, r)
  }

  /** The standard's conditions leave room for one quotient only. */
  lemma QuotientUnique(a: int, b: int, q1: int, q2: int)
    requires b != 0 && TruncatedQuotient(a, b, q1) && TruncatedQuotient(a, b, q2)
    ensures q1 == q2
  {
    var k := q1 - q2;
    Distribute(k, q2, b);
    MulSign(k, Abs(b));
    if b < 0 { MulNegate(k, b); }
  }

  lemma RemainderUnique(a: int, b: int, r1: int, r2: int)
    requires b != 0 && TruncatedRemainder(a, b, r1) && TruncatedRemainder(a, b, r2)
    ensures r1 == r2
  {
    var q1 :| DivisionEquation(a, b, q1, r1);
    var q2 :| DivisionEquation(a, b, q2, r2);
    QuotientUnique(a, b, q1, q2);
  }

  lemma MulNegate(k: int, b: int)
    ensures k * -b == -(k * b) && -k * b == -(k * b)
  {
  }

  lemma XorMask(x: U64, s: U64)
    requires s == 0 || s == W64 - 1
    ensures Xor(x, s) == (if s == 0 then x else W64 - 1 - x)
    ensures Sub64(Xor(x, s), s) == (if s == 0 || x == 0 then x else W64 - x)
  {
    Pow2Words();
    if s != 0 { XorAllOnes(x, 64); }
    Sub64Value(if s == 0 then x else W64 - 1 - x, s);
  }

  /** `(x ^ s) - s` for a sign mask s: negation when s is all ones. */
  function NegateIf(x: U64, s: U64): (r: U64)
    requires s == 0 || s == W64 - 1
    ensures r == if s == 0 || x == 0 then x else W64 - x
  {
    XorMask(x, s);
    Sub64(Xor(x, s), s)
  }

  lemma XorSigns(s: U64, t: U64)
    requires (s == 0 || s == W64 - 1) && (t == 0 || t == W64 - 1)
    ensures Xor(s, t) == if s == t then 0 else W64 - 1
  {
    Pow2Words();
    XorAllOnes(s, 64);
  }

  function Restore(positive: bool, x: int): int { if positive then x else -x }

  /** Dividing the magnitudes and restoring the signs truncates toward zero. */
  lemma Magnitudes(a: int, b: int, q: nat, r: nat)
    requires b != 0 && Abs(a) == q * Abs(b) + r && r < Abs(b)
    ensures var sq := Restore(SameSign(a, b), q);
            TruncatedQuotient(a, b, sq) && a - sq * b == Restore(a >= 0, r)
    ensures q <= Abs(a)
  {
    MulNegate(q, b);
    MulNegate(q, Abs(b));
    MulMono(1, Abs(b), q);
  }

  /** Lines 369-379: `a / b`. */
  method Divdi3(a: U64, b: U64) returns (quot: U64)
    requires b != 0
    ensures Signed(a) == MIN64 && Signed(b) == -1 ==> Signed(quot) == MIN64
    ensures !(Signed(a) == MIN64 && Signed(b) == -1) ==> TruncatedQuotient(Signed(a), Signed(b), Signed(quot))
  {
    var sa, sb := SignMask(a), SignMask(b);
    var ma, mb := NegateIf(a, sa), NegateIf(b, sb);
    XorSigns(sa, sb);
    sa := Xor(sa, sb);
    var q, r := Udivmoddi4(ma, mb);
    Magnitudes(Signed(a), Signed(b), q, r);
    quot := NegateIf(q, sa);
    if q == SIGN64 && sa == 0 { OnlyOverflow(a, b, q, r); }
  }

  /** The one quotient that does not fit is INT64_MIN / -1. */
  lemma OnlyOverflow(a: U64, b: U64, q: nat, r: nat)
    requires b != 0 && Abs(Signed(a)) == q * Abs(Signed(b)) + r && q == SIGN64
    requires SameSign(Signed(a), Signed(b))
    ensures Signed(a) == MIN64 && Signed(b) == -1
  {
    var n := Abs(Signed(b));
    if n >= 2 { MulMono(2, n, q); }
  }

  /** Lines 393-404: `a % b`, for every nonzero divisor. */
  method Moddi3(a: U64, b: U64) returns (rem: U64)
    requires b != 0
    ensures TruncatedRemainder(Signed(a), Signed(b), Signed(rem))
  {
    var mb := NegateIf(b, SignMask(b));
    var s := SignMask(a);
    var ma := NegateIf(a, s);
    var q, r := Udivmoddi4(ma, mb);
    Magnitudes(Signed(a), Signed(b), q, r);
    rem := NegateIf(r, s);
    ghost var sq := Restore(SameSign(Signed(a), Signed(b)), q);
    assert DivisionEquation(Signed(a), Signed(b), sq, Signed(rem));
  }

  /** Wrapping multiply and subtract compute `a - d * b` on the signed readings. */
  lemma WrappedRemainder(a: U64, b: U64, d: U64)
    ensures (a - d * b) % W64 == (Signed(a) - Signed(d) * Signed(b)) % W64
  {
    var ea, eb, ed := if a >= SIGN64 then 1 else 0, if b >= SIGN64 then 1 else 0, if d >= SIGN64 then 1 else 0;
    var A, B, D := Signed(a), Signed(b), Signed(d);
    assert d * b == D * B + (D * eb + ed * B + ed * eb * W64) * W64 by {
      WrapProduct(D, B, ed, eb);
    }
    ModShift(A - D * B, ea - (D * eb + ed * B + ed * eb * W64));
  }

  lemma WrapProduct(x: int, y: int, i: int, j: int)
    requires 0 <= i <= 1 && 0 <= j <= 1
    ensures (x + i * W64) * (y + j * W64) == x * y + (x * j + i * y + i * j * W64) * W64
  {
  }

  lemma ModShift(x: int, k: int)
    ensures (x + k * W64) % W64 == x % W64
  {
    DivUnique(x + k * W64, W64, x / W64 + k, x % W64);
  }

  /** Lines 383-389: quotient and remainder together; the remainder is right even
      where the quotient overflows. */
  method Divmoddi4(a: U64, b: U64) returns (d: U64, rem: U64)
    requires b != 0
    ensures !(Signed(a) == MIN64 && Signed(b) == -1) ==> TruncatedQuotient(Signed(a), Signed(b), Signed(d))
    ensures TruncatedRemainder(Signed(a), Signed(b), Signed(rem))
    ensures Signed(a) == MIN64 && Signed(b) == -1 ==> Signed(d) == MIN64
  {
    d := Divdi3(a, b);
    rem := (a - d * b) % W64;
    WrappedRemainder(a, b, d);
    ghost var A, B, D := Signed(a), Signed(b), Signed(d);
    if A == MIN64 && B == -1 {
      DivUnique(MIN64 - MIN64 * -1, W64, -1, 0);
      assert DivisionEquation(A, B, -MIN64, Signed(rem));
    } else {
      ghost var R := A - D * B;
      DivUnique(R, W64, if R < 0 then -1 else 0, if R < 0 then R + W64 else R);
      assert DivisionEquation(A, B, D, Signed(rem));
    }
  }
}
