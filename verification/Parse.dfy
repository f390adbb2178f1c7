/** `atoi` of abstract-machine/klib/src/stdlib.c against the `%d` of the printer. */
module Parse {
  import opened Words
  import opened Format

  /** A signed 32-bit word that overflowed. */
  function Wrap(x: int): int { (x + 0x8000_0000) % 0x1_0000_0000 - 0x8000_0000 }

  predicate IsDigit(c: char) { '0' <= c <= '9' }

  function SkipSpaces(s: string): string {
    if s != [] && s[0] == ' ' then SkipSpaces(s[1..]) else s
  }

  function LeadingDigits(s: string): (r: string)
    ensures forall i {:trigger r[i]} :: 0 <= i < |r| ==> IsDigit(r[i])
  {
    if s != [] && IsDigit(s[0]) then [s[0]] + LeadingDigits(s[1..]) else []
  }

  function DigitValue(c: char): nat
    requires IsDigit(c)
  {
    c as int - '0' as int
  }

  /** The number a string of digits stands for. */
  function Value(s: string): nat
    requires forall i {:trigger s[i]} :: 0 <= i < |s| ==> IsDigit(s[i])
  {
    if s == [] then 0 else 10 * Value(s[..|s| - 1]) + DigitValue(s[|s| - 1])
  }

  /** What `atoi` returns: the digits after the leading spaces, as a 32-bit number. */
  function AtoiOf(s: string): int { Wrap(Value(LeadingDigits(SkipSpaces(s)))) }

  lemma WrapShift(x: int, m: int)
    ensures Wrap(x + m * 0x1_0000_0000) == Wrap(x)
  {
    var q, r := (x + 0x8000_0000) / 0x1_0000_0000, (x + 0x8000_0000) % 0x1_0000_0000;
    DivUnique(x + m * 0x1_0000_0000 + 0x8000_0000, 0x1_0000_0000, q + m, r);
  }

  lemma WrapIs(x: int) returns (m: int)
    ensures Wrap(x) == x + m * 0x1_0000_0000
  {
    m := -((x + 0x8000_0000) / 0x1_0000_0000);
  }

  /** `x * 10 + *nptr - '0'`, each operation wrapping: intermediate overflow does not matter. */
  lemma WrapDigit(y: int, c: int)
    ensures Wrap(Wrap(Wrap(Wrap(y) * 10) + c) - 48) == Wrap(10 * y + c - 48)
  {
    var m := WrapIs(y);
    WrapShift(10 * y, 10 * m);
    var k := WrapIs(10 * y);
    WrapShift(10 * y + c, k);
    var j := WrapIs(10 * y + c);
    WrapShift(10 * y + c - 48, j);
  }

  lemma ValueMore(s: string, c: char)
    requires (forall i {:trigger s[i]} :: 0 <= i < |s| ==> IsDigit(s[i])) && IsDigit(c)
    ensures forall i {:trigger (s + [c])[i]} :: 0 <= i < |s + [c]| ==> IsDigit((s + [c])[i])
    ensures Value(s + [c]) == 10 * Value(s) + DigitValue(c)
  {
    assert (s + [c])[..|s + [c]| - 1] == s;
  }

  /** The digits read so far, and what is still to be read. */
  ghost predicate Read(s: string, i: nat, done: string, all: string, x: int) {
    && i <= |s| && all == done + LeadingDigits(s[i..])
    && (forall k {:trigger done[k]} :: 0 <= k < |done| ==> IsDigit(done[k])) && x == Wrap(Value(done))
  }

  lemma ReadDigit(s: string, i: nat, done: string, all: string, x: int)
    requires Read(s, i, done, all, x) && i < |s| && IsDigit(s[i])
    ensures Read(s, i + 1, done + [s[i]], all, Wrap(Wrap(Wrap(x * 10) + s[i] as int) - '0' as int))
  {
    assert s[i..][1..] == s[i + 1..];
    Glue(done, [s[i]], LeadingDigits(s[i + 1..]));
    ValueMore(done, s[i]);
    WrapDigit(Value(done), s[i] as int);
  }

  lemma ReadAll(s: string, i: nat, done: string, all: string, x: int)
    requires Read(s, i, done, all, x) && (i == |s| || !IsDigit(s[i]))
    ensures all == done
  {
    assert LeadingDigits(s[i..]) == [] && done + [] == done;
  }

  lemma SpacesSkipped(s: string, i: nat)
    requires i <= |s| && (i == |s| || s[i] != ' ') && SkipSpaces(s) == SkipSpaces(s[i..])
    ensures Read(s, i, [], LeadingDigits(SkipSpaces(s)), 0)
  {
    assert SkipSpaces(s[i..]) == s[i..];
    assert [] + LeadingDigits(s[i..]) == LeadingDigits(s[i..]);
  }

  /** `atoi` (lines 22-30) of the string s. */
  method Atoi(s: string) returns (x: int)
    ensures x == AtoiOf(s)
  {
    x := 0;
    var i := 0;
    assert s[0..] == s;
    while i < |s| && s[i] == ' '
      invariant 0 <= i <= |s| && SkipSpaces(s) == SkipSpaces(s[i..])
    {
      assert s[i..][1..] == s[i + 1..];
      i := i + 1;
    }
    SpacesSkipped(s, i);
    ghost var done: string := [];
    while i < |s| && '0' <= s[i] && s[i] <= '9'
      invariant 0 <= i <= |s| && Read(s, i, done, LeadingDigits(SkipSpaces(s)), x)
    {
      ReadDigit(s, i, done, LeadingDigits(SkipSpaces(s)), x);
      done := done + [s[i]];
      x := Wrap(Wrap(Wrap(x * 10) + s[i] as int) - '0' as int);
      i := i + 1;
    }
    ReadAll(s, i, done, LeadingDigits(SkipSpaces(s)), x);
  }

  lemma {:induction false} DigitsAreDigits(n: nat)
    ensures forall i {:trigger Digits(n)[i]} :: 0 <= i < |Digits(n)| ==> IsDigit(Digits(n)[i])
    ensures Value(Digits(n)) == n
  {
    if n < 10 {
      assert Digits(n)[..|Digits(n)| - 1] == [];
    } else {
      DigitsAreDigits(n / 10);
      ValueMore(Digits(n / 10), Digit(n % 10));
    }
  }

  lemma {:induction false} AllDigits(s: string)
    requires forall i {:trigger s[i]} :: 0 <= i < |s| ==> IsDigit(s[i])
    ensures LeadingDigits(s) == s
  {
    if s != [] {
      AllDigits(s[1..]);
      assert s == [s[0]] + s[1..];
    }
  }

  lemma DecimalFormat(v: int)
    requires -0x8000_0000 < v < 0x8000_0000
    ensures var f, args := "%d", [Int(v)]; Fits(f, args) && Render(f, args) == Decimal(v)
  {
    var f, args, rest, none: seq<Arg> := "%d", [Int(v)], "", [];
    assert f[2..] == rest && args[1..] == none;
    assert Fits(rest, none);
    assert HasArg(f[1], args) && After(f[1], args) == none;
    assert Decimal(v) + [] == Decimal(v);
  }

  /** `atoi` reads back what `%d` prints exactly when the number is not negative: it does not know '-'. */
  lemma RoundTrip(v: int)
    requires -0x8000_0000 < v < 0x8000_0000
    ensures var f, args := "%d", [Int(v)];
            Fits(f, args) && (AtoiOf(Render(f, args)) == v <==> v >= 0)
  {
    DecimalFormat(v);
    if v >= 0 {
      DigitsAreDigits(v);
      AllDigits(Digits(v));
      assert IsDigit(Digits(v)[0]);
    } else {
      assert Decimal(v)[0] == '-';
      assert LeadingDigits(SkipSpaces(Decimal(v))) == [];
    }
  }
}
