/** The printer of abstract-machine/klib/src/stdio.c. */
module Format {
  import opened Words

  datatype Arg = Int(v: int) | Str(s: string)

  // ---------------------------------------------------------- what a format stands for

  function Digit(d: nat): char
    requires d < 10
  {
    '0' + d as char
  }

  /** Decimal digits, most significant first, without leading zeros. */
  function Digits(n: nat): (s: string)
    ensures |s| >= 1
  {
    if n < 10 then [Digit(n)] else Digits(n / 10) + [Digit(n % 10)]
  }

  function Decimal(v: int): string {
    if v < 0 then ['-'] + Digits(-v) else Digits(v)
  }

  /** `(char)v`. */
  function ToChar(v: int): char { (v % 256) as char }

  predicate TakesArg(c: char) { c == 'd' || c == 'c' || c == 's' }

  /** args starts with what directive c asks for.  -INT_MIN does not exist. */
  predicate HasArg(c: char, args: seq<Arg>) {
    TakesArg(c) ==> |args| >= 1 && if c == 's' then args[0].Str?
      else args[0].Int? && (c == 'd' ==> -0x8000_0000 < args[0].v < 0x8000_0000)
  }

  function After(c: char, args: seq<Arg>): seq<Arg>
    requires HasArg(c, args)
  {
    if TakesArg(c) then args[1..] else args
  }

  /** What directive c prints.  Any but %%, %d, %c and %s prints nothing. */
  function Directive(c: char, args: seq<Arg>): string
    requires HasArg(c, args)
  {
    if c == '%' then ['%']
    else if c == 'd' then Decimal(args[0].v)
    else if c == 'c' then [ToChar(args[0].v)]
    else if c == 's' then args[0].s
    else []
  }

  /** The arguments a format asks for are there, and it does not end in a lone '%'. */
  predicate Fits(f: string, args: seq<Arg>) {
    if f == [] then true
    else if f[0] != '%' then Fits(f[1..], args)
    else |f| >= 2 && HasArg(f[1], args) && Fits(f[2..], After(f[1], args))
  }

  /** The characters a format stands for. */
  function Render(f: string, args: seq<Arg>): string
    requires Fits(f, args)
  {
    if f == [] then []
    else if f[0] != '%' then [f[0]] + Render(f[1..], args)
    else Directive(f[1], args) + Render(f[2..], After(f[1], args))
  }

  /** `strlen` of a buffer that holds s and then a NUL. */
  function StrLen(s: string): (n: nat)
    ensures n <= |s|
  {
    if s == [] || s[0] == '\0' then 0 else 1 + StrLen(s[1..])
  }

  // ---------------------------------------------------------- digits by division

  function Pow10(k: nat): (r: nat)
    ensures r >= 1
  {
    if k == 0 then 1 else 10 * Pow10(k - 1)
  }

  /** `*` on words of `width` values. */
  function Times(x: nat, y: nat, width: nat): nat
    requires width > 0
  {
    x * y % width
  }

  lemma PowStep(x: nat, width: nat, i: nat, n: nat)
    requires i < n && Pow10(n) < width && x == Pow10(i)
    ensures Times(x, 10, width) == Pow10(i + 1)
  {
    PowMono(i + 1, n);
    SmallMod(x * 10, width);
  }

  /** `m_pow_n` (lines 7-17) on words of `width` values: wraps around like `unsigned long`. */
  method MPowN(m: nat, n: nat, width: nat) returns (ret: nat)
    requires width > 0
    ensures m == 10 && Pow10(n) < width ==> ret == Pow10(n)
  {
    ret := 1;
    var i := 0;
    while i < n
      invariant 0 <= i <= n
      invariant m == 10 && Pow10(n) < width ==> ret == Pow10(i)
    {
      if m == 10 && Pow10(n) < width { PowStep(ret, width, i, n); }
      ret := Times(ret, m, width);
      i := i + 1;
    }
  }

  lemma PowMono(j: nat, k: nat)
    requires j <= k
    ensures Pow10(j) <= Pow10(k)
  {
    if j < k { PowMono(j, k - 1); }
  }

  /** The k lowest decimal digits of n, leading zeros included. */
  function Padded(n: nat, k: nat): (s: string)
    requires n < Pow10(k)
    ensures |s| == k
    decreases k
  {
    if k == 0 then [] else Padded(n / 10, k - 1) + [Digit(n % 10)]
  }

  function Count(n: nat): (k: nat)
    ensures n < Pow10(k)
  {
    if n == 0 then 0 else 1 + Count(n / 10)
  }

  lemma {:induction false} PaddedIsDigits(n: nat)
    requires n > 0
    ensures Padded(n, Count(n)) == Digits(n)
  {
    if n >= 10 { PaddedIsDigits(n / 10); }
  }

  lemma SplitTop(n: nat, p: nat)
    requires p > 0 && n < 10 * (10 * p)
    ensures n / (10 * p) == n / 10 / p && n % (10 * p) / 10 == n / 10 % p && n % (10 * p) % 10 == n % 10
    ensures 0 <= n / (10 * p) < 10 && 0 <= n % (10 * p) < 10 * p && 0 <= n / 10 % p
  {
    var q, d := n / 10, n % 10;
    var t, r := q / p, q % p;
    assert q == t * p + r;
    MulAssoc(10, t, p);
    TopSplit(n, p, t, r, d);
  }

  lemma TopSplit(n: nat, p: nat, t: int, r: int, d: int)
    requires p > 0 && 0 <= r < p && 0 <= d < 10 && 10 * (t * p) == t * (10 * p) && n == 10 * (t * p + r) + d &&
        n < 10 * (10 * p)
    ensures n / (10 * p) == t && n % (10 * p) == 10 * r + d && (10 * r + d) / 10 == r && (10 * r + d) % 10 == d &&
        0 <= t < 10
  {
    DivUnique(n, 10 * p, t, 10 * r + d);
    DivUnique(10 * r + d, 10, r, d);
    if t >= 10 { MulMono(10, t, p); }
    if t < 0 { MulMono(t, -1, p); }
  }

  lemma PaddedGlue(n: nat, k: nat, t: nat, x: nat, m: nat)
    requires k >= 2 && n < Pow10(k) && t < 10 && m < Pow10(k - 1) && x < Pow10(k - 2) && m % 10 == n % 10 && m / 10 == x
    requires Padded(n / 10, k - 1) == [Digit(t)] + Padded(x, k - 2)
    ensures Padded(n, k) == [Digit(t)] + Padded(m, k - 1)
  {
    assert Padded(n, k) == ([Digit(t)] + Padded(x, k - 2)) + [Digit(n % 10)];
    assert Padded(m, k - 1) == Padded(x, k - 2) + [Digit(n % 10)];
  }

  /** The top digit of n and the rest, for a number of k digits. */
  ghost predicate Peels(n: nat, k: nat, p: nat) {
    && k >= 1 && n < Pow10(k) && p > 0 && p == Pow10(k - 1) && n / p < 10 && n % p < Pow10(k - 1)
    && Padded(n, k) == [Digit(n / p)] + Padded(n % p, k - 1)
  }

  lemma PeelsOne(n: nat)
    requires n < 10
    ensures Peels(n, 1, 1)
  {
    assert Pow10(0) == 1 && Pow10(1) == 10;
    assert Padded(n, 1) == Padded(n / 10, 0) + [Digit(n)];
  }

  lemma PeelsMore(n: nat, k: nat, p: nat)
    requires k >= 2 && n < Pow10(k) && Peels(n / 10, k - 1, p)
    ensures Peels(n, k, 10 * p)
  {
    SplitTop(n, p);
    PaddedGlue(n, k, n / (10 * p), n / 10 % p, n % (10 * p));
  }

  /** The digits seen from the top: what the loop peels off first. */
  lemma {:induction false} PaddedTop(n: nat, k: nat)
    requires k >= 1 && n < Pow10(k)
    ensures Peels(n, k, Pow10(k - 1))
    decreases k
  {
    if k == 1 {
      PeelsOne(n);
    } else {
      PaddedTop(n / 10, k - 1);
      PeelsMore(n, k, Pow10(k - 2));
    }
  }

  // ---------------------------------------------------------- printing a number

  /** Digits of v, most significant first: lines 212-232 without the output. */
  lemma PaddedCount(v: nat)
    ensures var k := if v == 0 then 1 else Count(v); v < Pow10(k) && Padded(v, k) == Digits(v)
  {
    if v == 0 {
      assert Pow10(1) == 10 && Pow10(0) == 1;
      assert Padded(0, 1) == Padded(0, 0) + [Digit(0)];
    } else {
      PaddedIsDigits(v);
    }
  }

  /** `while (val_seg) { cnt++; val_seg /= 10; }` */
  method CountDigits(v: nat) returns (cnt: nat)
    ensures cnt == if v == 0 then 1 else Count(v)
  {
    cnt := 0;
    var seg := v;
    if v != 0 {
      while seg != 0
        invariant cnt + Count(seg) == Count(v)
      {
        cnt := cnt + 1;
        seg := seg / 10;
      }
    } else {
      cnt := 1;
    }
  }

  lemma CountSmall(v: nat)
    requires v < 0x8000_0000
    ensures Count(v) <= 10
  {
    assert Pow10(3) == 1000;
    assert Pow10(6) == 1000 * Pow10(3);
    assert Pow10(9) == 1000 * Pow10(6);
    assert Pow10(10) == 10 * Pow10(9);
    CountLeast(v, 10);
  }

  /** Count is the least number of digits that suffices. */
  lemma {:induction false} CountLeast(v: nat, k: nat)
    requires v < Pow10(k)
    ensures Count(v) <= k
    decreases k
  {
    if v != 0 && k > 0 { CountLeast(v / 10, k - 1); }
  }

  lemma Glue(x: string, y: string, z: string)
    ensures (x + y) + z == x + (y + z)
  {
  }

  /** After the digits `done` of v the loop has still to print the cnt digits of rest. */
  ghost predicate Left(v: nat, done: string, rest: nat, cnt: nat) {
    cnt <= 10 && rest < Pow10(cnt) && Digits(v) == done + Padded(rest, cnt)
  }

  lemma LeftAll(v: nat)
    requires v < 0x8000_0000
    ensures Left(v, [], v, if v == 0 then 1 else Count(v))
  {
    PaddedCount(v);
    CountSmall(v);
  }

  lemma LeftNone(v: nat, done: string, rest: nat)
    requires Left(v, done, rest, 0)
    ensures done == Digits(v)
  {
    assert done + [] == done;
  }

  /** One digit: `val_seg = ArgIntVal / m_pow_n(10, cnt - 1); ArgIntVal %= m_pow_n(10, cnt - 1)`. */
  method NextDigit(rest: nat, cnt: nat, width: nat, ghost v: nat, ghost done: string) returns (c: char, rest': nat)
    requires cnt >= 1 && Left(v, done, rest, cnt) && width >= 0x1_0000_0000
    ensures Left(v, done + [c], rest', cnt - 1) && |done| + 1 <= |Digits(v)| && Digits(v)[..|done| + 1] == done + [c]
  {
    PaddedTop(rest, cnt);
    PowersFit(cnt - 1);
    var p := MPowN(10, cnt - 1, width);
    DivBound(rest, p);
    c := Digit(rest / p);
    rest' := rest % p;
    Glue(done, [c], Padded(rest', cnt - 1));
  }

  lemma PowersFit(k: nat)
    requires k <= 9
    ensures Pow10(k) < 0x1_0000_0000
  {
    assert Pow10(3) == 1000;
    assert Pow10(6) == 1000 * Pow10(3);
    assert Pow10(9) == 1000 * Pow10(6);
    PowMono(k, 9);
  }

  /** The digits of v go to the buffer: lines 226-232. */
  method PutDigits(out: array<char>, str: nat, v: nat, width: nat) returns (str': nat)
    requires v < 0x8000_0000 && width >= 0x1_0000_0000 && str + |Digits(v)| <= out.Length
    modifies out
    ensures str' == str + |Digits(v)|
    ensures out[..str'] == old(out[..str]) + Digits(v) && out[str'..] == old(out[str'..])
  {
    str' := str;
    var cnt: nat := CountDigits(v);
    LeftAll(v);
    var rest: nat := v;
    ghost var done: string := [];
    while cnt != 0
      invariant Left(v, done, rest, cnt) && str' == str + |done| && |done| <= |Digits(v)|
      invariant out[..str'] == old(out[..str]) + done && out[str'..] == old(out[str'..])
      decreases cnt
    {
      var c, next := NextDigit(rest, cnt, width, v, done);
      Glue(old(out[..str]), done, [c]);
      ghost var tail := out[str'..];
      str' := PutChar(out, str', c);
      assert old(out[str'..]) == tail[1..];
      cnt, rest, done := cnt - 1, next, done + [c];
    }
    LeftNone(v, done, rest);
  }

  /** `%d` of `vsprintf` (lines 204-233): the decimal digits go to the buffer at str. */
  method PutInt(out: array<char>, str: nat, arg: int, width: nat) returns (str': nat)
    requires -0x8000_0000 < arg < 0x8000_0000 && width >= 0x1_0000_0000
    requires str + |Decimal(arg)| <= out.Length
    modifies out
    ensures str' == str + |Decimal(arg)|
    ensures out[..str'] == old(out[..str]) + Decimal(arg) && out[str'..] == old(out[str'..])
  {
    str' := str;
    var v := arg;
    if v < 0 {
      v := -v;
      out[str'] := '-';
      str' := str' + 1;
    }
    assert out[..str'] == old(out[..str]) + (if arg < 0 then ['-'] else []);
    str' := PutDigits(out, str', v, width);
  }

  /** `%s` (lines 242-245) and single characters. */
  method PutString(out: array<char>, str: nat, s: string) returns (str': nat)
    requires str + |s| <= out.Length
    modifies out
    ensures str' == str + |s|
    ensures out[..str'] == old(out[..str]) + s && out[str'..] == old(out[str'..])
  {
    str' := str;
    var i := 0;
    while i < |s|
      invariant 0 <= i <= |s| && str' == str + i
      invariant out[..str'] == old(out[..str]) + s[..i] && out[str'..] == old(out[str'..])
    {
      ghost var before := out[..str'];
      out[str'] := s[i];
      assert out[..str' + 1] == before + [s[i]];
      str', i := str' + 1, i + 1;
    }
    assert s[..|s|] == s;
  }

  /** `*str_out++ = c`. */
  method PutChar(out: array<char>, str: nat, c: char) returns (str': nat)
    requires str < out.Length
    modifies out
    ensures str' == str + 1 && out[..str'] == old(out[..str]) + [c] && out[str'..] == old(out[str'..])
  {
    out[str] := c;
    str' := str + 1;
  }

  // ---------------------------------------------------------- vsprintf

  /** How a call ends: with a count, or in `assert(ret_num = strlen(out))`, which stores strlen in
      ret_num and fails when it is 0.  NDEBUG removes the assertion and the assignment with it. */
  datatype Result = Returned(n: nat) | AssertionFailed

  function Final(s: string, ndebug: bool): Result {
    if ndebug then Returned(|s|) else if StrLen(s) == 0 then AssertionFailed else Returned(StrLen(s))
  }

  /** strlen is where the first NUL is. */
  lemma {:induction false} StrLenIs(s: string)
    ensures StrLen(s) == |s| <==> '\0' !in s
    ensures forall i {:trigger s[i]} :: 0 <= i < StrLen(s) ==> s[i] != '\0'
    ensures StrLen(s) < |s| ==> s[StrLen(s)] == '\0'
  {
    if s != [] && s[0] != '\0' {
      StrLenIs(s[1..]);
      assert s == [s[0]] + s[1..];
    }
  }

  /** Lines 258 and 367: the assertion fails exactly when the output is empty or begins with a NUL, and
      the result is the number of characters printed exactly when the output is not empty and has no NUL. */
  lemma FinalIsRight(s: string)
    ensures Final(s, false) == AssertionFailed <==> s == [] || s[0] == '\0'
    ensures Final(s, false) == Returned(|s|) <==> s != [] && '\0' !in s
    ensures Final(s, true) == Returned(|s|)
  {
    StrLenIs(s);
  }

  /** `vsprintf(out, "%c", 0)` prints one character and stops at the assertion. */
  lemma NulFirst()
    ensures Fits("%c", [Int(0)]) && |Render("%c", [Int(0)])| == 1
    ensures Final(Render("%c", [Int(0)]), false).AssertionFailed?
  {
    assert After('c', [Int(0)]) == [];
    assert Fits("%c"[2..], []);
    assert Render("%c"[2..], []) == "";
    assert Render("%c", [Int(0)]) == [ToChar(0)];
  }

  /** A directive of `vsprintf` (lines 198-249). */
  method PutDirective(out: array<char>, str: nat, c: char, args: seq<Arg>, ap: nat, width: nat)
    returns (str': nat, ap': nat)
    requires ap <= |args| && HasArg(c, args[ap..]) && width >= 0x1_0000_0000 &&
        str + |Directive(c, args[ap..])| <= out.Length
    modifies out
    ensures str' == str + |Directive(c, args[ap..])| && out[..str'] == old(out[..str]) + Directive(c, args[ap..])
    ensures out[str'..] == old(out[str'..]) && ap' <= |args| && args[ap'..] == After(c, args[ap..])
  {
    str', ap' := str, ap;
    if c == '%' {
      str' := PutChar(out, str, c);
    } else if c == 'd' {
      str' := PutInt(out, str, args[ap].v, width);
      ap' := ap + 1;
    } else if c == 'c' {
      str' := PutChar(out, str, ToChar(args[ap].v));
      ap' := ap + 1;
    } else if c == 's' {
      str' := PutString(out, str, args[ap].s);
      ap' := ap + 1;
    } else {
      assert out[..str] + [] == out[..str];
    }
  }

  /** What is left to print after one item of the format. */
  lemma RenderItem(fmt: string, p: nat, rest: seq<Arg>)
    requires p < |fmt| && Fits(fmt[p..], rest)
    ensures fmt[p] != '%' ==>
              Fits(fmt[p + 1..], rest) && Render(fmt[p..], rest) == [fmt[p]] + Render(fmt[p + 1..], rest)
    ensures fmt[p] == '%' ==>
              && p + 1 < |fmt| && HasArg(fmt[p + 1], rest) && Fits(fmt[p + 2..], After(fmt[p + 1], rest))
              && Render(fmt[p..], rest) == Directive(fmt[p + 1], rest) + Render(fmt[p + 2..], After(fmt[p + 1], rest))
  {
    var f := fmt[p..];
    assert f[1..] == fmt[p + 1..];
    if f[0] == '%' { assert f[2..] == fmt[p + 2..]; }
  }

  /** What the loop has written after some items: a prefix of the whole output. */
  ghost predicate Printed(before: string, now: string, str: nat, all: string, rest: string) {
    && |before| == |now| && str <= |all| && str <= |now|
    && all == now[..str] + rest && now[str..] == before[str..]
  }

  /** One item of the format: lines 194-255. */
  method PutItem(out: array<char>, str: nat, fmt: string, p: nat, args: seq<Arg>, ap: nat, width: nat,
      ghost before: string, ghost all: string)
    returns (str': nat, p': nat, ap': nat)
    requires p < |fmt| && ap <= |args| && Fits(fmt[p..], args[ap..]) && width >= 0x1_0000_0000
    requires Printed(before, out[..], str, all, Render(fmt[p..], args[ap..])) && |all| < out.Length
    modifies out
    ensures p < p' <= |fmt| && ap' <= |args| && Fits(fmt[p'..], args[ap'..])
    ensures Printed(before, out[..], str', all, Render(fmt[p'..], args[ap'..]))
  {
    str', p', ap' := str, p, ap;
    RenderItem(fmt, p, args[ap..]);
    ghost var done := out[..str];
    ghost var piece;
    if fmt[p'] == '%' {
      p' := p' + 1;
      piece := Directive(fmt[p'], args[ap..]);
      str', ap' := PutDirective(out, str, fmt[p'], args, ap, width);
    } else {
      piece := [fmt[p']];
      str' := PutChar(out, str, fmt[p']);
    }
    p' := p' + 1;
    Glue(done, piece, Render(fmt[p'..], args[ap'..]));
    assert before[str'..] == before[str..][str' - str..];
  }

  /** `vsprintf` (lines 178-260). */
  method VSPrintf(out: array<char>, fmt: string, args: seq<Arg>, width: nat, ndebug: bool) returns (r: Result)
    requires Fits(fmt, args) && width >= 0x1_0000_0000 && |Render(fmt, args)| < out.Length
    modifies out
    ensures var s := Render(fmt, args);
            out[..|s|] == s && out[|s|] == '\0' && out[|s| + 1..] == old(out[|s| + 1..]) && r == Final(s, ndebug)
  {
    var str: nat, p: nat, ap: nat := 0, 0, 0;
    ghost var all := Render(fmt, args);
    assert fmt[0..] == fmt && args[0..] == args;
    while p < |fmt|
      invariant p <= |fmt| && ap <= |args| && Fits(fmt[p..], args[ap..])
      invariant Printed(old(out[..]), out[..], str, all, Render(fmt[p..], args[ap..]))
    {
      str, p, ap := PutItem(out, str, fmt, p, args, ap, width, old(out[..]), all);
    }
    Finish(old(out[..]), out[..], str, all);
    out[str] := '\0';
    assert out[..str] == all;
    r := Final(out[..str], ndebug);
  }

  lemma Finish(before: string, now: string, str: nat, all: string)
    requires Printed(before, now, str, all, [])
    ensures str == |all| && now[..str] == all
  {
    assert all == now[..str];
  }

  // ---------------------------------------------------------- vsnprintf

  function Min(x: int, y: int): int { if x <= y then x else y }

  /** What a bounded write of `piece` leaves: as much of it as fits below n, and whether it was cut. */
  ghost predicate WroteUpTo(before: string, after: string, str: nat, str': nat, n: nat, piece: string, full: bool) {
    && |before| == |after| && str <= str' <= |after| && str' == Min(n, str + |piece|) && (full <==> str + |piece| > n)
    && after[..str'] == before[..str] + piece[..str' - str] && after[str'..] == before[str'..]
  }

  /** `if (ret_num + 1 > n) return ret_num; *str_out++ = c; ret_num++` */
  method PutCharN(out: array<char>, str: nat, n: nat, c: char) returns (full: bool, str': nat)
    requires str <= n && Min(n, str + 1) <= out.Length
    modifies out
    ensures WroteUpTo(old(out[..]), out[..], str, str', n, [c], full)
  {
    full, str' := str + 1 > n, str;
    if full {
      assert out[..][..str] + [c][..0] == out[..][..str];
      return;
    }
    out[str'] := c;
    str' := str' + 1;
    assert out[..][..str'] == out[..][..str] + [c][..1];
  }

  /** One more character of a piece already written up to i. */
  lemma WroteMore(before: string, middle: string, after: string, str: nat, i: nat, str': nat, n: nat, piece: string,
      full: bool)
    requires i < |piece| && str + i <= n && WroteUpTo(before, middle, str, str + i, n, piece[..i], false)
    requires WroteUpTo(middle, after, str + i, str', n, [piece[i]], full)
    ensures if full then WroteUpTo(before, after, str, str', n, piece, true)
        else WroteUpTo(before, after, str, str', n, piece[..i + 1], false)
  {
    var k := str' - (str + i);
    assert [piece[i]][..k] == if k == 0 then [] else [piece[i]];
    if full {
      assert piece[..i][..i] == piece[..i] && piece[..str' - str] == piece[..i];
    } else {
      assert piece[..i + 1] == piece[..i] + [piece[i]];
      assert piece[..i + 1][..i + 1] == piece[..i + 1];
    }
  }

  lemma WroteAnother(before: string, middle: string, after: string, str: nat, str': nat, n: nat, done: string, c: char,
      all: string, full: bool)
    requires |done| < |all| && all[..|done| + 1] == done + [c] && str + |done| <= n
    requires WroteUpTo(before, middle, str, str + |done|, n, done, false) &&
        WroteUpTo(middle, after, str + |done|, str', n, [c], full)
    ensures if full then WroteUpTo(before, after, str, str', n, all, true)
        else WroteUpTo(before, after, str, str', n, done + [c], false)
  {
    var i := |done|;
    assert all[..i] == all[..i + 1][..i] == done && all[i] == all[..i + 1][i] == c;
    WroteMore(before, middle, after, str, i, str', n, all, full);
  }

  lemma WroteNothing(s: string, str: nat, n: nat)
    requires str <= n && str <= |s|
    ensures WroteUpTo(s, s, str, str, n, [], false)
  {
    assert s[..str] + [] == s[..str];
  }

  /** `%s` (lines 346-352). */
  method PutStringN(out: array<char>, str: nat, n: nat, s: string) returns (full: bool, str': nat)
    requires str <= n && Min(n, str + |s|) <= out.Length
    modifies out
    ensures WroteUpTo(old(out[..]), out[..], str, str', n, s, full)
  {
    full, str' := false, str;
    var i := 0;
    WroteNothing(out[..], str, n);
    assert s[..0] == [];
    while i < |s|
      invariant 0 <= i <= |s| && str' == str + i <= n
      invariant WroteUpTo(old(out[..]), out[..], str, str', n, s[..i], false)
    {
      ghost var middle := out[..];
      full, str' := PutCharN(out, str', n, s[i]);
      WroteMore(old(out[..]), middle, out[..], str, i, str', n, s, full);
      if full { return; }
      i := i + 1;
    }
    assert s[..i] == s;
  }

  /** The digit loop of `vsnprintf` (lines 326-335), which stops when the buffer is full. */
  method PutDigitsN(out: array<char>, str: nat, n: nat, v: nat, width: nat) returns (full: bool, str': nat)
    requires v < 0x8000_0000 && width >= 0x1_0000_0000 && str <= n && Min(n, str + |Digits(v)|) <= out.Length
    modifies out
    ensures WroteUpTo(old(out[..]), out[..], str, str', n, Digits(v), full)
  {
    full, str' := false, str;
    var cnt: nat := CountDigits(v);
    LeftAll(v);
    var rest: nat := v;
    ghost var done: string := [];
    WroteNothing(out[..], str, n);
    while cnt != 0
      invariant Left(v, done, rest, cnt) && str' == str + |done| <= n && |done| <= |Digits(v)|
      invariant WroteUpTo(old(out[..]), out[..], str, str', n, done, false)
      decreases cnt
    {
      var c, next := NextDigit(rest, cnt, width, v, done);
      ghost var middle := out[..];
      full, str' := PutCharN(out, str', n, c);
      WroteAnother(old(out[..]), middle, out[..], str, str', n, done, c, Digits(v), full);
      if full { return; }
      cnt, rest, done := cnt - 1, next, done + [c];
    }
    LeftNone(v, done, rest);
  }

  /** `%d` (lines 303-336). */
  method PutIntN(out: array<char>, str: nat, n: nat, arg: int, width: nat) returns (full: bool, str': nat)
    requires -0x8000_0000 < arg < 0x8000_0000 && width >= 0x1_0000_0000 && str <= n &&
        Min(n, str + |Decimal(arg)|) <= out.Length
    modifies out
    ensures WroteUpTo(old(out[..]), out[..], str, str', n, Decimal(arg), full)
  {
    str' := str;
    var v := arg;
    if v < 0 {
      v := -v;
      full, str' := PutCharN(out, str', n, '-');
      if full {
        assert Decimal(arg)[..0] == ['-'][..0];
        return;
      }
      ghost var middle := out[..];
      full, str' := PutDigitsN(out, str', n, v, width);
      SignAndDigits(old(out[..]), middle, out[..], str, str', n, Digits(v), full);
    } else {
      full, str' := PutDigitsN(out, str', n, v, width);
    }
  }

  lemma SignAndDigits(before: string, middle: string, after: string, str: nat, str': nat, n: nat, s: string, full: bool)
    requires WroteUpTo(before, middle, str, str + 1, n, ['-'], false) &&
        WroteUpTo(middle, after, str + 1, str', n, s, full)
    ensures WroteUpTo(before, after, str, str', n, ['-'] + s, full)
  {
    assert (['-'] + s)[..str' - str] == ['-'] + s[..str' - (str + 1)];
    assert ['-'][..1] == ['-'];
    Glue(before[..str], ['-'], s[..str' - (str + 1)]);
  }

  /** A directive of `vsnprintf` (lines 295-356). */
  method PutDirectiveN(out: array<char>, str: nat, n: nat, c: char, args: seq<Arg>, ap: nat, width: nat)
    returns (full: bool, str': nat, ap': nat)
    requires ap <= |args| && HasArg(c, args[ap..]) && width >= 0x1_0000_0000
    requires str <= n && Min(n, str + |Directive(c, args[ap..])|) <= out.Length
    modifies out
    ensures WroteUpTo(old(out[..]), out[..], str, str', n, Directive(c, args[ap..]), full)
    ensures ap' <= |args| && args[ap'..] == After(c, args[ap..])
  {
    full, str', ap' := false, str, ap;
    if c == '%' {
      full, str' := PutCharN(out, str, n, c);
    } else if c == 'd' {
      ap' := ap + 1;
      full, str' := PutIntN(out, str, n, args[ap].v, width);
    } else if c == 'c' {
      ap' := ap + 1;
      full, str' := PutCharN(out, str, n, ToChar(args[ap].v));
    } else if c == 's' {
      ap' := ap + 1;
      full, str' := PutStringN(out, str, n, args[ap].s);
    } else {
      WroteNothing(out[..], str, n);
    }
  }

  /** The buffer when the output was cut at n characters. */
  ghost predicate CutAt(before: string, now: string, n: nat, all: string) {
    |before| == |now| && n < |all| && n <= |now| && now[..n] == all[..n] && now[n..] == before[n..]
  }

  lemma PrintedMore(before: string, middle: string, now: string, str: nat, str': nat, n: nat, all: string,
      piece: string, rest: string, full: bool)
    requires Printed(before, middle, str, all, piece + rest) && WroteUpTo(middle, now, str, str', n, piece, full)
    ensures if full then str' == n && CutAt(before, now, n, all) else Printed(before, now, str', all, rest)
  {
    var k := str' - str;
    assert all[..str] == middle[..str] && all[str..] == piece + rest;
    assert all[..str'] == middle[..str] + piece[..k];
    if !full {
      assert piece[..k] == piece;
      Glue(middle[..str], piece, rest);
    }
    assert now[str'..] == before[str'..] by {
      assert middle[str'..] == middle[str..][k..] && before[str'..] == before[str..][k..];
    }
  }

  /** One item of the format: lines 291-364. */
  method PutItemN(out: array<char>, str: nat, n: nat, fmt: string, p: nat, args: seq<Arg>, ap: nat, width: nat,
      ghost before: string, ghost all: string)
    returns (full: bool, str': nat, p': nat, ap': nat)
    requires p < |fmt| && ap <= |args| && Fits(fmt[p..], args[ap..]) && width >= 0x1_0000_0000
    requires str <= n && Printed(before, out[..], str, all, Render(fmt[p..], args[ap..])) && Min(n, |all|) <= out.Length
    modifies out
    ensures full ==> str' == n && CutAt(before, out[..], n, all)
    ensures !full ==> p < p' <= |fmt| && ap' <= |args| && Fits(fmt[p'..], args[ap'..]) && str' <= n
                      && Printed(before, out[..], str', all, Render(fmt[p'..], args[ap'..]))
  {
    p', ap' := p, ap;
    RenderItem(fmt, p, args[ap..]);
    ghost var middle := out[..];
    ghost var piece;
    if fmt[p'] == '%' {
      p' := p' + 1;
      piece := Directive(fmt[p'], args[ap..]);
      full, str', ap' := PutDirectiveN(out, str, n, fmt[p'], args, ap, width);
    } else {
      piece := [fmt[p']];
      full, str' := PutCharN(out, str, n, fmt[p']);
    }
    p' := p' + 1;
    PrintedMore(before, middle, out[..], str, str', n, all, piece, Render(fmt[p'..], args[ap'..]), full);
  }

  /** How many bytes of the buffer `vsnprintf` writes for an output of l characters. */
  function Written(l: nat, n: nat): nat { if l <= n then l + 1 else n }

  /** `vsnprintf` (lines 275-370): the first n characters of what `vsprintf` prints.  The NUL is
      written only if the output was not cut, and then also when it does not fit into n characters. */
  method VSNPrintf(out: array<char>, n: nat, fmt: string, args: seq<Arg>, width: nat, ndebug: bool) returns (r: Result)
    requires Fits(fmt, args) && width >= 0x1_0000_0000
    requires Written(|Render(fmt, args)|, n) <= out.Length
    modifies out
    ensures var s := Render(fmt, args);
            if |s| <= n then out[..|s|] == s && out[|s|] == '\0' && out[|s| + 1..] == old(out[|s| + 1..]) &&
              r == Final(s, ndebug)
            else out[..n] == s[..n] && out[n..] == old(out[n..]) && r == Returned(n)
  {
    var str: nat, p: nat, ap: nat := 0, 0, 0;
    var full;
    ghost var all := Render(fmt, args);
    assert fmt[0..] == fmt && args[0..] == args;
    while p < |fmt|
      invariant p <= |fmt| && ap <= |args| && Fits(fmt[p..], args[ap..]) && str <= n
      invariant Printed(old(out[..]), out[..], str, all, Render(fmt[p..], args[ap..]))
    {
      full, str, p, ap := PutItemN(out, str, n, fmt, p, args, ap, width, old(out[..]), all);
      if full { return Returned(str); }
    }
    Finish(old(out[..]), out[..], str, all);
    out[str] := '\0';
    assert out[..str] == all;
    r := Final(out[..str], ndebug);
  }

  /** The NUL of line 366 lands on the byte behind the n bytes offered exactly when the output has n characters. */
  method NulPastBuffer(out: array<char>, n: nat, fmt: string, args: seq<Arg>, width: nat, ndebug: bool)
    returns (r: Result)
    requires Fits(fmt, args) && width >= 0x1_0000_0000 && n < out.Length && out[n] != '\0'
    modifies out
    ensures out[n] == '\0' <==> |Render(fmt, args)| == n
    ensures |Render(fmt, args)| != n ==> out[n] == old(out[n])
  {
    ghost var l, before := |Render(fmt, args)|, out[..];
    r := VSNPrintf(out, n, fmt, args, width, ndebug);
    if l < n {
      assert out[n] == out[l + 1..][n - l - 1] == before[l + 1..][n - l - 1];
    } else if l > n {
      assert out[n] == out[n..][0] == before[n..][0];
    }
  }

  /** `snprintf(out, 1, "a")` on a buffer of one byte overwrites the byte behind it. */
  method OneByteTooFar(behind: char) returns (out: array<char>, r: Result)
    requires behind != '\0'
    ensures fresh(out) && out.Length == 2 && out[0] == 'a' && out[1] == '\0'
  {
    out := new char[2] [behind, behind];
    assert Fits("a"[1..], []) && Render("a"[1..], []) == "";
    assert Render("a", []) == "a";
    r := VSNPrintf(out, 1, "a", [], 0x1_0000_0000, false);
    assert out[..1] == "a" ==> out[0] == 'a';
  }
}
