/** What the directives of abstract-machine/klib/src/stdio.c print, and what `atoi` of stdlib.c reads, on
    the characters themselves. */
module Printing {
  import opened Words
  import opened Format
  import opened Parse

  // ---------------------------------------------------------- one directive

  lemma RenderOne(c: char, args: seq<Arg>)
    requires HasArg(c, args) && After(c, args) == []
    ensures Fits(['%', c], args) && Render(['%', c], args) == Directive(c, args)
  {
    var f := ['%', c];
    assert f[2..] == [];
    assert Fits(f[2..], []);
    assert Directive(c, args) + [] == Directive(c, args);
  }

  /** `%s` prints the string. */
  lemma StringPrinted(t: string)
    ensures Fits("%s", [Str(t)]) && Render("%s", [Str(t)]) == t
  {
    RenderOne('s', [Str(t)]);
  }

  /** `%%` prints a percent sign. */
  lemma PercentPrinted()
    ensures Fits("%%", []) && Render("%%", []) == "%"
  {
    RenderOne('%', []);
  }

  /** `%c` prints the character. */
  lemma CharPrinted(v: int)
    requires 0 <= v < 256
    ensures Fits("%c", [Int(v)]) && Render("%c", [Int(v)]) == [v as char]
  {
    RenderOne('c', [Int(v)]);
  }

  /** An unknown directive prints nothing and takes no argument. */
  lemma UnknownPrinted(c: char)
    requires c != '%' && c != 'd' && c != 'c' && c != 's'
    ensures Fits(['%', c], []) && Render(['%', c], []) == ""
  {
    RenderOne(c, []);
  }

  ghost predicate AllAreDigits(s: string) {
    forall i {:trigger s[i]} :: 0 <= i < |s| ==> '0' <= s[i] <= '9'
  }

  /** s is the number n in decimal, without leading zeros. */
  ghost predicate DecimalOf(s: string, n: nat) {
    AllAreDigits(s) && s != [] && (s[0] == '0' ==> |s| == 1) && Value(s) == n
  }

  lemma {:induction false} DigitsShort(n: nat)
    ensures Digits(n)[0] == '0' <==> n == 0
    ensures n == 0 ==> |Digits(n)| == 1
  {
    if n >= 10 { DigitsShort(n / 10); }
  }

  lemma DigitsDecimal(n: nat)
    ensures DecimalOf(Digits(n), n)
  {
    DigitsAreDigits(n);
    DigitsShort(n);
  }

  /** `%d` prints the number, a negative one as a minus sign and its opposite. */
  lemma NumberPrinted(v: int)
    requires -0x8000_0000 < v < 0x8000_0000
    ensures Fits("%d", [Int(v)])
    ensures v >= 0 ==> DecimalOf(Render("%d", [Int(v)]), v)
    ensures v < 0 ==> exists s :: Render("%d", [Int(v)]) == "-" + s && DecimalOf(s, -v)
  {
    RenderOne('d', [Int(v)]);
    if v >= 0 {
      DigitsDecimal(v);
    } else {
      DigitsDecimal(-v);
      assert Render("%d", [Int(v)]) == "-" + Digits(-v);
    }
  }

  // ---------------------------------------------------------- whole formats

  /** A format without '%' prints itself. */
  lemma {:induction false} PlainPrinted(f: string, args: seq<Arg>)
    requires '%' !in f
    ensures Fits(f, args) && Render(f, args) == f
  {
    if f != [] {
      assert f[0] in f;
      assert forall c :: c in f[1..] ==> c in f;
      PlainPrinted(f[1..], args);
      assert f == [f[0]] + f[1..];
    }
  }

  /** How many arguments a format takes. */
  function ArgCount(f: string): nat {
    if f == [] then 0
    else if f[0] != '%' then ArgCount(f[1..])
    else if |f| < 2 then 0
    else (if TakesArg(f[1]) then 1 else 0) + ArgCount(f[2..])
  }

  /** One format after another prints one output after the other. */
  lemma {:induction false} FormatsJoined(f: string, a: seq<Arg>, g: string, b: seq<Arg>)
    requires Fits(f, a) && |a| == ArgCount(f) && Fits(g, b)
    ensures Fits(f + g, a + b) && Render(f + g, a + b) == Render(f, a) + Render(g, b)
    decreases |f|
  {
    if f == [] {
      assert f + g == g && a + b == b;
    } else if f[0] != '%' {
      FormatsJoined(f[1..], a, g, b);
      JoinedPlain(f, a, g, b);
    } else {
      FormatsJoined(f[2..], After(f[1], a), g, b);
      JoinedDirective(f, a, g, b, After(f[1], a));
    }
  }

  lemma JoinedPlain(f: string, a: seq<Arg>, g: string, b: seq<Arg>)
    requires f != [] && f[0] != '%' && Fits(f, a) && Fits(g, b)
    requires Fits(f[1..] + g, a + b) && Render(f[1..] + g, a + b) == Render(f[1..], a) + Render(g, b)
    ensures Fits(f + g, a + b) && Render(f + g, a + b) == Render(f, a) + Render(g, b)
  {
    var h := f + g;
    assert h[0] == f[0] && h[1..] == f[1..] + g;
    Associate([f[0]], Render(f[1..], a), Render(g, b));
  }

  lemma DirectiveOnly(c: char, a: seq<Arg>, b: seq<Arg>, rest: seq<Arg>)
    requires HasArg(c, a) && rest == After(c, a)
    ensures HasArg(c, a + b) && After(c, a + b) == rest + b && Directive(c, a + b) == Directive(c, a)
  {
  }

  lemma BothParts(f: string, g: string)
    requires |f| >= 2
    ensures |f + g| >= 2 && (f + g)[0] == f[0] && (f + g)[1] == f[1] && (f + g)[2..] == f[2..] + g
  {
  }

  lemma DirectiveFirst(h: string, args: seq<Arg>, c: char, tail: string, rest: seq<Arg>)
    requires |h| >= 2 && h[0] == '%' && h[1] == c && h[2..] == tail && HasArg(c, args) && After(c, args) == rest
    ensures Fits(h, args) == Fits(tail, rest)
    ensures Fits(h, args) ==> Render(h, args) == Directive(c, args) + Render(tail, rest)
  {
  }

  lemma JoinedDirective(f: string, a: seq<Arg>, g: string, b: seq<Arg>, rest: seq<Arg>)
    requires |f| >= 2 && f[0] == '%' && HasArg(f[1], a) && rest == After(f[1], a) && Fits(f[2..], rest) && Fits(g, b)
    requires Fits(f[2..] + g, rest + b) && Render(f[2..] + g, rest + b) == Render(f[2..], rest) + Render(g, b)
    ensures Fits(f, a) && Fits(f + g, a + b) && Render(f + g, a + b) == Render(f, a) + Render(g, b)
  {
    var c, tail := f[1], f[2..];
    BothParts(f, g);
    DirectiveOnly(c, a, b, rest);
    DirectiveFirst(f, a, c, tail, rest);
    DirectiveFirst(f + g, a + b, c, tail + g, rest + b);
    Associate(Directive(c, a), Render(tail, rest), Render(g, b));
  }

  lemma Associate(x: string, y: string, z: string)
    ensures x + (y + z) == (x + y) + z
  {
  }

  // ---------------------------------------------------------- atoi

  function Spaces(k: nat): string { seq(k, _ => ' ') }

  lemma {:induction false} SpacesPassed(k: nat, s: string)
    requires s == [] || s[0] != ' '
    ensures SkipSpaces(Spaces(k) + s) == s
  {
    if k == 0 {
      assert Spaces(k) + s == s;
    } else {
      SpacesPassed(k - 1, s);
      assert (Spaces(k) + s)[1..] == Spaces(k - 1) + s;
    }
  }

  lemma {:induction false} DigitsEnd(ds: string, rest: string)
    requires AllAreDigits(ds) && (rest == [] || !('0' <= rest[0] <= '9'))
    ensures LeadingDigits(ds + rest) == ds
  {
    if ds == [] {
      assert ds + rest == rest;
    } else {
      DigitsEnd(ds[1..], rest);
      assert (ds + rest)[1..] == ds[1..] + rest && ds == [ds[0]] + ds[1..];
    }
  }

  /** `atoi` skips leading spaces, reads digits, and ignores what follows them. */
  lemma AtoiReads(k: nat, ds: string, rest: string)
    requires AllAreDigits(ds) && (rest == [] || !('0' <= rest[0] <= '9'))
    requires ds == [] ==> rest == [] || rest[0] != ' '
    ensures AtoiOf(Spaces(k) + ds + rest) == Wrap(Value(ds))
  {
    SpacesPassed(k, ds + rest);
    DigitsEnd(ds, rest);
    Associate(Spaces(k), ds, rest);
  }

  /** A number that fits an int, between spaces and any text. */
  lemma AtoiReadsNumber(k: nat, n: nat, s: string, rest: string)
    requires n < 0x8000_0000 && DecimalOf(s, n) && (rest == [] || !('0' <= rest[0] <= '9'))
    ensures AtoiOf(Spaces(k) + s + rest) == n
  {
    AtoiReads(k, s, rest);
  }
}
