/** Decimal and quoted text, as JSON.stringify writes them, and why such text can be read back. */
module Text {

  function DigitChar(d: nat): char
    requires d < 10
  {
    (d + '0' as nat) as char
  }

  predicate IsDigit(c: char) {
    '0' <= c <= '9'
  }

  predicate AllDigits(s: string) {
    forall i :: 0 <= i < |s| ==> IsDigit(s[i])
  }

  /** The decimal text of a natural number, without leading zeros. */
  function Digits(n: nat): (s: string)
    ensures s != [] && AllDigits(s)
  {
    if n < 10 then [DigitChar(n)] else Digits(n / 10) + [DigitChar(n % 10)]
  }

  /** The number that a run of digits spells. */
  function DigitsValue(s: string): nat
    requires AllDigits(s)
  {
    if s == [] then 0
    else 10 * DigitsValue(s[..|s| - 1]) + (s[|s| - 1] as nat - '0' as nat)
  }

  lemma {:induction false} DigitsRoundTrip(n: nat)
    ensures DigitsValue(Digits(n)) == n
  {
    if n >= 10 {
      DigitsRoundTrip(n / 10);
      assert Digits(n)[..|Digits(n)| - 1] == Digits(n / 10);
    }
  }

  lemma {:induction false} DigitsHaveNoLeadingZero(n: nat)
    ensures n > 0 ==> Digits(n)[0] != '0'
    ensures |Digits(n)| > 1 ==> n >= 10
  {
    if n >= 10 {
      DigitsHaveNoLeadingZero(n / 10);
    }
  }

  /** The digits of a fraction below 10 * unit, with trailing zeros dropped. */
  function FractionDigits(f: nat, unit: nat): (s: string)
    requires unit == 1000 || unit == 100 || unit == 10 || unit == 1
    requires f < 10 * unit
    ensures AllDigits(s) && (s == [] <==> f == 0)
    decreases unit
  {
    if f == 0 then ""
    else if unit == 1 then [DigitChar(f)]
    else [DigitChar(f / unit)] + FractionDigits(f % unit, unit / 10)
  }

  /** The fraction part of a count of ten-thousandths, spelled as Number's own text spells it. */
  function Fraction(f: nat): (s: string)
    requires f < 10000
    ensures s == [] || s[0] == '.'
  {
    if f == 0 then "" else ['.'] + FractionDigits(f, 1000)
  }

  function UnsignedText(m: nat): (s: string)
    ensures s != [] && IsDigit(s[0])
  {
    Digits(m / 10000) + Fraction(m % 10000)
  }

  /** The text of a number counted in ten-thousandths: 15000 is "1.5". */
  function NumberText(n: int): (s: string)
    ensures s != [] && (if n < 0 then s[0] == '-' else IsDigit(s[0]))
  {
    if n < 0 then ['-'] + UnsignedText(-n) else UnsignedText(n)
  }

  /** What may follow a JSON value: nothing, a comma or a closing bracket. */
  predicate Terminated(rest: string) {
    rest == [] || rest[0] == ',' || rest[0] == ']' || rest[0] == '}'
  }

  /** The length of the leading run of digits. */
  function Run(s: string): nat {
    if s == [] || !IsDigit(s[0]) then 0 else 1 + Run(s[1..])
  }

  lemma {:induction false} RunOf(a: string, p: string)
    requires AllDigits(a) && (p == [] || !IsDigit(p[0]))
    ensures Run(a + p) == |a|
  {
    if a == [] {
      assert a + p == p;
    } else {
      assert (a + p)[1..] == a[1..] + p;
      RunOf(a[1..], p);
    }
  }

  /** A leading run of digits is determined by the whole text. */
  lemma DigitRunUnique(a: string, p: string, b: string, q: string)
    requires AllDigits(a) && AllDigits(b)
    requires (p == [] || !IsDigit(p[0])) && (q == [] || !IsDigit(q[0]))
    requires a + p == b + q
    ensures a == b && p == q
  {
    RunOf(a, p);
    RunOf(b, q);
    assert a == (a + p)[..|a|] && b == (b + q)[..|b|];
    assert p == (a + p)[|a|..] && q == (b + q)[|b|..];
  }

  lemma FractionDigitsSplit(f: nat, unit: nat)
    requires unit == 1000 || unit == 100 || unit == 10 || unit == 1
    requires f < 10 * unit
    ensures f / unit < 10 && f % unit < unit && f == unit * (f / unit) + f % unit
    ensures f == 0 <==> FractionDigits(f, unit) == []
    ensures f != 0 && unit == 1 ==> FractionDigits(f, unit) == [DigitChar(f)]
    ensures f != 0 && unit != 1 ==>
              FractionDigits(f, unit) == [DigitChar(f / unit)] + FractionDigits(f % unit, unit / 10)
  {
  }

  lemma DigitCharInjective(d: nat, e: nat)
    requires d < 10 && e < 10 && DigitChar(d) == DigitChar(e)
    ensures d == e
  {
  }

  lemma {:induction false} FractionDigitsUnique(f: nat, g: nat, unit: nat)
    requires unit == 1000 || unit == 100 || unit == 10 || unit == 1
    requires f < 10 * unit && g < 10 * unit
    requires FractionDigits(f, unit) == FractionDigits(g, unit)
    ensures f == g
    decreases unit
  {
    hide *;
    FractionDigitsSplit(f, unit);
    FractionDigitsSplit(g, unit);
    if f != 0 {
      var a, b := FractionDigits(f, unit), FractionDigits(g, unit);
      if unit == 1 {
        assert a[0] == b[0];
        DigitCharInjective(f, g);
      } else {
        assert a[0] == b[0] && a[1..] == b[1..];
        DigitCharInjective(f / unit, g / unit);
        FractionDigitsUnique(f % unit, g % unit, unit / 10);
      }
    }
  }

  lemma FractionStart(f: nat, p: string)
    requires f < 10000 && Terminated(p)
    ensures f != 0 <==> Fraction(f) + p != [] && (Fraction(f) + p)[0] == '.'
    ensures f == 0 ==> Fraction(f) + p == p
    ensures f != 0 ==> (Fraction(f) + p)[1..] == FractionDigits(f, 1000) + p
  {
    if f == 0 {
      assert Fraction(f) + p == p;
    } else {
      assert Fraction(f) + p == ['.'] + (FractionDigits(f, 1000) + p);
    }
  }

  lemma FractionUnique(f: nat, p: string, g: nat, q: string)
    requires f < 10000 && g < 10000
    requires Terminated(p) && Terminated(q)
    requires Fraction(f) + p == Fraction(g) + q
    ensures f == g && p == q
  {
    FractionStart(f, p);
    FractionStart(g, q);
    if f != 0 {
      DigitRunUnique(FractionDigits(f, 1000), p, FractionDigits(g, 1000), q);
      FractionDigitsUnique(f, g, 1000);
    }
  }

  lemma PartsUnique(d: string, f: string, p: string, e: string, g: string, q: string)
    requires AllDigits(d) && AllDigits(e)
    requires (f == [] || f[0] == '.') && (g == [] || g[0] == '.')
    requires Terminated(p) && Terminated(q)
    requires (d + f) + p == (e + g) + q
    ensures d == e && f + p == g + q
  {
    assert (d + f) + p == d + (f + p) && (e + g) + q == e + (g + q);
    assert f + p == if f == [] then p else [f[0]] + (f[1..] + p);
    assert g + q == if g == [] then q else [g[0]] + (g[1..] + q);
    DigitRunUnique(d, f + p, e, g + q);
  }

  lemma UnsignedTextUnique(m: nat, p: string, n: nat, q: string)
    requires Terminated(p) && Terminated(q)
    requires UnsignedText(m) + p == UnsignedText(n) + q
    ensures m == n && p == q
  {
    PartsUnique(Digits(m / 10000), Fraction(m % 10000), p, Digits(n / 10000), Fraction(n % 10000), q);
    FractionUnique(m % 10000, p, n % 10000, q);
    DigitsRoundTrip(m / 10000);
    DigitsRoundTrip(n / 10000);
  }

  lemma NumberTextUnique(m: int, p: string, n: int, q: string)
    requires Terminated(p) && Terminated(q)
    requires NumberText(m) + p == NumberText(n) + q
    ensures m == n && p == q
  {
    hide UnsignedText, Terminated, Digits, Fraction;
    SignUnique(NumberText(m), p, NumberText(n), q);
    if m < 0 {
      assert NumberText(m)[1..] == UnsignedText(-m) && NumberText(n)[1..] == UnsignedText(-n);
      UnsignedTextUnique(-m, p, -n, q);
    } else {
      UnsignedTextUnique(m, p, n, q);
    }
  }

  lemma SignUnique(a: string, p: string, b: string, q: string)
    requires a != [] && b != [] && a + p == b + q
    ensures a[0] == b[0] && a[1..] + p == b[1..] + q
  {
    assert (a + p)[0] == a[0] && (b + q)[0] == b[0];
    assert (a + p)[1..] == a[1..] + p && (b + q)[1..] == b[1..] + q;
  }

  function HexChar(d: nat): char
    requires d < 16
  {
    if d < 10 then DigitChar(d) else (d - 10 + 'a' as nat) as char
  }

  /** One character inside a JSON string: escaped when it is a quote, a backslash or a control character. */
  function EscapeChar(c: char): (s: string)
    ensures s != [] && s[0] != '"'
  {
    if c == '"' then ['\\', '"']
    else if c == '\\' then ['\\', '\\']
    else if c as nat >= 32 then [c]
    else if c as nat == 8 then ['\\', 'b']
    else if c as nat == 9 then ['\\', 't']
    else if c as nat == 10 then ['\\', 'n']
    else if c as nat == 12 then ['\\', 'f']
    else if c as nat == 13 then ['\\', 'r']
    else ['\\', 'u', '0', '0', HexChar(c as nat / 16), HexChar(c as nat % 16)]
  }

  function Escape(s: string): string {
    if s == [] then [] else EscapeChar(s[0]) + Escape(s[1..])
  }

  function Quote(s: string): (q: string)
    ensures |q| >= 2 && q[0] == '"'
  {
    ['"'] + Escape(s) + ['"']
  }

  lemma EscapeCharUnique(c: char, x: string, d: char, y: string)
    requires EscapeChar(c) + x == EscapeChar(d) + y
    ensures c == d && x == y
  {
    var u, v := EscapeChar(c) + x, EscapeChar(d) + y;
    assert u[0] == EscapeChar(c)[0] && v[0] == EscapeChar(d)[0];
    if |EscapeChar(c)| > 1 { assert u[1] == EscapeChar(c)[1]; }
    if |EscapeChar(d)| > 1 { assert v[1] == EscapeChar(d)[1]; }
    assert |EscapeChar(c)| == |EscapeChar(d)|;
    if |EscapeChar(c)| > 2 {
      assert u[4] == EscapeChar(c)[4] && u[5] == EscapeChar(c)[5];
      assert v[4] == EscapeChar(d)[4] && v[5] == EscapeChar(d)[5];
      assert c as nat / 16 == d as nat / 16 && c as nat % 16 == d as nat % 16;
    }
    assert x == u[|EscapeChar(c)|..] && y == v[|EscapeChar(d)|..];
  }

  function Quoted(s: string, p: string): string {
    Escape(s) + (['"'] + p)
  }

  lemma QuotedStart(s: string, p: string)
    ensures Quoted(s, p) != [] && (s == [] <==> Quoted(s, p)[0] == '"')
    ensures s == [] ==> Quoted(s, p)[1..] == p
    ensures s != [] ==> Quoted(s, p) == EscapeChar(s[0]) + Quoted(s[1..], p)
  {
    if s == [] {
      assert Quoted(s, p) == ['"'] + p;
    } else {
      assert Quoted(s, p)[0] == EscapeChar(s[0])[0];
    }
  }

  lemma {:induction false} QuotedUnique(s: string, p: string, t: string, q: string)
    requires Quoted(s, p) == Quoted(t, q)
    ensures s == t && p == q
    decreases |s|
  {
    QuotedStart(s, p);
    QuotedStart(t, q);
    if s != [] {
      EscapeCharUnique(s[0], Quoted(s[1..], p), t[0], Quoted(t[1..], q));
      QuotedUnique(s[1..], p, t[1..], q);
      assert s == [s[0]] + s[1..] && t == [t[0]] + t[1..];
    }
  }

  lemma QuoteUnique(s: string, p: string, t: string, q: string)
    requires Quote(s) + p == Quote(t) + q
    ensures s == t && p == q
  {
    assert (Quote(s) + p)[1..] == Quoted(s, p);
    assert (Quote(t) + q)[1..] == Quoted(t, q);
    QuotedUnique(s, p, t, q);
  }
}
