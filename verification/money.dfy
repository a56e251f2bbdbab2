/** The four-decimal codec of the asset disposal form: texts with four decimals and counts of ten-thousandths. */
module Money {
  import opened Json
  import opened Text

  /** padStart with zeros. */
  function Pad(s: string, width: nat): (r: string)
    ensures |r| == if |s| < width then width else |s|
    decreases width - |s|
  {
    if |s| >= width then s else Pad(['0'] + s, width)
  }

  function WithPoint(d: string): string
    requires |d| >= 5
  {
    d[..|d| - 4] + "." + d[|d| - 4..]
  }

  function FourDecimals(m: nat): string {
    WithPoint(Pad(Digits(m), 5))
  }

  /** The text of a count of ten-thousandths. */
  function TextOf(n: int): string {
    if n < 0 then ['-'] + FourDecimals(-n) else FourDecimals(n)
  }

  /** The first point is dropped. */
  function WithoutPoint(s: string): string {
    if s == [] then [] else if s[0] == '.' then s[1..] else [s[0]] + WithoutPoint(s[1..])
  }

  /** BigInt on decimal text: an empty text is zero, a malformed one is an error. */
  function BigIntOf(s: string): Option<int> {
    if s == [] then Some(0)
    else if AllDigits(s) then Some(DigitsValue(s) as int)
    else if |s| > 1 && s[0] == '-' && AllDigits(s[1..]) then Some(0 - DigitsValue(s[1..]))
    else if |s| > 1 && s[0] == '+' && AllDigits(s[1..]) then Some(DigitsValue(s[1..]))
    else None
  }

  /** The count that a text stands for. */
  function MinorOf(s: string): Option<int> {
    BigIntOf(WithoutPoint(s))
  }

  /** Digits without a leading zero, a point and four digits. */
  predicate CanonicalUnsigned(s: string) {
    && |s| >= 6 && s[|s| - 5] == '.' && AllDigits(s[..|s| - 5]) && AllDigits(s[|s| - 4..])
    && (|s| > 6 ==> s[0] != '0')
  }

  predicate Canonical(s: string) {
    CanonicalUnsigned(s) || (s != [] && s[0] == '-' && CanonicalUnsigned(s[1..]))
  }

  const NEGATIVE_ZERO := "-0.0000"

  // ---------------------------------------------------------------- padded digits

  lemma {:induction false} LeadingZero(s: string)
    requires AllDigits(s)
    ensures AllDigits(['0'] + s) && DigitsValue(['0'] + s) == DigitsValue(s)
  {
    var z := ['0'] + s;
    if s != [] {
      LeadingZero(s[..|s| - 1]);
      assert z[..|z| - 1] == ['0'] + s[..|s| - 1];
    } else {
      assert z[..0] == [];
    }
  }

  lemma {:induction false} PadValue(s: string, width: nat)
    requires AllDigits(s)
    ensures AllDigits(Pad(s, width)) && DigitsValue(Pad(s, width)) == DigitsValue(s)
    decreases width - |s|
  {
    if |s| < width {
      LeadingZero(s);
      PadValue(['0'] + s, width);
    }
  }

  lemma {:induction false} PadSnoc(s: string, c: char, width: nat)
    requires width >= 1
    ensures Pad(s + [c], width) == Pad(s, width - 1) + [c]
    decreases width - |s|
  {
    if |s| < width - 1 {
      assert ['0'] + (s + [c]) == (['0'] + s) + [c];
      PadSnoc(['0'] + s, c, width);
    }
  }

  /** Padding keeps the digits in front of which it puts zeros. */
  lemma {:induction false} PadHead(s: string, width: nat)
    ensures |s| >= width ==> Pad(s, width) == s
    ensures |s| < width ==> Pad(s, width)[0] == '0'
    decreases width - |s|
  {
    if |s| < width {
      PadHead(['0'] + s, width);
    }
  }

  lemma DigitsSnoc(v: nat, d: nat)
    requires d < 10 && v > 0
    ensures Digits(10 * v + d) == Digits(v) + [DigitChar(d)]
  {
  }

  /** Digits of the right width, with a leading zero only to fill it, are the padded text of their value. */
  lemma {:induction false} PadOfValue(d: string, width: nat)
    requires AllDigits(d) && |d| >= width >= 1 && (|d| > width ==> d[0] != '0')
    ensures Pad(Digits(DigitsValue(d)), width) == d
    decreases |d|
  {
    var front, c := d[..|d| - 1], d[|d| - 1];
    var v := DigitsValue(front);
    assert d == front + [c];
    var digit := c as nat - '0' as nat;
    assert DigitChar(digit) == c;
    if |d| == 1 {
      assert front == [];
    } else {
      var less := if width == 1 then 1 else width - 1;
      PadOfValue(front, less);
      if v > 0 {
        DigitsSnoc(v, digit);
        PadSnoc(Digits(v), c, width);
        PadHead(Digits(v), width - 1);
        PadHead(Digits(v), less);
      } else {
        assert Digits(v) == "0" && Digits(10 * v + digit) == [c];
        assert front == Pad("0", less);
        PadHead("0", less);
        ZeroFront(c, width);
      }
    }
  }

  lemma ZeroFront(c: char, width: nat)
    requires width >= 2
    ensures Pad([c], width) == Pad("0", width - 1) + [c]
  {
    assert ['0'] + [c] == "0" + [c];
    PadSnoc("0", c, width);
  }

  // ---------------------------------------------------------------- the codec

  lemma {:induction false} WithoutPointAt(a: string, b: string)
    requires forall i :: 0 <= i < |a| ==> a[i] != '.'
    ensures WithoutPoint(a + "." + b) == a + b
  {
    if a == [] {
      assert a + "." + b == ['.'] + b;
      assert (['.'] + b)[1..] == b;
    } else {
      WithoutPointAt(a[1..], b);
      assert (a + "." + b)[1..] == a[1..] + "." + b;
    }
  }

  lemma WithPointIs(d: string)
    requires AllDigits(d) && |d| >= 5
    ensures WithoutPoint(WithPoint(d)) == d
    ensures CanonicalUnsigned(WithPoint(d)) <==> (|d| > 5 ==> d[0] != '0')
    ensures IsDigit(WithPoint(d)[0])
  {
    var a, b := d[..|d| - 4], d[|d| - 4..];
    var u := WithPoint(d);
    WithoutPointAt(a, b);
    assert a + b == d;
    assert u[..|u| - 5] == a && u[|u| - 4..] == b && u[0] == d[0];
  }

  lemma PointIs(u: string)
    requires CanonicalUnsigned(u)
    ensures (var d := WithoutPoint(u);
             AllDigits(d) && |d| >= 5 && (|d| > 5 ==> d[0] != '0') && WithPoint(d) == u)
    ensures IsDigit(u[0])
  {
    var a, b := u[..|u| - 5], u[|u| - 4..];
    assert u == a + "." + b;
    WithoutPointAt(a, b);
    assert (a + b)[..|a + b| - 4] == a && (a + b)[|a + b| - 4..] == b && (a + b)[0] == u[0] == a[0];
  }

  /** The unsigned text of a count, and its digits. */
  lemma FourDecimalsIs(m: nat)
    ensures CanonicalUnsigned(FourDecimals(m)) && IsDigit(FourDecimals(m)[0])
    ensures AllDigits(WithoutPoint(FourDecimals(m))) && DigitsValue(WithoutPoint(FourDecimals(m))) == m
    ensures WithoutPoint(FourDecimals(m)) != []
  {
    hide WithPoint, WithoutPoint, CanonicalUnsigned;
    var d := Pad(Digits(m), 5);
    PadValue(Digits(m), 5);
    DigitsRoundTrip(m);
    PadHead(Digits(m), 5);
    DigitsHaveNoLeadingZero(m);
    WithPointIs(d);
  }

  /** A canonical unsigned text is the text of its count. */
  lemma CanonicalIsText(u: string)
    requires CanonicalUnsigned(u)
    ensures AllDigits(WithoutPoint(u)) && WithoutPoint(u) != []
    ensures FourDecimals(DigitsValue(WithoutPoint(u))) == u
  {
    hide WithPoint, WithoutPoint, CanonicalUnsigned;
    PointIs(u);
    PadOfValue(WithoutPoint(u), 5);
  }

  lemma SignPassed(u: string)
    ensures WithoutPoint(['-'] + u) == ['-'] + WithoutPoint(u)
  {
    assert (['-'] + u)[1..] == u;
  }

  lemma MinorIs(s: string)
    ensures MinorOf(s) == BigIntOf(WithoutPoint(s))
  {
    hide BigIntOf, WithoutPoint;
  }

  lemma SignKept(u: string)
    requires AllDigits(WithoutPoint(u)) && WithoutPoint(u) != []
    ensures MinorOf(['-'] + u) == Some(0 - DigitsValue(WithoutPoint(u)))
    ensures MinorOf(u) == Some(DigitsValue(WithoutPoint(u)) as int)
  {
    hide *;
    SignPassed(u);
    MinorIs(u);
    MinorIs(['-'] + u);
    NegatedDigits(WithoutPoint(u));
  }

  lemma NegatedDigits(d: string)
    requires AllDigits(d) && d != []
    ensures BigIntOf(d) == Some(DigitsValue(d) as int) && BigIntOf(['-'] + d) == Some(0 - DigitsValue(d))
  {
    hide DigitsValue;
    var t := ['-'] + d;
    assert t[1..] == d && !IsDigit(t[0]);
  }

  /** Every count is read back from its text. */
  lemma MinorOfText(n: int)
    ensures MinorOf(TextOf(n)) == Some(n)
  {
    hide FourDecimals, MinorOf, WithoutPoint, DigitsValue, CanonicalUnsigned;
    var m := if n < 0 then -n else n;
    FourDecimalsIs(m);
    SignKept(FourDecimals(m));
  }

  /** The text of a count is canonical and never a negative zero. */
  lemma TextIsCanonical(n: int)
    ensures Canonical(TextOf(n)) && TextOf(n) != NEGATIVE_ZERO
  {
    hide FourDecimals, MinorOf, WithoutPoint, DigitsValue, CanonicalUnsigned;
    var m := if n < 0 then -n else n;
    FourDecimalsIs(m);
    NegativeZeroIs();
    MinorOfText(n);
    FourDecimalsIs(0);
    SignKept(FourDecimals(0));
    assert (['-'] + FourDecimals(m))[1..] == FourDecimals(m);
  }

  lemma ZeroIsCanonical()
    ensures CanonicalUnsigned("0.0000") && WithoutPoint("0.0000") == "00000"
  {
    var zero := "0.0000";
    assert zero[..1] == "0" && zero[2..] == "0000";
    WithoutPointAt("0", "0000");
    assert zero == "0" + "." + "0000" && "0" + "0000" == "00000";
  }

  lemma NegativeZeroIs()
    ensures NEGATIVE_ZERO == ['-'] + FourDecimals(0)
  {
    ZeroIsCanonical();
    Zeros();
    assert NEGATIVE_ZERO == ['-'] + "0.0000";
    hide *;
    CanonicalIsText("0.0000");
  }

  lemma Zeros()
    ensures AllDigits("00000") && DigitsValue("00000") == 0
  {
    LeadingZero("");
    LeadingZero("0");
    LeadingZero("00");
    LeadingZero("000");
    LeadingZero("0000");
    assert ['0'] + "" == "0" && ['0'] + "0" == "00" && ['0'] + "00" == "000";
    assert ['0'] + "000" == "0000" && ['0'] + "0000" == "00000";
  }

  /** Every canonical text is the text of its count, but for negative zero. */
  lemma TextOfMinorIff(s: string)
    requires Canonical(s)
    ensures MinorOf(s).Some?
    ensures TextOf(MinorOf(s).value) == s <==> s != NEGATIVE_ZERO
  {
    hide FourDecimals, MinorOf, WithoutPoint, DigitsValue, CanonicalUnsigned;
    FourDecimalsIs(0);
    NegativeZeroIs();
    if CanonicalUnsigned(s) {
      CanonicalIsText(s);
      SignKept(s);
      FourDecimalsIs(DigitsValue(WithoutPoint(s)));
    } else {
      var u := s[1..];
      assert s == ['-'] + u;
      CanonicalIsText(u);
      SignKept(u);
      assert FourDecimals(0)[0] != '-';
      assert NEGATIVE_ZERO[1..] == FourDecimals(0);
    }
  }

  /** The gain or loss shown is the one canonical text, negative zero aside, that counts the exact difference. */
  lemma GainIsExact(gross: string, carrying: string)
    requires Canonical(gross) && Canonical(carrying)
    ensures MinorOf(gross).Some? && MinorOf(carrying).Some?
    ensures (var gain := MinorOf(gross).value - MinorOf(carrying).value;
             forall s :: Canonical(s) && s != NEGATIVE_ZERO ==> (MinorOf(s) == Some(gain) <==> s == TextOf(gain)))
    ensures (var shown := TextOf(MinorOf(gross).value - MinorOf(carrying).value);
             Canonical(shown) && shown != NEGATIVE_ZERO)
  {
    hide Canonical, MinorOf, TextOf;
    TextOfMinorIff(gross);
    TextOfMinorIff(carrying);
    var gain := MinorOf(gross).value - MinorOf(carrying).value;
    MinorOfText(gain);
    TextIsCanonical(gain);
    forall s | Canonical(s) && s != NEGATIVE_ZERO
      ensures MinorOf(s) == Some(gain) <==> s == TextOf(gain)
    {
      TextOfMinorIff(s);
    }
  }

  /** The one canonical text that the codec does not keep. */
  lemma NegativeZeroExample()
    ensures Canonical(NEGATIVE_ZERO) && MinorOf(NEGATIVE_ZERO) == Some(0) && TextOf(0) != NEGATIVE_ZERO
  {
    hide FourDecimals, MinorOf, WithoutPoint, DigitsValue, CanonicalUnsigned;
    NegativeZeroIs();
    FourDecimalsIs(0);
    SignKept(FourDecimals(0));
    assert NEGATIVE_ZERO[1..] == FourDecimals(0);
  }
}
