/** Number() on the values that JSON holds, in ten-thousandths; none stands for NaN. */
module Numbers {
  import opened Text
  import opened Json

  /** The digits after a point, the first of them worth `unit`. */
  function FractionValue(s: string, unit: nat): nat
    requires AllDigits(s)
    decreases |s|
  {
    if s == "" then 0 else (s[0] as nat - '0' as nat) * unit + FractionValue(s[1..], unit / 10)
  }

  lemma {:induction false} RunIs(s: string)
    ensures Run(s) <= |s| && AllDigits(s[..Run(s)])
  {
    if s != "" && IsDigit(s[0]) {
      RunIs(s[1..]);
    }
  }

  /** Digits, a point and up to four digits, of which one side may be missing. */
  function UnsignedNumber(s: string): Option<nat> {
    RunIs(s);
    var whole, rest := s[..Run(s)], s[Run(s)..];
    if rest == "" then (if whole == "" then None else Some(10000 * DigitsValue(whole)))
    else if rest[0] == '.' && AllDigits(rest[1..]) && |rest| <= 5 && (whole != "" || |rest| > 1) then
      Some(10000 * DigitsValue(whole) + FractionValue(rest[1..], 1000))
    else None
  }

  function TextNumber(s: string): Option<int> {
    if s == "" then Some(0)
    else if s[0] == '-' then
      var r := UnsignedNumber(s[1..]);
      if r.Some? then Some(0 - r.value) else None
    else
      var r := UnsignedNumber(if s[0] == '+' then s[1..] else s);
      if r.Some? then Some(r.value) else None
  }

  /** An array counts as the text of its only element. */
  function NumberOf(v: Json): Option<int> {
    match v
    case Null => Some(0)
    case Bool(b) => Some(if b then 10000 else 0)
    case Num(n) => Some(n)
    case Str(s) => TextNumber(s)
    case Arr(items) =>
      if items == [] then Some(0) else if |items| == 1 && !items[0].Bool? then NumberOf(items[0]) else None
    case Obj(_) => None
  }

  lemma {:induction false} FractionReadBack(f: nat, unit: nat)
    requires unit == 1000 || unit == 100 || unit == 10 || unit == 1
    requires f < 10 * unit
    ensures FractionValue(FractionDigits(f, unit), unit) == f
    ensures |FractionDigits(f, unit)| <= (if unit == 1000 then 4 else if unit == 100 then 3 else if unit == 10 then 2 else 1)
    decreases unit
  {
    hide *;
    FractionDigitsSplit(f, unit);
    if f != 0 && unit != 1 {
      FractionReadBack(f % unit, unit / 10);
      FractionValueNext(f / unit, FractionDigits(f % unit, unit / 10), unit);
    } else if f != 0 {
      NoFraction(0);
      FractionValueNext(f, "", unit);
      assert [DigitChar(f)] + "" == [DigitChar(f)];
    } else {
      NoFraction(unit);
    }
  }

  lemma FractionValueNext(d: nat, s: string, unit: nat)
    requires d < 10 && AllDigits(s)
    ensures AllDigits([DigitChar(d)] + s) && FractionValue([DigitChar(d)] + s, unit) == d * unit + FractionValue(s, unit / 10)
  {
    assert ([DigitChar(d)] + s)[1..] == s;
  }

  lemma NoFraction(unit: nat)
    ensures FractionValue("", unit) == 0
  {
  }

  lemma UnsignedReadBack(m: nat)
    ensures UnsignedNumber(UnsignedText(m)) == Some(m)
  {
    var whole, fraction := Digits(m / 10000), Fraction(m % 10000);
    RunOf(whole, fraction);
    assert (whole + fraction)[..|whole|] == whole && (whole + fraction)[|whole|..] == fraction;
    DigitsRoundTrip(m / 10000);
    FractionReadBack(m % 10000, 1000);
    hide Digits, DigitsValue, FractionDigits, FractionValue, Run;
    if m % 10000 != 0 {
      assert fraction[1..] == FractionDigits(m % 10000, 1000);
    }
  }

  /** A number is read back from its own text. */
  lemma NumberReadBack(n: int)
    ensures NumberOf(Str(NumberText(n))) == Some(n) == NumberOf(Arr([Str(NumberText(n))]))
  {
    hide UnsignedNumber, UnsignedText;
    UnsignedReadBack(if n < 0 then -n else n);
    if n < 0 {
      assert NumberText(n)[1..] == UnsignedText(-n);
    }
  }
}
