/** JavaScript numbers as the system meets them: values parsed from request
    bodies, query strings and form fields, compared, checked for being an
    integer, and printed back with `String(n)`. A finite number is kept as
    an exact decimal m / 10^e, which is what every decimal literal denotes;
    binary rounding is not represented. */
module JsNumbers {
  import opened Text

  datatype JsNum = Finite(m: int, e: nat) | NaN | Infinity(negative: bool)

  function Pow10(e: nat): (p: nat)
    ensures p >= 1
  {
    if e == 0 then 1 else 10 * Pow10(e - 1)
  }

  function FromInt(i: int): JsNum {
    Finite(i, 0)
  }

  /** `Number.isInteger(n)`. */
  predicate IsInteger(n: JsNum) {
    n.Finite? && n.m % Pow10(n.e) == 0
  }

  /** The integer an integral number denotes. */
  function IntValue(n: JsNum): int
    requires IsInteger(n)
  {
    n.m / Pow10(n.e)
  }

  /** `Boolean(n)`: zero and NaN are falsy. */
  predicate IsTruthyNumber(n: JsNum) {
    match n
    case Finite(m, _) => m != 0
    case NaN => false
    case Infinity(_) => true
  }

  /** `n > 0`. */
  predicate IsPositive(n: JsNum) {
    (n.Finite? && n.m > 0) || n == Infinity(false)
  }

  /** `n < 0`. */
  predicate IsNegative(n: JsNum) {
    (n.Finite? && n.m < 0) || n == Infinity(true)
  }

  /** `a === b` on numbers: NaN equals nothing; two decimals are equal
      when they agree once their trailing fractional zeros are dropped. */
  predicate SameNumber(a: JsNum, b: JsNum) {
    a != NaN && Normalize(a) == Normalize(b)
  }

  /** `n === i` for an integer `i`: `n` reads as the stored id `i`. */
  predicate MatchesInt(n: JsNum, i: int) {
    SameNumber(n, FromInt(i))
  }

  function Negate(n: JsNum): JsNum {
    match n
    case Finite(m, e) => Finite(-m, e)
    case NaN => NaN
    case Infinity(neg) => Infinity(!neg)
  }

  // ---------------------------------------------------------------------
  // Decimal digits

  function DigitValue(c: char): nat
    requires IsDigit(c)
  {
    c as int - '0' as int
  }

  function DigitChar(d: nat): char
    requires d < 10
  {
    ('0' as int + d) as char
  }

  /** The value of a run of decimal digits (0 for the empty run). */
  function DigitsValue(s: string): nat
    requires AllDigits(s)
  {
    if |s| == 0 then 0 else DigitsValue(s[..|s| - 1]) * 10 + DigitValue(s[|s| - 1])
  }

  /** The shortest decimal spelling of a natural number. */
  function NatText(n: nat): (s: string)
    ensures |s| >= 1 && AllDigits(s)
    ensures |s| > 1 ==> s[0] != '0'
  {
    if n < 10 then [DigitChar(n)] else NatText(n / 10) + [DigitChar(n % 10)]
  }

  /** `String(i)` for an integer. */
  function IntText(i: int): (s: string)
    ensures |s| >= 1
  {
    if i < 0 then "-" + NatText(-i) else NatText(i)
  }

  lemma {:induction false} DigitsValueOfNatText(n: nat)
    ensures DigitsValue(NatText(n)) == n
  {
    if n >= 10 {
      DigitsValueOfNatText(n / 10);
      var s := NatText(n);
      assert s[..|s| - 1] == NatText(n / 10);
    }
  }

  /** Zeros in front of `s` until it is `width` long. */
  function PadZeros(s: string, width: nat): (r: string)
    ensures |r| == if |s| < width then width else |s|
    decreases width - |s|
  {
    if |s| < width then PadZeros("0" + s, width) else s
  }

  // ---------------------------------------------------------------------
  // Number(string)

  /** Position of the first `c` in `s`, or `|s|` when there is none. */
  function IndexOf(s: string, c: char): (i: nat)
    ensures i <= |s|
    ensures forall j :: 0 <= j < i ==> s[j] != c
    ensures i < |s| ==> s[i] == c
  {
    if |s| == 0 then 0 else if s[0] == c then 0 else 1 + IndexOf(s[1..], c)
  }

  /** An unsigned decimal literal: `Infinity`, `ddd`, `ddd.`, `ddd.ddd` or `.ddd`. */
  function ParseUnsigned(t: string): JsNum
  {
    if t == "Infinity" then Infinity(false)
    else if |t| > 0 && AllDigits(t) then Finite(DigitsValue(t), 0)
    else
      var i := IndexOf(t, '.');
      if i == |t| then NaN
      else
        var whole := t[..i];
        var frac := t[i + 1..];
        if AllDigits(whole) && AllDigits(frac) && |whole| + |frac| > 0
        then Finite(DigitsValue(whole + frac), |frac|)
        else NaN
  }

  /** `Number(s)` for a string: white space around the literal is ignored,
      a blank string is 0, an optional sign precedes an unsigned literal,
      and anything else is NaN. */
  function StringToNumber(s: string): JsNum
  {
    var t := Trim(s);
    if |t| == 0 then FromInt(0)
    else if t[0] == '-' then Negate(ParseUnsigned(t[1..]))
    else if t[0] == '+' then ParseUnsigned(t[1..])
    else ParseUnsigned(t)
  }

  /** `Number(String(i)) === i`: printing an integer and reading it back is
      the identity. */
  lemma IntTextRoundTrip(i: int)
    ensures StringToNumber(IntText(i)) == FromInt(i)
  {
    if i < 0 {
      var d := NatText(-i);
      assert IntText(i) == "-" + d;
      DigitsValueOfNatText(-i);
      ParseDigits(d);
      assert ParseUnsigned(d) == Finite(-i, 0);
      assert IsDigit(d[|d| - 1]);
      SignedDigits(d);
      assert StringToNumber("-" + d) == Negate(Finite(-i, 0));
    } else {
      var d := NatText(i);
      assert IntText(i) == d;
      DigitsReadAsInteger(d);
      DigitsValueOfNatText(i);
    }
  }

  /** A minus sign in front of a literal that ends in no white space
      negates it. */
  lemma SignedDigits(d: string)
    requires |d| > 0 && !IsSpace(d[|d| - 1])
    ensures StringToNumber("-" + d) == Negate(ParseUnsigned(d))
  {
    var s := "-" + d;
    assert s[|s| - 1] == d[|d| - 1];
    TrimOfTrimmed(s);
    DropOne("-", d);
  }

  lemma ParseDigits(d: string)
    requires |d| > 0 && AllDigits(d)
    ensures ParseUnsigned(d) == Finite(DigitsValue(d), 0)
  {
    assert d != "Infinity" by { assert IsDigit(d[0]); }
  }

  /** A blank string reads as 0. */
  lemma BlankIsZero(s: string)
    requires AllSpace(s)
    ensures StringToNumber(s) == FromInt(0)
  {
    TrimEmptyIffBlank(s);
  }

  /** A non-empty run of digits reads as the non-negative integer it spells. */
  lemma DigitsReadAsInteger(s: string)
    requires |s| > 0 && AllDigits(s)
    ensures StringToNumber(s) == FromInt(DigitsValue(s))
  {
    assert IsTrimmed(s);
    TrimOfTrimmed(s);
    ParseDigits(s);
    assert s[0] != '-' && s[0] != '+' by { assert IsDigit(s[0]); }
  }

  // ---------------------------------------------------------------------
  // String(number)

  /** The same number with trailing fractional zeros dropped. */
  function Normalize(n: JsNum): (r: JsNum)
    ensures r.Finite? <==> n.Finite?
    ensures r.Finite? ==> r.e <= n.e
    decreases if n.Finite? then n.e else 0
  {
    match n
    case Finite(m, e) =>
      if e > 0 && m % 10 == 0 then Normalize(Finite(m / 10, e - 1)) else n
    case _ => n
  }

  /** `String(n)` in positional notation (the exponent form JavaScript uses
      from 1e21 up and below 1e-6 is not represented). */
  function NumberText(n: JsNum): string
  {
    match Normalize(n)
    case NaN => "NaN"
    case Infinity(neg) => if neg then "-Infinity" else "Infinity"
    case Finite(m, e) =>
      if e == 0 then IntText(m)
      else
        var a: nat := if m < 0 then -m else m;
        (if m < 0 then "-" else "") + NatText(Quotient(a, Pow10(e))) + "."
          + PadZeros(NatText(Remainder(a, Pow10(e))), e)
  }

  function Quotient(a: nat, p: nat): nat
    requires p >= 1
  {
    if a < p then 0 else 1 + Quotient(a - p, p)
  }

  function Remainder(a: nat, p: nat): nat
    requires p >= 1
  {
    if a < p then a else Remainder(a - p, p)
  }

  /** An integer prints as its decimal spelling. */
  lemma NumberTextOfInt(i: int)
    ensures NumberText(FromInt(i)) == IntText(i)
  {
  }
}
