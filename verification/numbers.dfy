/** The numeric library calls of the calculators, on exact reals:
    std::stod (decimal text to a number), std::fmod, M_PI, and the
    `std::fixed << std::setprecision(2)` rendering of a result. Doubles are
    not modelled: every value is the exact real the text denotes. */
module Numbers {
  import opened Outcomes
  import opened Text

  /** M_PI from <cmath>, as written in the C library headers. */
  const Pi: real := 3.14159265358979323846

  /** The product of two doubles, named so that the solver treats it as
      one value rather than as nonlinear arithmetic. */
  function Product(a: real, b: real): real
  {
    a * b
  }

  /** The quotient of two doubles, named like `Product`. */
  function Quotient(a: real, b: real): real
    requires b != 0.0
  {
    a / b
  }

  /** std::isspace in the "C" locale. */
  predicate IsSpace(c: char)
  {
    c == ' ' || c == '\t' || c == '\n' || c == '\U{B}' || c == '\U{C}' || c == '\r'
  }

  function DigitValue(c: char): nat
    requires IsDigit(c)
  {
    (c as int - '0' as int) as nat
  }

  function DigitChar(d: nat): (c: char)
    requires d < 10
    ensures IsDigit(c) && DigitValue(c) == d
  {
    ('0' as int + d) as char
  }

  predicate AllDigits(s: string)
  {
    forall i :: 0 <= i < |s| ==> IsDigit(s[i])
  }

  /** The number a run of decimal digits denotes. */
  function DigitsValue(ds: string): nat
    requires AllDigits(ds)
  {
    if ds == [] then 0 else DigitsValue(ds[..|ds| - 1]) * 10 + DigitValue(ds[|ds| - 1])
  }

  /** How many decimal digits the text starts with. */
  function DigitRun(s: string): (n: nat)
    ensures n <= |s| && AllDigits(s[..n])
    ensures n < |s| ==> !IsDigit(s[n])
  {
    if |s| > 0 && IsDigit(s[0]) then
      var n := 1 + DigitRun(s[1..]);
      assert s[..n] == [s[0]] + s[1..][..n - 1];
      n
    else 0
  }

  function SkipSpaces(s: string): (t: string)
    ensures |t| <= |s|
  {
    if |s| > 0 && IsSpace(s[0]) then SkipSpaces(s[1..]) else s
  }

  /** The factor an exponent part `e[+|-]digits` at the front of `rest`
      contributes; 1 when `rest` does not start with a complete one. */
  function ExponentScale(rest: string): real
  {
    if |rest| > 0 && (rest[0] == 'e' || rest[0] == 'E') then
      var t := rest[1..];
      var negative := |t| > 0 && t[0] == '-';
      var u := if |t| > 0 && (t[0] == '-' || t[0] == '+') then t[1..] else t;
      var n := DigitRun(u);
      if n == 0 then 1.0 else TenTo(Signed(DigitsValue(u[..n]), negative))
    else 1.0
  }

  /** n with a sign: -n when `negative`. */
  function Signed(n: nat, negative: bool): int
  {
    if negative then -(n as int) else n
  }

  /** Ten to the power e, for a negative e as well. */
  function TenTo(e: int): real
    decreases if e >= 0 then e else -e
  {
    if e == 0 then 1.0 else if e > 0 then 10.0 * TenTo(e - 1) else TenTo(e + 1) / 10.0
  }

  /** The value of the digits after a decimal point: the first digit is
      tenths, and the rest shifted one place further. */
  function FractionValue(ds: string): (f: real)
    requires AllDigits(ds)
    ensures 0.0 <= f <= 1.0
  {
    if ds == [] then 0.0 else (DigitValue(ds[0]) as real + FractionValue(ds[1..])) / 10.0
  }

  /** The unsigned part of std::stod: the longest prefix of the form
      `mantissa [exponent]`, the mantissa being digits with an optional
      decimal point and at least one digit. */
  function Unsigned(u: string): (r: Result<real>)
    ensures r.Err? ==> r.error == InvalidArgument("stod")
  {
    var n := DigitRun(u);
    if n < |u| && u[n] == '.' then PointedNumber(u[..n], u[n + 1..])
    else WholeNumber(u[..n], u[n..])
  }

  /** The rest of `Unsigned` when no decimal point follows the digits: at
      least one digit, then an optional exponent. */
  function WholeNumber(whole: string, rest: string): (r: Result<real>)
    requires AllDigits(whole)
    ensures r.Err? ==> r.error == InvalidArgument("stod")
  {
    if whole == [] then Err(InvalidArgument("stod"))
    else Ok(Product(DigitsValue(whole) as real, ExponentScale(rest)))
  }

  /** The rest of `Unsigned` once a decimal point follows the whole digits:
      the fraction digits and an optional exponent; a point with no digit on
      either side is no number. */
  function PointedNumber(whole: string, after: string): (r: Result<real>)
    requires AllDigits(whole)
    ensures r.Err? ==> r.error == InvalidArgument("stod")
  {
    var m := DigitRun(after);
    if whole == [] && m == 0 then Err(InvalidArgument("stod"))
    else Ok(Product(DigitsValue(whole) as real + FractionValue(after[..m]), ExponentScale(after[m..])))
  }

  /** std::stod: after leading white space, an optional sign and the
      unsigned number; std::invalid_argument("stod") when there is no
      number. */
  function Stod(s: string): (r: Result<real>)
    ensures r.Err? ==> r.error == InvalidArgument("stod")
  {
    var t := SkipSpaces(s);
    var negative := |t| > 0 && t[0] == '-';
    var u := if |t| > 0 && (t[0] == '-' || t[0] == '+') then t[1..] else t;
    var magnitude :- Unsigned(u);
    Ok(if negative then -magnitude else magnitude)
  }

  /** Truncation toward zero, as C's conversions and fmod use it. */
  function Trunc(q: real): (t: int)
    ensures q >= 0.0 ==> 0.0 <= q - t as real < 1.0
    ensures q < 0.0 ==> -1.0 < q - t as real <= 0.0
  {
    if q >= 0.0 then q.Floor else -((-q).Floor)
  }

  /** std::fmod: the remainder of x / y with the quotient truncated toward
      zero. It is exact, so the real-valued definition is the C one. */
  function Fmod(x: real, y: real): (r: real)
    requires y != 0.0
    ensures -Abs(y) < r < Abs(y)
    ensures r == 0.0 || (r > 0.0 <==> x > 0.0)
    ensures IsInteger((x - r) / y)
  {
    var q := Trunc(x / y);
    var r := x - y * q as real;
    assert (x - r) / y == q as real;
    FmodBound(x, y, q);
    r
  }

  function Abs(x: real): real { if x < 0.0 then -x else x }

  predicate IsInteger(x: real) { x.Floor as real == x }

  lemma FmodBound(x: real, y: real, q: int)
    requires y != 0.0 && q == Trunc(x / y)
    ensures var r := x - y * q as real;
      -Abs(y) < r < Abs(y) && (r == 0.0 || (r > 0.0 <==> x > 0.0))
  {
    var qq := x / y;
    var f := qq - q as real;
    assert x == y * qq;
    RemainderFromFraction(x, y, qq, f, q as real);
  }

  /** With x = y * qq and f the fractional part of qq (its sign), the
      remainder y * f lies strictly between -|y| and |y| and has x's sign. */
  lemma RemainderFromFraction(x: real, y: real, qq: real, f: real, t: real)
    requires y != 0.0 && x == y * qq && f == qq - t
    requires -1.0 < f < 1.0
    requires f > 0.0 ==> qq > 0.0
    requires f < 0.0 ==> qq < 0.0
    ensures x - y * t == y * f
    ensures -Abs(y) < y * f < Abs(y)
    ensures y * f == 0.0 || (y * f > 0.0 <==> x > 0.0)
  {
    assert y * qq - y * t == y * (qq - t);
    ScaledFraction(y, f);
    SignOfProduct(y, qq);
    SignOfProduct(y, f);
  }

  lemma ScaledFraction(y: real, f: real)
    requires y != 0.0 && -1.0 < f < 1.0
    ensures -Abs(y) < y * f < Abs(y)
  {
    if y > 0.0 {
      ProductBelow(y, f);
    } else {
      ProductBelow(-y, -f);
    }
  }

  lemma SignOfProduct(a: real, b: real)
    ensures a * b > 0.0 <==> (a > 0.0 && b > 0.0) || (a < 0.0 && b < 0.0)
    ensures a * b == 0.0 <==> a == 0.0 || b == 0.0
  {
  }

  lemma ProductBelow(a: real, f: real)
    requires a > 0.0 && -1.0 < f < 1.0
    ensures -a < a * f < a
  {
    assert a * f - a == a * (f - 1.0);
    assert a * f + a == a * (f + 1.0);
  }

  /** Round to the nearest integer, a tie going to the even neighbour, as
      printf does with the default rounding mode. */
  function RoundHalfEven(y: real): (n: nat)
    requires y >= 0.0
    ensures -0.5 <= n as real - y <= 0.5
    ensures (n as real - y == 0.5 || y - n as real == 0.5) ==> n % 2 == 0
  {
    var f := y.Floor;
    var frac := y - f as real;
    if frac < 0.5 then f
    else if frac > 0.5 then f + 1
    else if f % 2 == 0 then f else f + 1
  }

  /** The decimal digits of a natural number, without leading zeros: they
      spell the number back. */
  function NatToDecimal(n: nat): (s: string)
    ensures |s| > 0 && AllDigits(s)
    ensures DigitsValue(s) == n
    ensures |s| == 1 || s[0] != '0'
  {
    if n < 10 then
      var s := [DigitChar(n)];
      assert s[..|s| - 1] == [];
      s
    else
      var p := NatToDecimal(n / 10);
      var s := p + [DigitChar(n % 10)];
      assert s[..|s| - 1] == p;
      assert s[0] == p[0];
      assert |p| == 1 ==> p == [DigitChar(n / 10)] && DigitValue(p[0]) == n / 10;
      s
  }

  /** The number of hundredths `std::fixed << std::setprecision(2)` shows. */
  function Cents(x: real): nat
  {
    RoundHalfEven(Abs(x) * 100.0)
  }

  /** `std::fixed << std::setprecision(2) << x`: sign, whole part, point and
      exactly two decimals of x rounded to hundredths. A negative x keeps its
      minus sign even when it rounds to zero, as printf does. */
  function FormatFixed2(x: real): (s: string)
    ensures |s| >= 4 && s[|s| - 3] == '.' && IsDigit(s[|s| - 2]) && IsDigit(s[|s| - 1])
    ensures (s[0] == '-') == (x < 0.0)
    ensures var start := if x < 0.0 then 1 else 0;
      start < |s| - 3 && AllDigits(s[start..|s| - 3]) && (|s| - 3 - start == 1 || s[start] != '0')
  {
    var whole := NatToDecimal(Cents(x) / 100);
    var s := FixedText(Cents(x), x < 0.0);
    WholePart(whole, [DigitChar(Cents(x) / 10 % 10), DigitChar(Cents(x) % 10)], x < 0.0);
    s
  }

  /** In `[-] whole . fraction` with two fraction characters, the whole
      part is what lies between the sign and the point. */
  lemma WholePart(whole: string, fraction: string, negative: bool)
    requires whole != [] && IsDigit(whole[0]) && |fraction| == 2
    ensures var s := DecimalText(whole, fraction, negative);
      var start := if negative then 1 else 0;
      |s| == start + |whole| + 3 && s[start..|s| - 3] == whole && s[|s| - 3] == '.'
      && s[|s| - 2..] == fraction && (s[0] == '-') == negative
  {
    var s := DecimalText(whole, fraction, negative);
    if negative {
      assert s == ['-'] + whole + ['.'] + fraction;
    } else {
      assert s == whole + ['.'] + fraction;
    }
  }

  /** c hundredths as text: an optional minus sign, the whole part, a point
      and two decimals. */
  function FixedText(c: nat, negative: bool): string
  {
    DecimalText(NatToDecimal(c / 100), [DigitChar(c / 10 % 10), DigitChar(c % 10)], negative)
  }

  /** `[-] whole . fraction` as text. */
  function DecimalText(whole: string, fraction: string, negative: bool): string
  {
    (if negative then "-" else "") + whole + "." + fraction
  }

  /** The value the rendering of x denotes: x rounded to hundredths. */
  function Rounded2(x: real): real
  {
    Hundredths(Cents(x), negative := x < 0.0)
  }

  /** c hundredths, negated when `negative`. */
  function Hundredths(c: nat, negative: bool): real
  {
    if negative then -(c as real / 100.0) else c as real / 100.0
  }

  /** A one-digit text is that digit's value. */
  lemma StodDigit(c: char)
    requires IsDigit(c)
    ensures Stod([c]) == Ok(DigitValue(c) as real)
  {
    var s := [c];
    assert SkipSpaces(s) == s;
    assert DigitRun(s) == 1 by { assert DigitRun(s[1..]) == 0; }
    assert s[..1] == s;
    assert DigitsValue(s) == DigitValue(c) by { assert s[..0] == []; }
  }

  /** A digit followed by a letter is the digit's value: std::stod stops at
      the first character that cannot continue the number. */
  lemma StodDigitLetter(c: char, l: char)
    requires IsDigit(c) && IsAlpha(l)
    ensures Stod([c, l]) == Ok(DigitValue(c) as real)
  {
    var s := [c, l];
    assert SkipSpaces(s) == s;
    assert DigitRun(s) == 1 by { assert DigitRun(s[1..]) == 0; }
    assert s[..1] == [c] && s[1..] == [l];
    assert DigitsValue([c]) == DigitValue(c) by { assert [c][..0] == []; }
    assert ExponentScale([l]) == 1.0;
  }

  /** A minus sign and a digit is the digit's value negated. */
  lemma StodNegativeDigit(c: char)
    requires IsDigit(c)
    ensures Stod(['-', c]) == Ok(-(DigitValue(c) as real))
  {
    var s := ['-', c];
    var u := s[1..];
    assert SkipSpaces(s) == s;
    assert u == [c];
    assert DigitRun(u) == 1 by { assert DigitRun(u[1..]) == 0; }
    assert u[..1] == u && u[1..] == [];
    assert DigitsValue(u) == DigitValue(c) by { assert u[..0] == []; }
  }

  /** A run of digits stops where the first non-digit stands. */
  lemma {:induction false} DigitRunOf(ds: string, rest: string)
    requires AllDigits(ds)
    requires rest == [] || !IsDigit(rest[0])
    ensures DigitRun(ds + rest) == |ds|
    decreases |ds|
  {
    if ds != [] {
      assert (ds + rest)[1..] == ds[1..] + rest;
      DigitRunOf(ds[1..], rest);
    }
  }

  /** A text that starts with a sign, a digit or a point has no leading
      white space to skip. */
  lemma NoSpaceToSkip(t: string)
    requires |t| > 0 && (t[0] == '-' || t[0] == '.' || IsDigit(t[0]))
    ensures SkipSpaces(t) == t
  {
  }

  /** A run of digits alone is the number the digits spell. */
  lemma UnsignedDigits(ds: string)
    requires ds != [] && AllDigits(ds)
    ensures Unsigned(ds) == Ok(DigitsValue(ds) as real)
  {
    assert DigitRun(ds) == |ds| by {
      DigitRunOf(ds, []);
      assert ds + [] == ds;
    }
    assert ds[..|ds|] == ds && ds[|ds|..] == [];
  }

  /** With no blank and no sign in front, std::stod reads the unsigned
      number. */
  lemma StodUnsigned(t: string)
    requires t != [] && !IsSpace(t[0]) && t[0] != '-' && t[0] != '+'
    ensures Stod(t) == Unsigned(t)
  {
  }

  /** A minus sign in front negates the unsigned number that follows. */
  lemma StodMinus(u: string)
    requires Unsigned(u).Ok?
    ensures Stod(['-'] + u) == Ok(-Unsigned(u).value)
  {
    assert (['-'] + u)[1..] == u;
  }

  /** A text starting with a digit or a point is read as its unsigned
      number, and with a minus sign before it as that number negated. */
  lemma StodSign(u: string, v: real)
    requires u != [] && (IsDigit(u[0]) || u[0] == '.') && Unsigned(u) == Ok(v)
    ensures Stod(u) == Ok(v)
    ensures Stod(['-'] + u) == Ok(-v)
  {
    StodUnsigned(u);
    StodMinus(u);
  }

  /** std::stod of a run of digits, with or without a minus sign, is the
      number the digits spell, or its negation. */
  lemma StodDigits(ds: string)
    requires ds != [] && AllDigits(ds)
    ensures Stod(ds) == Ok(DigitsValue(ds) as real)
    ensures Stod(['-'] + ds) == Ok(-(DigitsValue(ds) as real))
  {
    UnsignedDigits(ds);
    StodSign(ds, DigitsValue(ds) as real);
  }

  /** The sign written after the exponent marker, if any. */
  function ExponentSign(negative: bool): string
  {
    if negative then "-" else ""
  }

  /** An exponent `e[-]digits` with nothing after it scales by ten to the
      power the digits spell, negated after a minus sign. */
  lemma ExponentOf(es: string, negative: bool)
    requires es != [] && AllDigits(es)
    ensures ExponentScale("e" + ExponentSign(negative) + es)
      == TenTo(Signed(DigitsValue(es), negative))
  {
    var rest := "e" + ExponentSign(negative) + es;
    var u := if negative then rest[2..] else rest[1..];
    assert u == es;
    assert DigitRun(es) == |es| by {
      DigitRunOf(es, []);
      assert es + [] == es;
    }
    assert es[..|es|] == es;
  }

  /** `digits e [-] digits` as text. */
  function ExponentText(ds: string, es: string, negative: bool): string
  {
    ds + ("e" + ExponentSign(negative) + es)
  }

  /** The number `digits e [-] digits` stands for. */
  function ExponentNumber(ds: string, es: string, negative: bool): real
    requires AllDigits(ds) && AllDigits(es)
  {
    Product(DigitsValue(ds) as real, TenTo(Signed(DigitsValue(es), negative)))
  }

  /** Digits followed by an exponent are the digits' number times the
      power of ten the exponent gives. */
  lemma UnsignedExponent(ds: string, es: string, negative: bool)
    requires ds != [] && AllDigits(ds) && es != [] && AllDigits(es)
    ensures Unsigned(ExponentText(ds, es, negative)) == Ok(ExponentNumber(ds, es, negative))
  {
    var text := ExponentText(ds, es, negative);
    var rest := "e" + ExponentSign(negative) + es;
    DigitRunOf(ds, rest);
    assert text[..|ds|] == ds && text[|ds|..] == rest;
    ExponentOf(es, negative);
  }

  /** std::stod of `digits e [-] digits`, with or without a minus sign in
      front: "2e3" reads as 2000 and "-5e-1" as -0.5. */
  lemma StodExponent(ds: string, es: string, negative: bool)
    requires ds != [] && AllDigits(ds) && es != [] && AllDigits(es)
    ensures Stod(ExponentText(ds, es, negative)) == Ok(ExponentNumber(ds, es, negative))
    ensures Stod(['-'] + ExponentText(ds, es, negative)) == Ok(-ExponentNumber(ds, es, negative))
  {
    var text := ExponentText(ds, es, negative);
    UnsignedExponent(ds, es, negative);
    assert text[0] == ds[0];
    StodUnsigned(text);
    StodMinus(text);
  }

  /** "2e3" reads as 2000. */
  lemma StodTwoThousand()
    ensures Stod("2e3") == Ok(2000.0)
  {
    var ds, es := "2", "3";
    assert "2e3" == ExponentText(ds, es, false);
    assert DigitsValue(ds) == 2 && DigitsValue(es) == 3;
    assert TenTo(Signed(3, false)) == 1000.0;
    StodExponent(ds, es, false);
  }

  /** Digits after the point with nothing behind them are read in full. */
  lemma PointedDigits(whole: string, fraction: string)
    requires AllDigits(whole) && AllDigits(fraction) && (whole != [] || fraction != [])
    ensures PointedNumber(whole, fraction) == Ok(DigitsValue(whole) as real + FractionValue(fraction))
  {
    assert DigitRun(fraction) == |fraction| by {
      DigitRunOf(fraction, []);
      assert fraction + [] == fraction;
    }
    assert fraction[..|fraction|] == fraction && fraction[|fraction|..] == [];
  }

  /** `whole . fraction` is the whole part plus the fraction's digits over
      the matching power of ten. */
  lemma UnsignedDecimal(whole: string, fraction: string)
    requires AllDigits(whole) && AllDigits(fraction) && (whole != [] || fraction != [])
    ensures Unsigned(whole + "." + fraction) == Ok(DigitsValue(whole) as real + FractionValue(fraction))
  {
    var u := whole + "." + fraction;
    DecimalRun(whole, fraction);
    UnsignedAtPoint(u, |whole|);
    PointedDigits(whole, fraction);
  }

  /** In `whole . fraction` the digit run is the whole part, and the point
      splits the text back into its two parts. */
  lemma DecimalRun(whole: string, fraction: string)
    requires AllDigits(whole)
    ensures var u := whole + "." + fraction; var n := |whole|;
      DigitRun(u) == n && n < |u| && u[..n] == whole && u[n] == '.' && u[n + 1..] == fraction
  {
    var u := whole + "." + fraction;
    assert u == whole + ("." + fraction);
    DigitRunOf(whole, "." + fraction);
  }

  /** A point right after the whole digits hands the rest to
      `PointedNumber`. */
  lemma UnsignedAtPoint(u: string, n: nat)
    requires n == DigitRun(u) && n < |u| && u[n] == '.'
    ensures Unsigned(u) == PointedNumber(u[..n], u[n + 1..])
  {
  }

  /** A decimal text whose unsigned value is v reads as v, and as -v after
      a minus sign. */
  lemma StodDecimal(whole: string, fraction: string, v: real, negative: bool)
    requires whole == [] || IsDigit(whole[0])
    requires Unsigned(whole + "." + fraction) == Ok(v)
    ensures Stod(DecimalText(whole, fraction, negative)) == Ok(if negative then -v else v)
  {
    DecimalStart(whole, fraction);
    StodSign(whole + "." + fraction, v);
    if !negative {
      assert "" + whole == whole;
    }
  }

  /** `[-] whole . fraction` starts with a digit or the point after its
      sign. */
  lemma DecimalStart(whole: string, fraction: string)
    requires whole == [] || IsDigit(whole[0])
    ensures var u := whole + "." + fraction;
      u != [] && (IsDigit(u[0]) || u[0] == '.') && ['-'] + whole + "." + fraction == ['-'] + u
  {
    var u := whole + "." + fraction;
    assert u[0] == (if whole != [] then whole[0] else '.');
  }

  /** std::stod fails exactly when, after white space and a sign, neither a
      digit nor a point followed by a digit comes. */
  lemma StodFailsExactly(s: string)
    ensures var t := SkipSpaces(s);
      var u := if |t| > 0 && (t[0] == '-' || t[0] == '+') then t[1..] else t;
      Stod(s).Err? <==> !(|u| > 0 && IsDigit(u[0])) && !(|u| > 1 && u[0] == '.' && IsDigit(u[1]))
  {
  }

  /** Two digits after the point are tenths and hundredths. */
  lemma TwoDigits(a: nat, b: nat)
    requires a < 10 && b < 10
    ensures var ds := [DigitChar(a), DigitChar(b)];
      AllDigits(ds) && FractionValue(ds) == (10 * a + b) as real / 100.0
  {
    var ds := [DigitChar(a), DigitChar(b)];
    assert ds[1..] == [DigitChar(b)] && [DigitChar(b)][1..] == [];
    assert FractionValue([DigitChar(b)]) == b as real / 10.0;
  }

  /** The two decimals of a count of hundredths are the hundredths left
      over after the whole part. */
  lemma TwoDecimals(c: nat)
    ensures var ds := [DigitChar(c / 10 % 10), DigitChar(c % 10)];
      AllDigits(ds) && FractionValue(ds) == (c % 100) as real / 100.0
  {
    TwoDigits(c / 10 % 10, c % 10);
    HundredthsDigits(c);
  }

  /** The tens digit and the units digit of c make up c % 100. */
  lemma HundredthsDigits(c: nat)
    ensures 10 * (c / 10 % 10) + c % 10 == c % 100
  {
    var q, r := c / 100, c % 100;
    var t, u := r / 10, r % 10;
    DividedByTen(c, 10 * q + t, u);
    DividedByTen(c / 10, q, t);
  }

  /** Division by ten undoes `10 * a + b` for a digit b. */
  lemma DividedByTen(n: int, a: int, b: int)
    requires n == 10 * a + b && 0 <= b < 10
    ensures n / 10 == a && n % 10 == b
  {
  }

  /** The unsigned text of c hundredths, whole part, point and two
      decimals, is c / 100. */
  lemma UnsignedFixed2(c: nat)
    ensures Unsigned(NatToDecimal(c / 100) + "." + [DigitChar(c / 10 % 10), DigitChar(c % 10)])
      == Ok(c as real / 100.0)
  {
    var whole := NatToDecimal(c / 100);
    var fraction := [DigitChar(c / 10 % 10), DigitChar(c % 10)];
    TwoDecimals(c);
    UnsignedDecimal(whole, fraction);
    assert (c / 100) as real + (c % 100) as real / 100.0 == c as real / 100.0 by {
      assert c == 100 * (c / 100) + c % 100;
    }
  }

  /** The text of c hundredths, with or without a minus sign, reads back
      as c / 100 with that sign. */
  lemma FixedReadsBack(c: nat, negative: bool)
    ensures Stod(FixedText(c, negative)) == Ok(Hundredths(c, negative))
  {
    var whole := NatToDecimal(c / 100);
    UnsignedFixed2(c);
    assert IsDigit(whole[0]);
    StodDecimal(whole, [DigitChar(c / 10 % 10), DigitChar(c % 10)], c as real / 100.0, negative);
  }

  /** The two-decimal rendering of x reads back, through std::stod, as x
      rounded to hundredths. */
  lemma FormatFixed2ReadsBack(x: real)
    ensures Stod(FormatFixed2(x)) == Ok(Rounded2(x))
  {
    FixedReadsBack(Cents(x), x < 0.0);
  }

  /** Rounding to hundredths moves a value by at most half a hundredth. */
  lemma RoundedToHundredths(x: real)
    ensures Abs(Rounded2(x) - x) <= 0.005
  {
  }
}
