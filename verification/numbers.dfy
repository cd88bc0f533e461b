/**
 * The numeric conversions the routes rely on: `Math.round`, the decimal text of
 * a count (as in "Option 3 cannot be empty."), and `parseInt` of a query value.
 */
module Numbers {
  import opened Wrappers
  import opened Text

  /** `Math.round`: the nearest integer, halves rounded towards +infinity. */
  function RoundHalfUp(x: real): (r: int)
    ensures r as real - 0.5 <= x < r as real + 0.5
  {
    (x + 0.5).Floor
  }

  /** Rounding an integral value returns it unchanged. */
  lemma RoundIntegral(n: int)
    ensures RoundHalfUp(n as real) == n
  {
  }

  /** Rounding preserves order; in particular it keeps a value inside integer bounds. */
  lemma RoundMonotonic(x: real, y: real)
    requires x <= y
    ensures RoundHalfUp(x) <= RoundHalfUp(y)
  {
  }

  lemma RoundWithin(x: real, lo: int, hi: int)
    requires lo as real <= x <= hi as real
    ensures lo <= RoundHalfUp(x) <= hi
  {
    RoundMonotonic(lo as real, x);
    RoundMonotonic(x, hi as real);
    RoundIntegral(lo);
    RoundIntegral(hi);
  }

  predicate IsDecimalDigit(c: char) { '0' <= c <= '9' }

  /** The bases that numeric text can be written in: binary, octal, decimal
      and hexadecimal. */
  predicate IsRadix(radix: nat) {
    radix == 2 || radix == 8 || radix == 10 || radix == 16
  }

  /** The value of `c` as a digit in base `radix`, if it is one. */
  function DigitValue(c: char, radix: nat): (d: Option<nat>)
    requires IsRadix(radix)
    ensures d.Some? ==> d.value < radix
    ensures radix == 10 ==> (d.Some? <==> IsDecimalDigit(c))
  {
    if IsDecimalDigit(c) && c as int - '0' as int < radix then Some(c as int - '0' as int)
    else if radix == 16 && 'a' <= c <= 'f' then Some(c as int - 'a' as int + 10)
    else if radix == 16 && 'A' <= c <= 'F' then Some(c as int - 'A' as int + 10)
    else None
  }

  predicate AllDigits(s: string, radix: nat)
    requires IsRadix(radix)
  {
    forall i :: 0 <= i < |s| ==> DigitValue(s[i], radix).Some?
  }

  /** Positional value of a run of digits, most significant first. */
  function DigitsValue(s: string, radix: nat): nat
    requires IsRadix(radix)
    requires AllDigits(s, radix)
  {
    if s == [] then 0
    else DigitsValue(s[..|s| - 1], radix) * radix + DigitValue(s[|s| - 1], radix).value
  }

  /** Length of the longest prefix of `s` made of base-`radix` digits. */
  function DigitRun(s: string, radix: nat): (n: nat)
    requires IsRadix(radix)
    ensures n <= |s|
    ensures AllDigits(s[..n], radix)
    ensures n < |s| ==> DigitValue(s[n], radix).None?
  {
    if s != [] && DigitValue(s[0], radix).Some? then
      var k := DigitRun(s[1..], radix);
      assert s[..1 + k] == [s[0]] + s[1..][..k];
      1 + k
    else 0
  }

  /** The decimal text of a natural number, without leading zeros. */
  function NatToString(n: nat): (s: string)
    ensures |s| >= 1
    ensures forall i :: 0 <= i < |s| ==> IsDecimalDigit(s[i])
    ensures |s| > 1 ==> s[0] != '0'
  {
    var last := [('0' as int + n % 10) as char];
    if n < 10 then last else NatToString(n / 10) + last
  }

  /** Reading back the decimal text of `n` gives `n`. */
  lemma {:induction false} NatToStringValue(n: nat)
    ensures AllDigits(NatToString(n), 10)
    ensures DigitsValue(NatToString(n), 10) == n
  {
    var s := NatToString(n);
    if n >= 10 {
      NatToStringValue(n / 10);
      assert s[..|s| - 1] == NatToString(n / 10);
    }
  }

  /** The magnitude `parseInt` reads from the text after the sign: a `0x`/`0X`
      prefix selects base 16, then the longest run of digits counts and the rest
      is ignored; `None` when that run is empty. */
  function ParseMagnitude(u: string): (r: Option<nat>)
    ensures r.Some? ==> exists i :: 0 <= i < |u| && IsDecimalDigit(u[i])
  {
    var hex := |u| >= 2 && u[0] == '0' && (u[1] == 'x' || u[1] == 'X');
    var radix := if hex then 16 else 10;
    var digits := if hex then u[2..] else u;
    var n := DigitRun(digits, radix);
    if n == 0 then None
    else
      assert hex || IsDecimalDigit(u[0]);
      Some(DigitsValue(digits[..n], radix))
  }

  /** `parseInt(s)` with no radix argument; `None` stands for `NaN`. Leading white
      space and one sign character are skipped before the magnitude. */
  function ParseInt(s: string): (r: Option<int>)
    ensures r.Some? ==> exists i :: 0 <= i < |s| && IsDecimalDigit(s[i])
    ensures AllSpace(s) ==> r.None?
  {
    var t := s[LeadingSpaces(s)..];
    var negative := t != [] && t[0] == '-';
    var u := if t != [] && (t[0] == '-' || t[0] == '+') then t[1..] else t;
    match ParseMagnitude(u)
    case None => None
    case Some(v) =>
      var i :| 0 <= i < |u| && IsDecimalDigit(u[i]);
      assert u[i] == s[|s| - |u| + i];
      var x: int := if negative then -(v as int) else v;
      Some(x)
  }

  /** `parseInt` reads back the decimal text of every natural number. */
  lemma ParseIntNatToString(n: nat)
    ensures ParseInt(NatToString(n)) == Some(n)
  {
    var s := NatToString(n);
    NatToStringValue(n);
    DecimalMagnitude(s);
    UnsignedParse(s);
  }

  /** Text that starts with a digit is read by `parseInt` as its magnitude. */
  lemma UnsignedParse(s: string)
    requires s != [] && IsDecimalDigit(s[0])
    requires ParseMagnitude(s).Some?
    ensures ParseInt(s) == Some(ParseMagnitude(s).value)
  {
    assert LeadingSpaces(s) == 0 by { assert !IsSpace(s[0]); }
    assert s[0..] == s;
  }

  /** Decimal digits without a leading zero are read in base 10, all of them. */
  lemma DecimalMagnitude(s: string)
    requires |s| >= 1 && AllDigits(s, 10)
    requires |s| > 1 ==> s[0] != '0'
    ensures ParseMagnitude(s) == Some(DigitsValue(s, 10))
  {
    DigitRunAll(s, 10);
    assert s[..|s|] == s;
  }

  lemma {:induction false} DigitRunAll(s: string, radix: nat)
    requires IsRadix(radix)
    requires AllDigits(s, radix)
    ensures DigitRun(s, radix) == |s|
  {
    if s != [] {
      assert AllDigits(s[1..], radix);
      DigitRunAll(s[1..], radix);
    }
  }

  /** A JavaScript number as a relational comparison sees it: a finite value,
      one of the two infinities, or NaN. Finite values are exact reals. */
  datatype Numeric = NaN | Finite(x: real) | Infinite(negative: bool)

  /** `a < b` for a finite `b`: NaN is below nothing, -Infinity below everything. */
  predicate Below(a: Numeric, b: real) {
    match a
    case NaN => false
    case Finite(x) => x < b
    case Infinite(negative) => negative
  }

  function Pow10(e: nat): (p: nat)
    ensures p >= 1
  {
    if e == 0 then 1 else 10 * Pow10(e - 1)
  }

  /** `m` times ten to the power `e`. */
  function Scale(m: real, e: int): real {
    if e >= 0 then m * Pow10(e) as real else m / Pow10(-e) as real
  }

  /** The base a `0x`, `0o` or `0b` prefix selects (either letter case). */
  function PrefixRadix(c: char): (r: Option<nat>)
    ensures r.Some? ==> IsRadix(r.value)
  {
    if c == 'x' || c == 'X' then Some(16)
    else if c == 'o' || c == 'O' then Some(8)
    else if c == 'b' || c == 'B' then Some(2)
    else None
  }

  /** The exponent part of a decimal literal: nothing at all, or `e`/`E`, an
      optional sign and at least one digit, ending the text; `None` when the
      text is anything else. */
  function Exponent(t: string): (r: Option<int>)
    ensures t == [] ==> r == Some(0)
    ensures r.Some? && t != [] ==> (t[0] == 'e' || t[0] == 'E') && |t| >= 2
  {
    if t == [] then Some(0)
    else if t[0] != 'e' && t[0] != 'E' then None
    else
      var v := t[1..];
      var negative := v != [] && v[0] == '-';
      var w := if v != [] && (v[0] == '-' || v[0] == '+') then v[1..] else v;
      if w != [] && AllDigits(w, 10) then
        var e: int := DigitsValue(w, 10);
        Some(if negative then -e else e)
      else None
  }

  /** The digits of a decimal literal before its exponent: an integer part,
      optionally followed by `.` and a fraction part, with at least one digit
      in all. Gives the value read and the text left over. */
  function Mantissa(u: string): (r: Option<(real, string)>)
    ensures r.Some? ==> |r.value.1| < |u| && r.value.1 == u[|u| - |r.value.1|..]
  {
    var a := DigitRun(u, 10);
    var whole := DigitsValue(u[..a], 10);
    var rest := u[a..];
    if rest != [] && rest[0] == '.' then
      var f := rest[1..];
      var b := DigitRun(f, 10);
      if a + b == 0 then None
      else Some(((whole * Pow10(b) + DigitsValue(f[..b], 10)) as real / Pow10(b) as real, f[b..]))
    else if a == 0 then None
    else Some((whole as real, rest))
  }

  /** An unsigned decimal literal: "Infinity", or digits with an optional
      fraction and exponent ("12", "1.5", ".5", "5.", "2e3", "1E-2"). NaN for
      any other text. */
  function UnsignedDecimal(u: string): (r: Numeric)
    ensures r.Infinite? ==> u == "Infinity" && !r.negative
  {
    if u == "Infinity" then Infinite(false)
    else
      match Mantissa(u)
      case None => NaN
      case Some((m, rest)) =>
        match Exponent(rest)
        case None => NaN
        case Some(e) => Finite(Scale(m, e))
  }

  /** StringToNumber of section 7.1.4.1.1 of ECMA-262: surrounding white space
      is ignored and blank text is 0; otherwise the whole text must be a
      `0x`/`0o`/`0b` integer (unsigned) or a signed decimal literal. */
  function StringToNumber(s: string): (r: Numeric)
    ensures AllSpace(s) ==> r == Finite(0.0)
  {
    var t := Trim(s);
    if t == [] then Finite(0.0)
    else if |t| >= 2 && t[0] == '0' && PrefixRadix(t[1]).Some? then NonDecimalInteger(t[2..], PrefixRadix(t[1]).value)
    else SignedDecimal(t)
  }

  /** The digits after a `0x`, `0o` or `0b` prefix: at least one, all in the
      base, and nothing else. */
  function NonDecimalInteger(digits: string, radix: nat): (r: Numeric)
    requires IsRadix(radix)
    ensures r.Finite? <==> digits != [] && AllDigits(digits, radix)
    ensures r.Finite? ==> 0.0 <= r.x
  {
    if digits != [] && AllDigits(digits, radix) then Finite(DigitsValue(digits, radix) as real) else NaN
  }

  /** A decimal literal with an optional leading sign. */
  function SignedDecimal(t: string): (r: Numeric)
    requires t != []
  {
    var negative := t[0] == '-';
    var u := if t[0] == '-' || t[0] == '+' then t[1..] else t;
    match UnsignedDecimal(u)
    case NaN => NaN
    case Finite(x) => Finite(if negative then -x else x)
    case Infinite(_) => Infinite(negative)
  }

  /** The decimal text of `n`, with or without a minus sign, converts to `n`
      or `-n`. */
  lemma StringToNumberNatToString(n: nat)
    ensures StringToNumber(NatToString(n)) == Finite(n as real)
    ensures StringToNumber("-" + NatToString(n)) == Finite(-(n as real))
  {
    NatTextToNumber(n);
    NegatedNatTextToNumber(n);
  }

  lemma NatTextToNumber(n: nat)
    ensures StringToNumber(NatToString(n)) == Finite(n as real)
  {
    var s := NatToString(n);
    NatToStringValue(n);
    DigitsUnpadded(s);
    DigitsAreDecimal(s);
    assert SignedDecimal(s) == Finite(n as real);
    DecimalDispatch(s);
  }

  lemma NegatedNatTextToNumber(n: nat)
    ensures StringToNumber("-" + NatToString(n)) == Finite(-(n as real))
  {
    NatToStringValue(n);
    NegatedDigitsText(NatToString(n));
  }

  lemma NegatedDigitsText(s: string)
    requires s != [] && AllDigits(s, 10)
    ensures StringToNumber("-" + s) == Finite(-(DigitsValue(s, 10) as real))
  {
    DigitsUnpadded(s);
    DigitsAreDecimal(s);
    var m := "-" + s;
    assert m[|m| - 1] == s[|s| - 1];
    TrimUnpadded(m);
    assert m[0] == '-' && m[1..] == s;
    assert SignedDecimal(m) == Finite(-(DigitsValue(s, 10) as real));
    DecimalDispatch(m);
  }

  /** Digits are not white space, so a run of them is its own trim. */
  lemma DigitsUnpadded(s: string)
    requires s != [] && AllDigits(s, 10)
    ensures !IsSpace(s[0]) && !IsSpace(s[|s| - 1]) && Trim(s) == s
  {
    assert IsDecimalDigit(s[0]) && IsDecimalDigit(s[|s| - 1]);
    TrimUnpadded(s);
  }

  /** Trimmed text without a `0x`/`0o`/`0b` prefix is read as a signed decimal. */
  lemma DecimalDispatch(t: string)
    requires t != [] && Trim(t) == t
    requires !(|t| >= 2 && t[0] == '0' && PrefixRadix(t[1]).Some?)
    ensures StringToNumber(t) == SignedDecimal(t)
  {
  }

  /** A run of decimal digits is an unsigned decimal literal worth its digits. */
  lemma DigitsAreDecimal(s: string)
    requires s != [] && AllDigits(s, 10)
    ensures UnsignedDecimal(s) == Finite(DigitsValue(s, 10) as real)
  {
    MantissaOfDigits(s);
    assert s != "Infinity" by { assert s[0] != "Infinity"[0]; }
    WholeMantissa(s, DigitsValue(s, 10) as real);
  }

  lemma MantissaOfDigits(s: string)
    requires s != [] && AllDigits(s, 10)
    ensures Mantissa(s) == Some((DigitsValue(s, 10) as real, []))
  {
    DigitRunAll(s, 10);
    assert s[..|s|] == s;
  }

  /** A mantissa that takes up the whole text is the literal's value. */
  lemma WholeMantissa(s: string, m: real)
    requires s != "Infinity" && Mantissa(s) == Some((m, []))
    ensures UnsignedDecimal(s) == Finite(m)
  {
  }

  /** No text holding a comma converts to a number. */
  lemma CommaIsNaN(s: string, i: nat)
    requires i < |s| && s[i] == ','
    ensures StringToNumber(s) == NaN
  {
    TrimKeepsNonSpace(s, i);
    var t := Trim(s);
    var k :| 0 <= k < |t| && t[k] == ',';
    if |t| >= 2 && t[0] == '0' && PrefixRadix(t[1]).Some? {
      assert t[2..][k - 2] == ',';
    } else {
      var u := if t[0] == '-' || t[0] == '+' then t[1..] else t;
      var j := if t[0] == '-' || t[0] == '+' then k - 1 else k;
      assert 0 <= j < |u| && u[j] == ',';
      CommaNotDecimal(u, j);
    }
  }

  lemma CommaNotDecimal(u: string, j: nat)
    requires j < |u| && u[j] == ','
    ensures UnsignedDecimal(u) == NaN
  {
    if Mantissa(u).Some? {
      var rest := Mantissa(u).value.1;
      CommaInMantissaRest(u, j);
      CommaNotExponent(rest, j - (|u| - |rest|));
    }
  }

  /** A comma is never part of a mantissa: it stays in the text left over. */
  lemma CommaInMantissaRest(u: string, j: nat)
    requires j < |u| && u[j] == ',' && Mantissa(u).Some?
    ensures var rest := Mantissa(u).value.1;
      |u| - |rest| <= j && rest[j - (|u| - |rest|)] == ','
  {
    var a := DigitRun(u, 10);
    assert forall i :: 0 <= i < a ==> IsDecimalDigit(u[..a][i]);
    var rest := u[a..];
    if rest != [] && rest[0] == '.' {
      var f := rest[1..];
      var b := DigitRun(f, 10);
      assert forall i :: 0 <= i < b ==> IsDecimalDigit(f[..b][i]);
    }
  }

  lemma CommaNotExponent(t: string, j: nat)
    requires j < |t| && t[j] == ','
    ensures Exponent(t) == None
  {
    if j > 0 && (t[0] == 'e' || t[0] == 'E') {
      var v := t[1..];
      var w := if v != [] && (v[0] == '-' || v[0] == '+') then v[1..] else v;
      var k := if v != [] && (v[0] == '-' || v[0] == '+') then j - 2 else j - 1;
      if k >= 0 {
        assert w[k] == ',';
        assert !AllDigits(w, 10) by { assert DigitValue(w[k], 10).None?; }
      }
    }
  }

  /** A mantissa followed by a well-formed exponent is scaled by it. */
  lemma ScaledDecimal(u: string, m: real, rest: string, e: int)
    requires u != "Infinity" && Mantissa(u) == Some((m, rest)) && Exponent(rest) == Some(e)
    ensures UnsignedDecimal(u) == Finite(Scale(m, e))
  {
  }

  /** "2.5e1" is 25: a fraction part and an exponent. */
  lemma FractionExample()
    ensures StringToNumber("2.5e1") == Finite(25.0)
  {
    FractionValue();
    var s := "2.5e1";
    assert IsDecimalDigit(s[0]) && IsDecimalDigit(s[|s| - 1]);
    TrimUnpadded(s);
    assert SignedDecimal(s) == Finite(25.0);
    DecimalDispatch(s);
  }

  lemma FractionValue()
    ensures UnsignedDecimal("2.5e1") == Finite(25.0)
  {
    var s := "2.5e1";
    FractionMantissa();
    assert Exponent("e1") == Some(1) by { assert "e1"[1..] == "1"; }
    assert s != "Infinity" by { assert s[0] != "Infinity"[0]; }
    ScaledDecimal(s, 2.5, "e1", 1);
    assert Scale(2.5, 1) == 25.0;
  }

  lemma FractionMantissa()
    ensures Mantissa("2.5e1") == Some((2.5, "e1"))
  {
    var s := "2.5e1";
    assert DigitRun(s, 10) == 1 by { assert DigitRun(s[1..], 10) == 0; }
    assert s[..1] == "2" && s[1..] == ".5e1";
    var f := ".5e1"[1..];
    assert f == "5e1";
    assert DigitRun(f, 10) == 1 by { assert DigitRun(f[1..], 10) == 0; }
    assert f[..1] == "5" && f[1..] == "e1";
  }

  /** "0x1F" is 31: a hexadecimal literal. */
  lemma HexExample()
    ensures StringToNumber("0x1F") == Finite(31.0)
  {
    var t := "0x1F";
    assert !IsSpace(t[0]) && !IsSpace(t[|t| - 1]);
    TrimUnpadded(t);
    var d := t[2..];
    assert d == "1F";
    assert DigitsValue(d, 16) == 31 by { assert d[..1] == "1"; assert "1"[..0] == []; }
    assert NonDecimalInteger(d, 16) == Finite(31.0);
  }

  /** "-Infinity" is negative infinity, below every finite number. */
  lemma NegativeInfinityExample()
    ensures StringToNumber("-Infinity") == Infinite(true)
    ensures forall b: real :: Below(StringToNumber("-Infinity"), b)
  {
    var t := "-Infinity";
    assert !IsSpace(t[0]) && !IsSpace(t[|t| - 1]);
    TrimUnpadded(t);
    assert t[1..] == "Infinity";
    assert SignedDecimal(t) == Infinite(true);
  }

  /** An exponent marker needs digits after it: "1e" is NaN. */
  lemma IncompleteExponentExample()
    ensures StringToNumber("1e") == NaN
  {
    var t := "1e";
    assert !IsSpace(t[0]) && !IsSpace(t[|t| - 1]);
    TrimUnpadded(t);
    assert Exponent(t[1..]) == None;
    assert Mantissa(t) == Some((1.0, t[1..])) by {
      assert DigitRun(t, 10) == 1 by { assert DigitRun(t[1..], 10) == 0; }
      assert t[..1] == "1";
    }
    assert SignedDecimal(t) == NaN;
  }

  /** A numeral framed by fixed text names one number: the frame and the
      numeral together determine it. */
  lemma FramedNumeralInjective(prefix: string, suffix: string, i: nat, j: nat)
    requires prefix + NatToString(i) + suffix == prefix + NatToString(j) + suffix
    ensures i == j
  {
    var a, b := NatToString(i), NatToString(j);
    assert |a| == |b|;
    assert a == (prefix + a + suffix)[|prefix|..|prefix| + |a|];
    assert b == (prefix + b + suffix)[|prefix|..|prefix| + |b|];
    ParseIntNatToString(i);
    ParseIntNatToString(j);
  }
}
