/** JavaScript numbers as the importer meets them: the values `Number(s)` and
    `parseFloat(s)` give a string (ECMA-262, section 7.1.4.1.1 StringToNumber
    and section 19.2.4 parseFloat), and the `ToUint16` wrap a `Uint16Array`
    applies to what is stored in it. Values are exact reals: IEEE-754 rounding
    is not part of this model. */
module JsNumber {
  import opened Results
  import JsText

  datatype Number = NaN | Finite(value: real) | PosInfinity | NegInfinity

  /** Unsigned 16-bit integers, the element type of a `Uint16Array`. */
  type U16 = x: int | 0 <= x < 0x1_0000

  /** `ToUint16` (ECMA-262, section 7.1.9) of an integer: reduction modulo 2^16. */
  function ToUint16(n: int): (r: U16)
    ensures 0 <= n < 0x1_0000 ==> r == n
    ensures (r - n) % 0x1_0000 == 0
  {
    n % 0x1_0000
  }

  /** The value of a hexadecimal digit, or -1 for any other character. */
  function DigitOf(c: char): int {
    if '0' <= c <= '9' then c as int - '0' as int
    else if 'a' <= c <= 'f' then c as int - 'a' as int + 10
    else if 'A' <= c <= 'F' then c as int - 'A' as int + 10
    else -1
  }

  predicate InRadix(s: string, radix: nat) {
    forall k :: 0 <= k < |s| ==> 0 <= DigitOf(s[k]) < radix
  }

  /** The value of a digit string, most significant digit first. */
  function RadixValue(s: string, radix: nat): nat
    requires InRadix(s, radix)
  {
    if |s| == 0 then 0
    else
      radix * RadixValue(s[..|s| - 1], radix) + DigitOf(s[|s| - 1])
  }

  function Pow10(n: nat): (r: nat)
    ensures r >= 1
  {
    if n == 0 then 1 else 10 * Pow10(n - 1)
  }

  /** `digits` times ten to the power `e`, exactly. */
  function Scale(digits: nat, e: int): real {
    if e >= 0 then (digits * Pow10(e)) as real else digits as real / Pow10(-e) as real
  }

  /** ExponentPart without its indicator: SignedInteger. */
  function Exponent(e: string): Option<int> {
    if |e| > 0 && (e[0] == '+' || e[0] == '-') then
      var digits := e[1..];
      if |digits| >= 1 && InRadix(digits, 10) then
        var magnitude: int := RadixValue(digits, 10);
        Some(if e[0] == '-' then -magnitude else magnitude)
      else None
    else if |e| >= 1 && InRadix(e, 10) then Some(RadixValue(e, 10))
    else None
  }

  /** The digits before the exponent: `DecimalDigits [. DecimalDigits]` or
      `. DecimalDigits`, as the integer formed by all the digits together with
      the number of digits after the point. */
  function Mantissa(m: string): Option<(nat, nat)> {
    var i := JsText.FirstIndex(m, '.');
    if i < |m| then
      var whole := m[..i];
      var fraction := m[i + 1..];
      if InRadix(whole, 10) && InRadix(fraction, 10) && |whole| + |fraction| >= 1 then
        Some((RadixValue(whole + fraction, 10), |fraction|))
      else None
    else if |m| >= 1 && InRadix(m, 10) then Some((RadixValue(m, 10), 0))
    else None
  }

  /** Position of the first exponent indicator `e` or `E`, or |s|. */
  function ExponentAt(s: string): (i: nat)
    ensures i <= |s|
    ensures forall k :: 0 <= k < i ==> s[k] != 'e' && s[k] != 'E'
    ensures i < |s| ==> s[i] == 'e' || s[i] == 'E'
  {
    if |s| == 0 || s[0] == 'e' || s[0] == 'E' then 0 else 1 + ExponentAt(s[1..])
  }

  /** StrUnsignedDecimalLiteral. */
  function UnsignedDecimal(s: string): Option<Number> {
    if s == "Infinity" then Some(PosInfinity)
    else
      var i := ExponentAt(s);
      var e := if i == |s| then Some(0) else Exponent(s[i + 1..]);
      match (Mantissa(s[..i]), e)
      case (Some((digits, fractionLength)), Some(exp)) => Some(Finite(Scale(digits, exp - fractionLength)))
      case _ => None
  }

  function Negate(n: Number): Number {
    match n
    case NaN => NaN
    case Finite(r) => Finite(-r)
    case PosInfinity => NegInfinity
    case NegInfinity => PosInfinity
  }

  /** StrDecimalLiteral: an optionally signed StrUnsignedDecimalLiteral. */
  function DecimalLiteral(s: string): Option<Number> {
    if |s| > 0 && s[0] == '+' then UnsignedDecimal(s[1..])
    else if |s| > 0 && s[0] == '-' then
      match UnsignedDecimal(s[1..])
      case Some(n) => Some(Negate(n))
      case None => None
    else UnsignedDecimal(s)
  }

  /** NonDecimalIntegerLiteral: `0x`, `0o` or `0b` followed by digits of that radix. */
  function NonDecimal(s: string): Option<nat> {
    if |s| >= 3 && s[0] == '0' then
      var radix := if s[1] == 'x' || s[1] == 'X' then 16
                   else if s[1] == 'o' || s[1] == 'O' then 8
                   else if s[1] == 'b' || s[1] == 'B' then 2
                   else 0;
      if radix > 0 && InRadix(s[2..], radix) then Some(RadixValue(s[2..], radix)) else None
    else None
  }

  /** `Number(s)` (and unary `+s`) for a string `s`. */
  function StringToNumber(s: string): Number {
    var t := JsText.Trim(s);
    if t == "" then Finite(0.0)
    else match NonDecimal(t)
      case Some(n) => Finite(n as real)
      case None =>
        match DecimalLiteral(t)
        case Some(x) => x
        case None => NaN
  }

  /** The length of the longest prefix of `t[..n]` that is a StrDecimalLiteral. */
  function LongestDecimalPrefix(t: string, n: nat): (k: Option<nat>)
    requires n <= |t|
    ensures k.Some? ==> k.value <= n && DecimalLiteral(t[..k.value]).Some?
    ensures k.Some? ==> forall j :: k.value < j <= n ==> DecimalLiteral(t[..j]).None?
    ensures k.None? ==> forall j :: 0 <= j <= n ==> DecimalLiteral(t[..j]).None?
  {
    if DecimalLiteral(t[..n]).Some? then Some(n)
    else if n == 0 then None
    else LongestDecimalPrefix(t, n - 1)
  }

  /** `parseFloat(s)`: the value of the longest StrDecimalLiteral at the start
      of `s` once leading white space is dropped, or NaN when there is none. */
  function ParseFloat(s: string): Number {
    var t := JsText.TrimStart(s);
    match LongestDecimalPrefix(t, |t|)
    case Some(k) => DecimalLiteral(t[..k]).value
    case None => NaN
  }

  // ---------------------------------------------------------------------
  // Decimal numerals and how the two conversions read them

  function DigitChar(d: nat): (c: char)
    requires d < 10
    ensures DigitOf(c) == d
  {
    ('0' as int + d) as char
  }

  /** The canonical decimal numeral of `n`. */
  function Decimal(n: nat): (s: string)
    ensures |s| >= 1
  {
    if n < 10 then [DigitChar(n)] else Decimal(n / 10) + [DigitChar(n % 10)]
  }

  lemma {:induction false} DecimalValue(n: nat)
    ensures InRadix(Decimal(n), 10)
    ensures RadixValue(Decimal(n), 10) == n
  {
    var s := Decimal(n);
    if n >= 10 {
      DecimalValue(n / 10);
      assert s[..|s| - 1] == Decimal(n / 10);
    }
  }

  lemma DecimalHasNoWhiteSpaceEnds(n: nat)
    ensures JsText.TrimStart(Decimal(n)) == Decimal(n)
    ensures JsText.Trim(Decimal(n)) == Decimal(n)
  {
    var s := Decimal(n);
    DecimalValue(n);
    assert 0 <= DigitOf(s[0]) < 10;
    assert 0 <= DigitOf(s[|s| - 1]) < 10;
  }

  lemma DecimalIsUnsignedDecimal(n: nat)
    ensures DecimalLiteral(Decimal(n)) == Some(Finite(n as real))
  {
    DecimalValue(n);
    DigitsAreDecimalLiteral(Decimal(n));
  }

  /** A nonempty string of decimal digits is a StrDecimalLiteral with the
      digits' value. */
  lemma DigitsAreDecimalLiteral(s: string)
    requires |s| >= 1 && InRadix(s, 10)
    ensures DecimalLiteral(s) == Some(Finite(RadixValue(s, 10) as real))
  {
    assert 0 <= DigitOf(s[0]) < 10;
    assert s != "Infinity" by { assert DigitOf('I') == -1; }
    DigitsHaveNoExponent(s);
    DigitsHaveNoPoint(s);
    assert s[..|s|] == s;
    assert Mantissa(s) == Some((RadixValue(s, 10), 0));
  }

  lemma {:induction false} DigitsHaveNoExponent(s: string)
    requires InRadix(s, 10)
    ensures ExponentAt(s) == |s|
  {
    if |s| > 0 {
      assert 0 <= DigitOf(s[0]) < 10;
      assert InRadix(s[1..], 10) by {
        forall k | 0 <= k < |s[1..]| ensures 0 <= DigitOf(s[1..][k]) < 10 {
          assert s[1..][k] == s[k + 1];
        }
      }
      DigitsHaveNoExponent(s[1..]);
    }
  }

  lemma {:induction false} DigitsHaveNoPoint(s: string)
    requires InRadix(s, 10)
    ensures JsText.FirstIndex(s, '.') == |s|
  {
    if |s| > 0 {
      assert 0 <= DigitOf(s[0]) < 10;
      assert InRadix(s[1..], 10) by {
        forall k | 0 <= k < |s[1..]| ensures 0 <= DigitOf(s[1..][k]) < 10 {
          assert s[1..][k] == s[k + 1];
        }
      }
      DigitsHaveNoPoint(s[1..]);
    }
  }

  /** `Number` reads a decimal numeral as its value. */
  lemma NumberOfDecimal(n: nat)
    ensures StringToNumber(Decimal(n)) == Finite(n as real)
  {
    var s := Decimal(n);
    DecimalHasNoWhiteSpaceEnds(n);
    DecimalIsUnsignedDecimal(n);
    if |s| >= 3 {
      DecimalValue(n);
      assert 0 <= DigitOf(s[1]) < 10;
      DigitIsNoPrefix(s);
    }
    NumberOfLiteral(s, Finite(n as real));
  }

  /** A decimal digit in second place rules out the `0x`, `0o` and `0b` prefixes. */
  lemma DigitIsNoPrefix(s: string)
    requires |s| >= 2 && 0 <= DigitOf(s[1]) < 10
    ensures NonDecimal(s) == None
  {
  }

  /** Text with no white space at its ends that is a decimal literal and not
      a hexadecimal, octal or binary one converts to the literal's value. */
  lemma NumberOfLiteral(s: string, x: Number)
    requires JsText.Trim(s) == s && s != ""
    requires NonDecimal(s) == None && DecimalLiteral(s) == Some(x)
    ensures StringToNumber(s) == x
  {
  }

  /** `parseFloat` reads a decimal numeral as its value too. */
  lemma ParseFloatOfDecimal(n: nat)
    ensures ParseFloat(Decimal(n)) == Finite(n as real)
  {
    var s := Decimal(n);
    DecimalHasNoWhiteSpaceEnds(n);
    DecimalIsUnsignedDecimal(n);
    assert s[..|s|] == s;
  }

  /** `Number("")` and `Number` of blank text are 0, while `parseFloat` gives NaN. */
  lemma EmptyStrings()
    ensures StringToNumber("") == Finite(0.0)
    ensures StringToNumber(" \t") == Finite(0.0)
    ensures ParseFloat("") == NaN
  {
    assert JsText.TrimStart(" \t") == "";
  }
}
