/** The two JavaScript number conversions the visitor counters pass through: `parseInt`
    (ECMA-262, section 19.2.5) on the stored string and `String(n)` (Number::toString,
    ECMA-262 section 6.1.6.1.20) when the incremented count is stored back. Only integral
    numbers and NaN are represented. */
module JsNumber {

  /** An integral JavaScript number, or NaN. Negative zero is the same as zero here. */
  datatype Num = NaN | Int(value: int)

  /** `n + 1`: NaN absorbs the addition. */
  function Increment(n: Num): (r: Num)
    ensures r.NaN? <==> n.NaN?
    ensures n.Int? ==> r == Int(n.value + 1)
  {
    match n
    case NaN => NaN
    case Int(i) => Int(i + 1)
  }

  /** StrWhiteSpaceChar: the WhiteSpace and LineTerminator code points of ECMA-262
      (sections 12.2 and 12.3), including every space separator of category Zs. */
  predicate IsStrWhiteSpace(c: char) {
    || c == '\t' || c == '\U{000B}' || c == '\U{000C}' || c == ' ' || c == '\U{00A0}' || c == '\U{FEFF}'
    || c == '\U{1680}' || ('\U{2000}' <= c <= '\U{200A}') || c == '\U{202F}' || c == '\U{205F}' || c == '\U{3000}'
    || c == '\n' || c == '\r' || c == '\U{2028}' || c == '\U{2029}'
  }

  /** Drops the leading white space, as step 2 of parseInt does. */
  function TrimStart(s: string): (r: string)
    ensures |r| <= |s| && r == s[|s| - |r|..]
    ensures forall i :: 0 <= i < |s| - |r| ==> IsStrWhiteSpace(s[i])
    ensures r == [] || !IsStrWhiteSpace(r[0])
  {
    if s != [] && IsStrWhiteSpace(s[0]) then TrimStart(s[1..]) else s
  }

  /** The value of a digit in radix 36; 36 for a character that is no digit at all. */
  function DigitValue(c: char): nat {
    if '0' <= c <= '9' then c as int - '0' as int
    else if 'a' <= c <= 'z' then c as int - 'a' as int + 10
    else if 'A' <= c <= 'Z' then c as int - 'A' as int + 10
    else 36
  }

  predicate IsDigitIn(c: char, radix: nat) {
    DigitValue(c) < radix
  }

  /** The longest prefix of `s` made of radix-`radix` digits (step 11 of parseInt). */
  function DigitPrefix(s: string, radix: nat): (z: string)
    ensures |z| <= |s| && z == s[..|z|]
    ensures forall i :: 0 <= i < |z| ==> IsDigitIn(z[i], radix)
    ensures |z| < |s| ==> !IsDigitIn(s[|z|], radix)
  {
    if s != [] && IsDigitIn(s[0], radix) then [s[0]] + DigitPrefix(s[1..], radix) else []
  }

  /** The mathematical value of a digit string, most significant digit first. */
  function DigitsValue(z: string, radix: nat): nat {
    if z == [] then 0 else DigitsValue(z[..|z| - 1], radix) * radix + DigitValue(z[|z| - 1])
  }

  predicate HasHexPrefix(s: string) {
    |s| >= 2 && s[0] == '0' && (s[1] == 'x' || s[1] == 'X')
  }

  /** `parseInt(s)` with no radix argument: leading white space is skipped, one sign is
      read, and the rest is read by `ParseMagnitude`. A string that is all white space, or
      whose first other character is neither a sign nor a decimal digit, is NaN; without a
      minus sign the value is never negative. */
  function ParseInt(s: string): (r: Num)
    ensures TrimStart(s) == [] ==> r == NaN
    ensures TrimStart(s) != [] && TrimStart(s)[0] !in "+-" && !IsDigitIn(TrimStart(s)[0], 10) ==> r == NaN
    ensures r.Int? && r.value < 0 ==> TrimStart(s)[0] == '-'
  {
    var trimmed := TrimStart(s);
    if trimmed != [] && trimmed[0] == '-' then Negate(ParseMagnitude(trimmed[1..]))
    else if trimmed != [] && trimmed[0] == '+' then ParseMagnitude(trimmed[1..])
    else ParseMagnitude(trimmed)
  }

  /** After the sign: a `0x`/`0X` prefix switches to radix 16, and the longest run of
      digits that follows is the value; with no digit at all the result is NaN. */
  function ParseMagnitude(u: string): Num {
    if HasHexPrefix(u) then ParseDigits(u[2..], 16) else ParseDigits(u, 10)
  }

  function ParseDigits(u: string, radix: nat): Num {
    var digits := DigitPrefix(u, radix);
    if digits == [] then NaN else Int(DigitsValue(digits, radix))
  }

  function Negate(n: Num): Num {
    match n
    case NaN => NaN
    case Int(i) => Int(-i)
  }

  function DigitChar(d: nat): (c: char)
    requires d < 10
    ensures '0' <= c <= '9' && DigitValue(c) == d
  {
    (d + '0' as int) as char
  }

  /** The decimal digits of `n`, without leading zeros. */
  function Decimal(n: nat): (s: string)
    ensures |s| >= 1
    ensures forall i :: 0 <= i < |s| ==> '0' <= s[i] <= '9'
    ensures n >= 1 ==> s[0] != '0'
  {
    if n < 10 then [DigitChar(n)] else Decimal(n / 10) + [DigitChar(n % 10)]
  }

  /** `String(n)` for an integral number or NaN (no exponent form: see the README): "NaN",
      or the decimal digits led by a minus sign exactly for a negative number. */
  function NumberToString(n: Num): (s: string)
    ensures s != []
    ensures n.NaN? <==> s == "NaN"
    ensures n.Int? ==> (s[0] == '-' <==> n.value < 0)
    ensures n.Int? ==> forall i :: (if n.value < 0 then 1 else 0) <= i < |s| ==> '0' <= s[i] <= '9'
  {
    match n
    case NaN => "NaN"
    case Int(i) =>
      var s := if i < 0 then "-" + Decimal(-i) else Decimal(i);
      assert s[0] != 'N';
      s
  }

  lemma {:induction false} DecimalValue(n: nat)
    ensures DigitsValue(Decimal(n), 10) == n
  {
    var s := Decimal(n);
    if n >= 10 {
      assert s[..|s| - 1] == Decimal(n / 10);
      DecimalValue(n / 10);
    }
  }

  lemma {:induction false} DigitPrefixOfDigits(s: string, radix: nat)
    requires forall i :: 0 <= i < |s| ==> IsDigitIn(s[i], radix)
    ensures DigitPrefix(s, radix) == s
  {
    if s != [] {
      DigitPrefixOfDigits(s[1..], radix);
    }
  }

  /** The digits of `n`, read after any sign, are worth `n`. */
  lemma ParseMagnitudeDecimal(n: nat)
    ensures ParseMagnitude(Decimal(n)) == Int(n)
  {
    var d := Decimal(n);
    assert !HasHexPrefix(d);
    DigitPrefixOfDigits(d, 10);
    DecimalValue(n);
  }

  /** The string "NaN" has no digit, so it reads back as NaN. */
  lemma ParseIntNaN()
    ensures ParseInt("NaN") == NaN
  {
    assert !IsStrWhiteSpace('N');
    assert TrimStart("NaN") == "NaN";
    assert !HasHexPrefix("NaN");
    assert !IsDigitIn('N', 10);
  }

  /** The decimal form of an integer, with its minus sign, reads back as the integer. */
  lemma ParseIntOfInt(i: int)
    ensures ParseInt(NumberToString(Int(i))) == Int(i)
  {
    var m: nat := if i < 0 then -i else i;
    var d := Decimal(m);
    ParseMagnitudeDecimal(m);
    assert !IsStrWhiteSpace(d[0]);
    if i < 0 {
      var s := "-" + d;
      assert NumberToString(Int(i)) == s;
      assert !IsStrWhiteSpace(s[0]);
      assert TrimStart(s) == s;
      assert s[1..] == d;
    } else {
      assert TrimStart(d) == d;
    }
  }

  /** Storing a number with `String(n)` and reading it back with `parseInt` gives the
      same number, NaN included. */
  lemma ParseIntOfNumberToString(n: Num)
    ensures ParseInt(NumberToString(n)) == n
  {
    match n
    case NaN => ParseIntNaN();
    case Int(i) => ParseIntOfInt(i);
  }
}
