/**
 * Decimal text for integers: the rendering used by replies (`usize::to_string`,
 * `format!("{}", n)`) and the parser for an `i32` argument (`str::parse::<i32>`).
 */
module Decimal {
  import opened Results

  const I32Min: int := -0x8000_0000
  const I32Max: int := 0x7FFF_FFFF

  predicate InI32(n: int) {
    I32Min <= n <= I32Max
  }

  predicate IsDigit(c: char) {
    '0' <= c <= '9'
  }

  predicate AllDigits(s: string) {
    forall i :: 0 <= i < |s| ==> IsDigit(s[i])
  }

  function DigitValue(c: char): (d: nat)
    requires IsDigit(c)
    ensures d < 10
  {
    (c as int) - ('0' as int)
  }

  function DigitChar(d: nat): (c: char)
    requires d < 10
    ensures IsDigit(c) && DigitValue(c) == d
  {
    ('0' as int + d) as char
  }

  /** The value of a string of decimal digits, most significant first. */
  function DigitsValue(s: string): nat
    requires AllDigits(s)
  {
    if |s| == 0 then 0 else DigitsValue(s[..|s| - 1]) * 10 + DigitValue(s[|s| - 1])
  }

  /** The canonical decimal rendering of a natural number, as Rust's `Display` writes it. */
  function NatToString(n: nat): (s: string)
    ensures |s| >= 1 && AllDigits(s)
    ensures |s| > 1 ==> s[0] != '0'
    ensures n < 10 <==> |s| == 1
  {
    if n < 10 then [DigitChar(n)] else NatToString(n / 10) + [DigitChar(n % 10)]
  }

  /** Decimal rendering of a signed integer: a '-' sign before the magnitude. */
  function IntToString(n: int): (s: string)
    ensures |s| >= 1
    ensures n < 0 <==> s[0] == '-'
  {
    if n < 0 then "-" + NatToString(-n) else NatToString(n)
  }

  /**
   * `str::parse::<i32>`: an optional single '+' or '-' followed by at least one
   * ASCII digit, with a value in the i32 range; anything else is an error (None).
   */
  function ParseI32(s: string): (r: Option<int>)
    ensures r.Some? ==> InI32(r.value)
    ensures r.Some? ==> |s| >= 1 && (AllDigits(s) || (|s| >= 2 && s[0] in "+-" && AllDigits(s[1..])))
  {
    if |s| == 0 then None
    else if s[0] == '+' || s[0] == '-' then ParseMagnitude(s[0] == '-', s[1..])
    else ParseMagnitude(false, s)
  }

  /** The digits after the sign: at least one, all ASCII digits, and the signed value an i32. */
  function ParseMagnitude(negative: bool, digits: string): (r: Option<int>)
    ensures r.Some? ==> InI32(r.value) && |digits| >= 1 && AllDigits(digits)
  {
    if |digits| == 0 || !AllDigits(digits) then None
    else
      var n: int := if negative then -(DigitsValue(digits) as int) else DigitsValue(digits);
      if InI32(n) then Some(n) else None
  }

  /** Two's-complement negation of an i32 (`wrapping_neg`): i32::MIN maps to itself. */
  function WrappingNeg32(n: int): (r: int)
    requires InI32(n)
    ensures InI32(r)
    ensures n != I32Min ==> r + n == 0
    ensures n == I32Min ==> r == I32Min
    ensures (r + n) % 0x1_0000_0000 == 0
  {
    if n == I32Min then I32Min else -n
  }

  /** Reading back the rendering of any natural number gives that number. */
  lemma {:induction false} DigitsValueOfNatToString(n: nat)
    ensures DigitsValue(NatToString(n)) == n
  {
    if n >= 10 {
      var s := NatToString(n);
      var prefix := NatToString(n / 10);
      assert s[..|s| - 1] == prefix;
      DigitsValueOfNatToString(n / 10);
    }
  }

  /** Rendering is injective: distinct counts give distinct reply texts. */
  lemma NatToStringInjective(m: nat, n: nat)
    requires NatToString(m) == NatToString(n)
    ensures m == n
  {
    DigitsValueOfNatToString(m);
    DigitsValueOfNatToString(n);
  }

  /**
   * The converse of ParseI32's contract: every optional sign followed by at least one
   * digit is accepted exactly when its value is an i32, and parses to that value.
   * Leading zeros and an explicit '+' are allowed, and "-0" is 0.
   */
  lemma ParseI32OfSignedDigits(sign: string, digits: string)
    requires sign == "" || sign == "+" || sign == "-"
    requires |digits| >= 1 && AllDigits(digits)
    ensures var n := if sign == "-" then -(DigitsValue(digits) as int) else DigitsValue(digits);
      ParseI32(sign + digits) == if InI32(n) then Some(n) else None
  {
    if sign == "" {
      assert sign + digits == digits;
      ParseI32OfDigits(digits);
    } else {
      ParseI32OfSigned(sign[0], digits);
      assert sign + digits == [sign[0]] + digits;
    }
  }

  lemma ParseI32OfDigits(digits: string)
    requires |digits| >= 1 && AllDigits(digits)
    ensures ParseI32(digits) == if InI32(DigitsValue(digits)) then Some(DigitsValue(digits) as int) else None
  {
    assert IsDigit(digits[0]);
    ParseMagnitudeOfDigits(false, digits);
  }

  lemma ParseI32OfSigned(sign: char, digits: string)
    requires sign == '+' || sign == '-'
    requires |digits| >= 1 && AllDigits(digits)
    ensures var n := if sign == '-' then -(DigitsValue(digits) as int) else DigitsValue(digits);
      ParseI32([sign] + digits) == if InI32(n) then Some(n) else None
  {
    var s := [sign] + digits;
    assert s[0] == sign && s[1..] == digits;
    assert ParseI32(s) == ParseMagnitude(sign == '-', digits);
    ParseMagnitudeOfDigits(sign == '-', digits);
  }

  lemma ParseMagnitudeOfDigits(negative: bool, digits: string)
    requires |digits| >= 1 && AllDigits(digits)
    ensures var n := if negative then -(DigitsValue(digits) as int) else DigitsValue(digits);
      ParseMagnitude(negative, digits) == if InI32(n) then Some(n) else None
  {
  }

  /** Text Rust's parser accepts although the renderer never writes it, and text it rejects. */
  lemma ParseI32NonCanonical()
    ensures ParseI32("+5") == Some(5) && ParseI32("007") == Some(7) && ParseI32("-0") == Some(0)
    ensures ParseI32("").None? && ParseI32("-").None? && ParseI32("+-1").None? && ParseI32("1 ").None?
  {
    assert DigitsValue("5") == 5;
    assert DigitsValue("0") == 0;
    assert DigitsValue("007") == 7 by {
      assert "007"[..2] == "00" && "00"[..1] == "0";
    }
    ParseI32OfSignedDigits("+", "5");
    ParseI32OfSignedDigits("", "007");
    ParseI32OfSignedDigits("-", "0");
    assert !IsDigit(' ') && "1 "[1] == ' ';
    assert !IsDigit('-') && "-1"[0] == '-';
  }

  /** Parsing a rendering yields the rendered value exactly when it is an i32. */
  lemma ParseOfIntToString(n: int)
    ensures ParseI32(IntToString(n)) == if InI32(n) then Some(n) else None
  {
    var s := IntToString(n);
    if n < 0 {
      var digits := NatToString(-n);
      assert s == "-" + digits;
      assert DigitsValue(digits) == -n by {
        DigitsValueOfNatToString(-n);
      }
      ParseI32OfSignedDigits("-", digits);
    } else {
      assert s == NatToString(n);
      assert DigitsValue(s) == n by {
        DigitsValueOfNatToString(n);
      }
      ParseI32OfDigits(s);
    }
  }
}
