/**
 * Decimal integers as text: Python's `int(s)` applied to a string (the premium
 * rules call it on form values such as "2019"), and the decimal rendering of an
 * integer used when a number is turned back into text.
 */
module Numbers {
  import opened Wrappers
  import Text

  predicate IsDigit(c: char) {
    '0' <= c <= '9'
  }

  predicate AllDigits(s: string) {
    forall i :: 0 <= i < |s| ==> IsDigit(s[i])
  }

  function DigitChar(d: nat): (c: char)
    requires d < 10
    ensures IsDigit(c)
  {
    ('0' as int + d) as char
  }

  /** The number a string of ASCII digits denotes (leading zeros allowed). */
  function DigitsValue(s: string): nat
    requires AllDigits(s)
  {
    if s == [] then 0 else 10 * DigitsValue(s[..|s| - 1]) + (s[|s| - 1] as int - '0' as int)
  }

  /** Shortest decimal rendering of a natural number. */
  function NatToString(n: nat): (s: string)
    ensures |s| >= 1 && AllDigits(s)
  {
    if n < 10 then [DigitChar(n)] else NatToString(n / 10) + [DigitChar(n % 10)]
  }

  /** Decimal rendering of an integer, with a leading '-' when negative. */
  function IntToString(n: int): (s: string)
    ensures |s| >= 1 && IsDigit(s[|s| - 1])
  {
    if n < 0 then "-" + NatToString(-n) else NatToString(n)
  }

  /**
   * Python's `int(s)` on a string: surrounding whitespace is ignored, then an
   * optional '+' or '-' and one or more ASCII digits; anything else raises
   * (None here).
   */
  function ParseInt(s: string): Option<int>
  {
    ParseStripped(Text.Strip(s))
  }

  /** `int(s)` once the surrounding whitespace is gone. */
  function ParseStripped(t: string): Option<int>
  {
    if |t| > 0 && (t[0] == '+' || t[0] == '-') then
      var digits := t[1..];
      if digits != [] && AllDigits(digits) then
        var magnitude: int := DigitsValue(digits);
        Some(if t[0] == '-' then -magnitude else magnitude)
      else None
    else if t != [] && AllDigits(t) then Some(DigitsValue(t))
    else None
  }

  /**
   * `int()` refuses a text that, once stripped, holds a character other than
   * a digit after its optional sign, or holds no digit at all.
   */
  lemma NonDigitRefused(t: string, i: nat)
    requires Text.Trimmed(t) && i < |t| && !IsDigit(t[i])
    requires i > 0 || (t[0] != '+' && t[0] != '-') || |t| == 1
    ensures ParseInt(t).None?
  {
    Text.StripTrimmed(t);
    if |t| > 0 && (t[0] == '+' || t[0] == '-') && |t| > 1 {
      assert t[1..][i - 1] == t[i];
    }
  }

  /** A decimal fraction such as "1500.5" is refused: `int()` does not read a point. */
  lemma FractionRefused(whole: string, frac: string)
    requires whole != [] && AllDigits(whole) && AllDigits(frac)
    ensures ParseInt(whole + "." + frac).None?
  {
    var t := whole + "." + frac;
    assert t[0] == whole[0] && t[|whole|] == '.';
    assert t[|t| - 1] == if frac == [] then '.' else frac[|frac| - 1];
    NonDigitRefused(t, |whole|);
  }

  /** Texts `int()` refuses: a word and the empty text. */
  lemma RefusedTexts()
    ensures ParseInt("abc").None?
    ensures ParseInt("").None?
  {
    assert ParseInt("abc").None? by {
      var t := "abc";
      assert |t| == 3 && t[0] == 'a' && t[2] == 'c';
      NonDigitRefused(t, 0);
    }
    assert ParseInt("").None? by { Text.StripTrimmed(""); }
  }

  /** Reading back the rendering of a natural number gives that number. */
  lemma {:induction false} DigitsOfNat(n: nat)
    ensures DigitsValue(NatToString(n)) == n
  {
    if n >= 10 {
      var s := NatToString(n);
      DigitsOfNat(n / 10);
      assert s[..|s| - 1] == NatToString(n / 10);
    }
  }

  /** `int(str(n)) == n`: parsing the rendering of any integer gives it back. */
  lemma ParseIntToString(n: int)
    ensures ParseInt(IntToString(n)) == Some(n)
  {
    if n < 0 {
      ParseNegative(n);
    } else {
      ParseNatural(n);
    }
  }

  /** The rendering of a natural number parses back to it. */
  lemma ParseNatural(n: nat)
    ensures ParseInt(IntToString(n)) == Some(n)
  {
    var digits := NatToString(n);
    DigitsOfNat(n);
    ParseDigits(digits, n);
  }

  /** The rendering of a negative number, a '-' and the digits of its magnitude, parses back to it. */
  lemma ParseNegative(n: int)
    requires n < 0
    ensures ParseInt(IntToString(n)) == Some(n)
  {
    var digits := NatToString(-n);
    DigitsOfNat(-n);
    ParseMinusDigits(digits, -n);
    assert IntToString(n) == "-" + digits;
  }

  /** A string of one or more digits parses to the number it denotes. */
  lemma ParseDigits(digits: string, value: nat)
    requires digits != [] && AllDigits(digits) && DigitsValue(digits) == value
    ensures ParseInt(digits) == Some(value)
  {
    assert IsDigit(digits[0]) && IsDigit(digits[|digits| - 1]);
    Text.StripTrimmed(digits);
  }

  /** A '-' followed by one or more digits parses to the negated number. */
  lemma ParseMinusDigits(digits: string, value: nat)
    requires digits != [] && AllDigits(digits) && DigitsValue(digits) == value
    ensures ParseInt("-" + digits) == Some(-(value as int))
  {
    MinusDigitsTrimmed(digits);
    MinusDigitsRead(digits, value);
  }

  /** A '-' followed by digits has no surrounding whitespace. */
  lemma MinusDigitsTrimmed(digits: string)
    requires digits != [] && AllDigits(digits)
    ensures Text.Strip("-" + digits) == "-" + digits
  {
    var s := "-" + digits;
    assert s[|s| - 1] == digits[|digits| - 1];
    Text.StripTrimmed(s);
  }

  /** Once stripped, a '-' followed by digits reads as the negated number. */
  lemma MinusDigitsRead(digits: string, value: nat)
    requires digits != [] && AllDigits(digits) && DigitsValue(digits) == value
    ensures ParseStripped("-" + digits) == Some(-(value as int))
  {
    var s := "-" + digits;
    assert s[1..] == digits;
  }
}
