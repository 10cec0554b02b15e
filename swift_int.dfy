/**
 * Swift's integer semantics where they differ from Dafny's: the remainder
 * operator truncates toward zero, and `Int(_: String)` parses an optional
 * sign followed by decimal digits into a 64-bit value.
 */
module SwiftInt {
  import opened Wrappers

  /** Swift's `a % b` for `b > 0`: the sign follows the dividend. */
  function Rem(a: int, b: int): (r: int)
    requires b > 0
    ensures -b < r < b
    ensures a >= 0 ==> r == a % b
    ensures a < 0 ==> r <= 0
  {
    if a >= 0 then a % b else -((-a) % b)
  }

  const IntMin: int := -0x8000_0000_0000_0000
  const IntMax: int := 0x7FFF_FFFF_FFFF_FFFF

  predicate IsDigit(c: char)
  {
    '0' <= c <= '9'
  }

  /** Every character is an ASCII decimal digit. */
  predicate AllDigits(s: string)
  {
    forall k :: 0 <= k < |s| ==> IsDigit(s[k])
  }

  /** The length of the optional leading sign, `+` or `-`. */
  function SignLength(text: string): (n: nat)
    ensures n <= |text|
    ensures n == 1 <==> |text| > 0 && (text[0] == '+' || text[0] == '-')
  {
    if |text| > 0 && (text[0] == '+' || text[0] == '-') then 1 else 0
  }

  /** The value of a string of decimal digits. */
  function DigitsValue(s: string): (v: int)
    requires AllDigits(s)
    ensures v >= 0
  {
    if |s| == 0 then 0
    else DigitsValue(s[..|s| - 1]) * 10 + DigitValue(s[|s| - 1])
  }

  function DigitValue(c: char): (d: int)
    requires IsDigit(c)
    ensures 0 <= d <= 9
  {
    c as int - '0' as int
  }

  /** `Int(text)`: `[+-]?[0-9]+`, within the 64-bit range, else nil. */
  function ParseInt(text: string): (r: Option<int>)
    ensures r.Some? ==> IntMin <= r.value <= IntMax
  {
    var digits := text[SignLength(text)..];
    if |digits| == 0 || !AllDigits(digits) then None
    else
      var v: int := if SignLength(text) == 1 && text[0] == '-' then -DigitsValue(digits) else DigitsValue(digits);
      if IntMin <= v <= IntMax then Some(v) else None
  }

  /** An unsigned or "+"-signed digit string parses to its value when that fits in 64 bits. */
  lemma ParseUnsigned(d: string)
    requires |d| > 0 && AllDigits(d)
    requires DigitsValue(d) <= IntMax
    ensures ParseInt(d) == Some(DigitsValue(d))
    ensures ParseInt("+" + d) == Some(DigitsValue(d))
  {
    assert d[0..] == d;
    assert ("+" + d)[1..] == d;
  }

  /** A "-"-signed digit string parses to the negated value when that fits in 64 bits. */
  lemma ParseNegative(d: string)
    requires |d| > 0 && AllDigits(d)
    requires -DigitsValue(d) >= IntMin
    ensures ParseInt("-" + d) == Some(-DigitsValue(d))
  {
    assert ("-" + d)[1..] == d;
  }

  /** A value outside the 64-bit range is rejected. */
  lemma ParseOverflow(d: string)
    requires |d| > 0 && AllDigits(d)
    requires DigitsValue(d) > IntMax
    ensures ParseInt(d) == None
    ensures ParseInt("+" + d) == None
  {
    assert d[0..] == d;
    assert ("+" + d)[1..] == d;
  }

  /** A "-"-signed value below the 64-bit range is rejected. */
  lemma ParseNegativeOverflow(d: string)
    requires |d| > 0 && AllDigits(d)
    requires -DigitsValue(d) < IntMin
    ensures ParseInt("-" + d) == None
  {
    assert ("-" + d)[1..] == d;
  }

  /** The empty string, a lone sign, and any character other than a leading sign or a digit give nil. */
  lemma ParseRejects(text: string, k: nat)
    ensures ParseInt("") == None && ParseInt("+") == None && ParseInt("-") == None
    ensures k < |text| && !IsDigit(text[k]) && !(k == 0 && (text[0] == '+' || text[0] == '-')) ==>
      ParseInt(text) == None
  {
    if k < |text| && !IsDigit(text[k]) && !(k == 0 && (text[0] == '+' || text[0] == '-')) {
      var digits := text[SignLength(text)..];
      assert digits[k - SignLength(text)] == text[k];
    }
  }

  /** A single digit parses to its own value. */
  lemma ParseSingleDigit(c: char)
    requires IsDigit(c)
    ensures ParseInt([c]) == Some(DigitValue(c))
  {
    assert [c][0..] == [c];
    assert [c][..0] == [];
    assert DigitsValue([c]) == DigitValue(c);
  }

  /** Leading zeros do not change the value. */
  lemma {:induction false} LeadingZeroIgnored(s: string)
    requires AllDigits(s)
    ensures DigitsValue("0" + s) == DigitsValue(s)
    decreases |s|
  {
    if |s| > 0 {
      assert ("0" + s)[..|"0" + s| - 1] == "0" + s[..|s| - 1];
      LeadingZeroIgnored(s[..|s| - 1]);
    }
  }
}
