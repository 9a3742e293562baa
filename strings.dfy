/** The JavaScript string built-ins the product pages rely on:
    `String(n)` on an integer, `String.prototype.trim`, `toLowerCase`
    (restricted to ASCII letters) and `includes`. */
module Strings {

  // ---------------------------------------------------------------------
  // Decimal rendering of integers, as `String(n)` and template literals do
  // ---------------------------------------------------------------------

  predicate IsDigit(c: char) {
    '0' <= c <= '9'
  }

  predicate AllDigits(s: string) {
    forall i :: 0 <= i < |s| ==> IsDigit(s[i])
  }

  function DigitChar(d: nat): (c: char)
    requires d < 10
    ensures IsDigit(c) && c as int - '0' as int == d
  {
    ('0' as int + d) as char
  }

  /** The shortest decimal numeral of `n`. */
  function NatToDecimal(n: nat): (s: string)
    ensures |s| >= 1 && AllDigits(s)
    ensures |s| > 1 ==> s[0] != '0'
    ensures n < 10 <==> |s| == 1
    decreases n
  {
    if n < 10 then [DigitChar(n)] else NatToDecimal(n / 10) + [DigitChar(n % 10)]
  }

  /** The value of a string of decimal digits (the partner of NatToDecimal). */
  function ParseDecimal(s: string): nat
    requires AllDigits(s)
    decreases |s|
  {
    if s == [] then 0
    else ParseDecimal(s[..|s| - 1]) * 10 + (s[|s| - 1] as int - '0' as int)
  }

  lemma {:induction false} DecimalRoundTrip(n: nat)
    ensures ParseDecimal(NatToDecimal(n)) == n
    decreases n
  {
    var s := NatToDecimal(n);
    if n < 10 {
      assert s[..|s| - 1] == [];
    } else {
      assert s[..|s| - 1] == NatToDecimal(n / 10);
      DecimalRoundTrip(n / 10);
    }
  }

  lemma NatToDecimalInjective(a: nat, b: nat)
    requires NatToDecimal(a) == NatToDecimal(b)
    ensures a == b
  {
    DecimalRoundTrip(a);
    DecimalRoundTrip(b);
  }

  /** `String(n)` for an integer-valued number: an optional minus sign
      followed by the shortest decimal numeral of its magnitude. */
  function IntToDecimal(n: int): (s: string)
    ensures |s| >= 1
    ensures '-' !in s[1..]
    ensures n < 0 <==> s[0] == '-'
    ensures var d := s[if n < 0 then 1 else 0..]; |d| >= 1 && AllDigits(d) && (|d| > 1 ==> d[0] != '0')
  {
    assert n < 0 ==> ("-" + NatToDecimal(-n))[1..] == NatToDecimal(-n);
    if n < 0 then "-" + NatToDecimal(-n) else NatToDecimal(n)
  }

  /** Reads back what IntToDecimal writes; a string that is not an optional
      minus sign followed by digits reads as 0. */
  function ParseIntDecimal(s: string): int {
    if |s| > 0 && s[0] == '-' && AllDigits(s[1..]) then 0 - ParseDecimal(s[1..]) as int
    else if AllDigits(s) then ParseDecimal(s)
    else 0
  }

  lemma IntDecimalRoundTrip(n: int)
    ensures ParseIntDecimal(IntToDecimal(n)) == n
  {
    var s := IntToDecimal(n);
    if n < 0 {
      assert s[1..] == NatToDecimal(-n);
      DecimalRoundTrip(-n);
    } else {
      DecimalRoundTrip(n);
    }
  }

  lemma IntToDecimalInjective(a: int, b: int)
    requires IntToDecimal(a) == IntToDecimal(b)
    ensures a == b
  {
    IntDecimalRoundTrip(a);
    IntDecimalRoundTrip(b);
  }

  // ---------------------------------------------------------------------
  // String.prototype.trim
  // ---------------------------------------------------------------------

  /** ECMAScript's WhiteSpace and LineTerminator code points: TAB, LF, VT,
      FF, CR, SPACE, NO-BREAK SPACE, the rest of category Zs, LINE and
      PARAGRAPH SEPARATOR, and the BYTE ORDER MARK. */
  predicate IsJsWhitespace(c: char) {
    || c == '\t' || c == '\n' || c == '\U{B}' || c == '\U{C}' || c == '\r'
    || c == ' ' || c == '\U{A0}' || c == '\U{1680}'
    || ('\U{2000}' <= c <= '\U{200A}')
    || c == '\U{2028}' || c == '\U{2029}' || c == '\U{202F}' || c == '\U{205F}'
    || c == '\U{3000}' || c == '\U{FEFF}'
  }

  predicate AllWhitespace(s: string) {
    forall i :: 0 <= i < |s| ==> IsJsWhitespace(s[i])
  }

  /** Where the run of white space that starts at `i` ends: every character
      from `i` up to the result is white space, and the character at the
      result, if any, is not. */
  function WhiteRunEnd(s: string, i: nat): (k: nat)
    requires i <= |s|
    ensures i <= k <= |s|
    ensures forall m :: i <= m < k ==> IsJsWhitespace(s[m])
    ensures k < |s| ==> !IsJsWhitespace(s[k])
    decreases |s| - i
  {
    if i < |s| && IsJsWhitespace(s[i]) then WhiteRunEnd(s, i + 1) else i
  }

  /** Where the run of white space that ends just before `j` starts: every
      character from the result up to `j` is white space, and the character
      just before the result, if any, is not. */
  function WhiteRunStart(s: string, j: nat): (k: nat)
    requires j <= |s|
    ensures k <= j
    ensures forall m :: k <= m < j ==> IsJsWhitespace(s[m])
    ensures k > 0 ==> !IsJsWhitespace(s[k - 1])
    decreases j
  {
    if j > 0 && IsJsWhitespace(s[j - 1]) then WhiteRunStart(s, j - 1) else j
  }

  /** `s.trim()`: the slice of `s` left once its leading and trailing white
      space is removed. It starts and ends with a non-white character, and is
      empty exactly when `s` is all white space. */
  function Trim(s: string): (r: string)
    ensures |r| <= |s|
    ensures exists a, b :: 0 <= a <= b <= |s| && r == s[a..b] && AllWhitespace(s[..a]) && AllWhitespace(s[b..])
    ensures r == [] <==> AllWhitespace(s)
    ensures r != [] ==> !IsJsWhitespace(r[0]) && !IsJsWhitespace(r[|r| - 1])
  {
    var a := WhiteRunEnd(s, 0);
    var b := WhiteRunStart(s, |s|);
    if a < b then
      assert AllWhitespace(s[..a]) && AllWhitespace(s[b..]);
      assert !AllWhitespace(s) by { assert !IsJsWhitespace(s[a]); }
      s[a..b]
    else
      assert a == |s|;
      assert s[..|s|] == s && s[|s|..] == [];
      []
  }

  // ---------------------------------------------------------------------
  // String.prototype.toLowerCase, on ASCII letters
  // ---------------------------------------------------------------------

  predicate IsAsciiUpper(c: char) {
    'A' <= c <= 'Z'
  }

  function LowerChar(c: char): (l: char)
    ensures !IsAsciiUpper(l)
    ensures IsAsciiUpper(c) ==> l as int == c as int + 32
    ensures !IsAsciiUpper(c) ==> l == c
  {
    if IsAsciiUpper(c) then (c as int + 32) as char else c
  }

  /** Lowercasing never turns a white-space character into a non-white one,
      nor the reverse. */
  lemma LowerCharWhitespace(c: char)
    ensures IsJsWhitespace(LowerChar(c)) <==> IsJsWhitespace(c)
  {
  }

  function ToLower(s: string): (r: string)
    ensures |r| == |s|
    ensures forall i :: 0 <= i < |s| ==> r[i] == LowerChar(s[i])
  {
    seq(|s|, i requires 0 <= i < |s| => LowerChar(s[i]))
  }

  /** Lowercasing keeps every character's white-space status. */
  lemma ToLowerKeepsWhitespace(s: string)
    ensures forall i :: 0 <= i < |s| ==> (IsJsWhitespace(ToLower(s)[i]) <==> IsJsWhitespace(s[i]))
  {
    forall i | 0 <= i < |s| ensures IsJsWhitespace(ToLower(s)[i]) <==> IsJsWhitespace(s[i]) {
      LowerCharWhitespace(s[i]);
    }
  }

  lemma ToLowerConcat(a: string, b: string)
    ensures ToLower(a + b) == ToLower(a) + ToLower(b)
  {
  }

  // ---------------------------------------------------------------------
  // String.prototype.includes
  // ---------------------------------------------------------------------

  /** `needle` occurs in `haystack` starting at position `i`. */
  predicate OccursAt(haystack: string, needle: string, i: int) {
    0 <= i && i + |needle| <= |haystack| && haystack[i..i + |needle|] == needle
  }

  /** `haystack.includes(needle)`, scanning left to right. */
  function Includes(haystack: string, needle: string): (b: bool)
    ensures b <==> exists i :: OccursAt(haystack, needle, i)
    decreases |haystack|
  {
    if |needle| > |haystack| then
      assert forall i :: !OccursAt(haystack, needle, i);
      false
    else if haystack[..|needle|] == needle then
      assert OccursAt(haystack, needle, 0);
      true
    else
      var rest := haystack[1..];
      assert forall i :: OccursAt(rest, needle, i) <==> OccursAt(haystack, needle, i + 1) by {
        forall i ensures OccursAt(rest, needle, i) <==> OccursAt(haystack, needle, i + 1) {
          if 0 <= i && i + |needle| <= |rest| {
            assert rest[i..i + |needle|] == haystack[i + 1..i + 1 + |needle|];
          }
        }
      }
      assert !OccursAt(haystack, needle, 0);
      assert (exists i :: OccursAt(haystack, needle, i)) ==> exists i :: OccursAt(rest, needle, i) by {
        if i :| OccursAt(haystack, needle, i) {
          assert i != 0;
          assert OccursAt(rest, needle, i - 1);
        }
      }
      Includes(rest, needle)
  }

}
