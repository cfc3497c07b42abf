/**
  Digit characters and the numeral conversions the report parser and the
  script compiler rely on: Python's `int(s)`, `int(s, 16)`, `hex(n)` and
  `str(n)`, over ASCII digits. Python's `\d` and `int()` also accept the
  other Unicode decimal digits; those are not modelled.
 */
module Numerals {

  predicate IsDecDigit(c: char) {
    '0' <= c <= '9'
  }

  /** The character class `[0-9a-fA-F]`. */
  predicate IsHexDigit(c: char) {
    IsDecDigit(c) || 'a' <= c <= 'f' || 'A' <= c <= 'F'
  }

  predicate IsUpperHexDigit(c: char) {
    IsDecDigit(c) || 'A' <= c <= 'F'
  }

  predicate IsLowerHexDigit(c: char) {
    IsDecDigit(c) || 'a' <= c <= 'f'
  }

  predicate AllDec(s: string) {
    forall i :: 0 <= i < |s| ==> IsDecDigit(s[i])
  }

  predicate AllHex(s: string) {
    forall i :: 0 <= i < |s| ==> IsHexDigit(s[i])
  }

  /** What a `[\d]+` group captures, restricted to ASCII digits. */
  type DecNumeral = s: string | |s| > 0 && AllDec(s) witness "0"

  /** What a `[0-9A-Fa-f]+` group captures. */
  type HexNumeral = s: string | |s| > 0 && AllHex(s) witness "0"

  function DigitValue(c: char): (v: nat)
    requires IsHexDigit(c)
    ensures v < 16
    ensures IsDecDigit(c) ==> v < 10
  {
    if IsDecDigit(c) then c as int - '0' as int
    else if 'a' <= c <= 'f' then c as int - 'a' as int + 10
    else c as int - 'A' as int + 10
  }

  /** Python's `int(s)` on a string of ASCII digits. */
  function ParseDecimal(s: string): nat
    requires AllDec(s)
  {
    if |s| == 0 then 0 else ParseDecimal(s[..|s| - 1]) * 10 + DigitValue(s[|s| - 1])
  }

  /** Python's `int(s, 16)` on a string of hex digits of either case. */
  function ParseHex(s: string): nat
    requires AllHex(s)
  {
    if |s| == 0 then 0 else ParseHex(s[..|s| - 1]) * 16 + DigitValue(s[|s| - 1])
  }

  function UpperDigit(d: nat): (c: char)
    requires d < 16
    ensures IsUpperHexDigit(c) && IsHexDigit(c)
    ensures DigitValue(c) == d
  {
    if d < 10 then ('0' as int + d) as char else ('A' as int + d - 10) as char
  }

  function LowerDigit(d: nat): (c: char)
    requires d < 16
    ensures IsLowerHexDigit(c) && IsHexDigit(c)
    ensures DigitValue(c) == d
  {
    if d < 10 then ('0' as int + d) as char else ('a' as int + d - 10) as char
  }

  function DecDigit(d: nat): (c: char)
    requires d < 10
    ensures IsDecDigit(c)
    ensures DigitValue(c) == d
  {
    ('0' as int + d) as char
  }

  /**
    `hex(n)[2:].upper()` for `n >= 0`: the digits of `n` in base 16, upper
    case, with no leading zero except for `n == 0` itself.
   */
  function UpperHex(n: nat): (r: string)
    ensures |r| > 0 && AllHex(r)
    ensures forall i :: 0 <= i < |r| ==> IsUpperHexDigit(r[i])
    ensures r[0] == '0' <==> n == 0
    ensures |r| == 1 <==> n < 16
    ensures ParseHex(r) == n
  {
    if n < 16 then
      [UpperDigit(n)]
    else
      var front := UpperHex(n / 16);
      var r := front + [UpperDigit(n % 16)];
      assert r[..|r| - 1] == front;
      r
  }

  /** `hex(n)[2:]` for `n >= 0`: as `UpperHex`, in lower case. */
  function LowerHex(n: nat): (r: string)
    ensures |r| > 0 && AllHex(r)
    ensures forall i :: 0 <= i < |r| ==> IsLowerHexDigit(r[i])
    ensures r[0] == '0' <==> n == 0
    ensures |r| == 1 <==> n < 16
    ensures ParseHex(r) == n
  {
    if n < 16 then
      [LowerDigit(n)]
    else
      var front := LowerHex(n / 16);
      var r := front + [LowerDigit(n % 16)];
      assert r[..|r| - 1] == front;
      r
  }

  /** `str(n)` for `n >= 0`. */
  function DecimalText(n: nat): (r: string)
    ensures |r| > 0 && AllDec(r)
    ensures r[0] == '0' <==> n == 0
    ensures |r| == 1 <==> n < 10
    ensures ParseDecimal(r) == n
  {
    if n < 10 then
      [DecDigit(n)]
    else
      var front := DecimalText(n / 10);
      var r := front + [DecDigit(n % 10)];
      assert r[..|r| - 1] == front;
      r
  }

  /** `str(v)` for any integer. */
  function IntText(v: int): (r: string)
    ensures v < 0 ==> r == "-" + DecimalText(-v)
    ensures v >= 0 ==> r == DecimalText(v)
  {
    if v < 0 then "-" + DecimalText(-v) else DecimalText(v)
  }

  /**
    A canonical upper-case hex numeral: upper-case digits, no leading zero
    unless it is the single digit `0`.
   */
  predicate CanonicalUpperHex(s: string) {
    && |s| > 0
    && (forall i :: 0 <= i < |s| ==> IsUpperHexDigit(s[i]))
    && (|s| > 1 ==> s[0] != '0')
  }

  /** As `CanonicalUpperHex`, in lower case: how `hex(n)[2:]` spells a number. */
  predicate CanonicalLowerHex(s: string) {
    && |s| > 0
    && (forall i :: 0 <= i < |s| ==> IsLowerHexDigit(s[i]))
    && (|s| > 1 ==> s[0] != '0')
  }

  /**
    `UpperHex` is the only canonical spelling of a number: any canonical
    upper-case numeral that parses to `n` is `UpperHex(n)`. So comparing two
    such strings is the same as comparing the numbers they denote.
   */
  lemma {:induction false} UpperHexUnique(s: string, n: nat)
    requires CanonicalUpperHex(s)
    requires AllHex(s) && ParseHex(s) == n
    ensures s == UpperHex(n)
    decreases |s|
  {
    if |s| == 1 {
      assert s[..0] == [];
      assert ParseHex(s) == DigitValue(s[0]);
      assert n < 16;
      assert UpperHex(n) == [UpperDigit(n)];
      UpperDigitUnique(s[0], n);
    } else {
      var front := s[..|s| - 1];
      var last := s[|s| - 1];
      assert AllHex(front);
      assert ParseHex(s) == ParseHex(front) * 16 + DigitValue(last);
      var m := ParseHex(front);
      assert CanonicalUpperHex(front) by {
        assert front[0] == s[0];
      }
      UpperHexUnique(front, m);
      assert m != 0 by {
        assert front[0] == s[0] && s[0] != '0';
      }
      assert n / 16 == m && n % 16 == DigitValue(last);
      assert n >= 16;
      UpperDigitUnique(last, n % 16);
      assert s == front + [last];
    }
  }

  lemma UpperDigitUnique(c: char, d: nat)
    requires IsUpperHexDigit(c) && DigitValue(c) == d
    ensures d < 16 && UpperDigit(d) == c
  {
  }
}
