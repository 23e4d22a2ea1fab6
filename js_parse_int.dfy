/**
 * JavaScript's global `parseInt(string)` called without a radix, as section
 * 19.2.5 of the ECMAScript 2024 Language Specification defines it:
 * leading white space is skipped, one sign is accepted, a `0x`/`0X` prefix
 * selects radix 16, and the longest run of digits that follows is read; an
 * empty run gives NaN, modelled as `None`.
 */
module JsParseInt {
  import opened Wrappers

  /** StrWhiteSpaceChar: the WhiteSpace and LineTerminator code points. */
  predicate IsStrWhiteSpace(c: char) {
    var k := c as int;
    || k == 0x09 || k == 0x0A || k == 0x0B || k == 0x0C || k == 0x0D || k == 0x20
    || k == 0xA0 || k == 0x1680 || (0x2000 <= k <= 0x200A) || k == 0x2028 || k == 0x2029
    || k == 0x202F || k == 0x205F || k == 0x3000 || k == 0xFEFF
  }

  /** The suffix of `s` that starts at its first non-white-space character. */
  function TrimStart(s: string): (r: string)
    ensures |r| <= |s| && r == s[|s| - |r|..]
    ensures r == [] || !IsStrWhiteSpace(r[0])
    ensures forall i :: 0 <= i < |s| - |r| ==> IsStrWhiteSpace(s[i])
  {
    if s != [] && IsStrWhiteSpace(s[0]) then
      var r := TrimStart(s[1..]);
      assert s[1..][|s| - 1 - |r|..] == s[|s| - |r|..];
      assert forall i :: 1 <= i < |s| - |r| ==> s[i] == s[1..][i - 1];
      r
    else s
  }

  /** The value of a digit character for radices up to 36: `0`-`9`, then `a`-`z` or `A`-`Z`. */
  function CharValue(c: char): Option<nat> {
    if '0' <= c <= '9' then Some(c as int - '0' as int)
    else if 'a' <= c <= 'z' then Some(c as int - 'a' as int + 10)
    else if 'A' <= c <= 'Z' then Some(c as int - 'A' as int + 10)
    else None
  }

  predicate IsDigit(c: char, radix: nat) {
    CharValue(c).Some? && CharValue(c).value < radix
  }

  predicate AllDigits(s: string, radix: nat) {
    forall i :: 0 <= i < |s| ==> IsDigit(s[i], radix)
  }

  /** The length of the longest prefix of `s` made of radix-`radix` digits. */
  function DigitPrefixLength(s: string, radix: nat): (n: nat)
    ensures n <= |s|
    ensures forall i :: 0 <= i < n ==> IsDigit(s[i], radix)
    ensures n < |s| ==> !IsDigit(s[n], radix)
  {
    if s == [] || !IsDigit(s[0], radix) then 0 else 1 + DigitPrefixLength(s[1..], radix)
  }

  /** The number a digit string denotes, most significant digit first. */
  function DigitsValue(ds: string, radix: nat): nat
    requires AllDigits(ds, radix)
  {
    if ds == [] then 0
    else DigitsValue(ds[..|ds| - 1], radix) * radix + CharValue(ds[|ds| - 1]).value
  }

  /**
   * `parseInt(input)`; `None` is NaN. A number is read only if the input
   * holds a digit, and a negative one only if the input holds a minus sign.
   */
  function ParseInt(input: string): (r: Option<int>)
    ensures r.Some? ==> exists i :: 0 <= i < |input| && IsDigit(input[i], 16)
    ensures r.Some? && r.value < 0 ==> exists i :: 0 <= i < |input| && input[i] == '-'
  {
    var s := TrimStart(input);
    var sign := if s != [] && s[0] == '-' then -1 else 1;
    var signed := s != [] && (s[0] == '-' || s[0] == '+');
    var unsigned := if signed then s[1..] else s;
    var at := |input| - |s| + (if signed then 1 else 0);
    assert unsigned == input[at..];
    assert sign == -1 ==> input[|input| - |s|] == '-';
    match ParseUnsigned(unsigned)
    case None => None
    case Some(v) =>
      var k := if HasHexPrefix(unsigned) then 2 else 0;
      assert k < |unsigned| && IsDigit(unsigned[k], 16) by {
        if HasHexPrefix(unsigned) {
          assert unsigned[2..][0] == unsigned[2];
        }
      }
      assert input[at + k] == unsigned[k];
      Some(sign * v)
  }

  predicate HasHexPrefix(s: string) {
    |s| >= 2 && s[0] == '0' && (s[1] == 'x' || s[1] == 'X')
  }

  /** The digits after the sign: hexadecimal after a `0x`/`0X` prefix, decimal otherwise. */
  function ParseUnsigned(s: string): Option<nat> {
    if HasHexPrefix(s) then ParseDigits(s[2..], 16) else ParseDigits(s, 10)
  }

  /** The longest digit prefix of `s` read in `radix`; `None` when it is empty. */
  function ParseDigits(s: string, radix: nat): Option<nat> {
    var end := DigitPrefixLength(s, radix);
    if end == 0 then None else Some(DigitsValue(s[..end], radix))
  }

  function DecimalDigit(d: nat): (c: char)
    requires d < 10
    ensures CharValue(c) == Some(d)
  {
    ('0' as int + d) as char
  }

  /** The canonical decimal rendering of `n`, the form in which the token-info endpoint sends seconds. */
  function DecimalString(n: nat): (s: string)
    ensures s != [] && AllDigits(s, 10)
    ensures s[0] == '0' ==> n == 0
  {
    if n < 10 then [DecimalDigit(n)] else DecimalString(n / 10) + [DecimalDigit(n % 10)]
  }

  /** Reading back a decimal rendering gives the number rendered. */
  lemma {:induction false} DecimalStringValue(n: nat)
    ensures DigitsValue(DecimalString(n), 10) == n
  {
    if n >= 10 {
      var s := DecimalString(n);
      assert s[..|s| - 1] == DecimalString(n / 10);
      DecimalStringValue(n / 10);
    }
  }

  /** A run of digits followed by a non-digit is exactly the longest digit prefix. */
  lemma {:induction false} DigitPrefixOfConcat(d: string, rest: string, radix: nat)
    requires AllDigits(d, radix)
    requires rest == [] || !IsDigit(rest[0], radix)
    ensures DigitPrefixLength(d + rest, radix) == |d|
  {
    if d == [] {
      assert d + rest == rest;
    } else {
      assert IsDigit(d[0], radix);
      assert (d + rest)[1..] == d[1..] + rest;
      DigitPrefixOfConcat(d[1..], rest, radix);
    }
  }

  /** A string that starts with a non-white-space character is left as it is by `TrimStart`. */
  lemma TrimStartStops(s: string)
    requires s != [] && !IsStrWhiteSpace(s[0])
    ensures TrimStart(s) == s
  {
  }

  /** The unsigned part of the parse reads a decimal rendering followed by a non-digit. */
  lemma ParseUnsignedDecimal(n: nat, rest: string)
    requires rest == [] || !IsDigit(rest[0], 10)
    requires n == 0 && rest != [] ==> rest[0] != 'x' && rest[0] != 'X'
    ensures ParseUnsigned(DecimalString(n) + rest) == Some(n)
  {
    var d := DecimalString(n);
    var s := d + rest;
    DigitPrefixOfConcat(d, rest, 10);
    DecimalStringValue(n);
    assert s[..|d|] == d;
    if n == 0 {
      assert d == "0";
    }
    assert !HasHexPrefix(s);
  }

  /** Without leading white space or a sign, `parseInt` is the unsigned parse. */
  lemma ParseIntUnsigned(s: string)
    requires s != [] && !IsStrWhiteSpace(s[0]) && s[0] != '-' && s[0] != '+'
    ensures ParseUnsigned(s).Some? ==> ParseInt(s) == Some(ParseUnsigned(s).value as int)
    ensures ParseUnsigned(s).None? ==> ParseInt(s) == None
  {
    TrimStartStops(s);
  }

  /** After a minus sign, `parseInt` is the negated unsigned parse. */
  lemma ParseIntMinus(s: string)
    ensures ParseUnsigned(s).Some? ==> ParseInt("-" + s) == Some(-(ParseUnsigned(s).value as int))
    ensures ParseUnsigned(s).None? ==> ParseInt("-" + s) == None
  {
    var m := "-" + s;
    TrimStartStops(m);
    assert m[1..] == s;
  }

  /**
   * `parseInt` reads back a decimal rendering and ignores whatever follows
   * the digits, provided what follows is not a digit and does not turn a
   * lone `0` into a `0x` prefix.
   */
  lemma ParseIntDecimal(n: nat, rest: string)
    requires rest == [] || !IsDigit(rest[0], 10)
    requires n == 0 && rest != [] ==> rest[0] != 'x' && rest[0] != 'X'
    ensures ParseInt(DecimalString(n) + rest) == Some(n)
  {
    var s := DecimalString(n) + rest;
    ParseUnsignedDecimal(n, rest);
    assert '0' <= s[0] <= '9';
    ParseIntUnsigned(s);
    assert ParseUnsigned(s).value as int == n;
  }

  /** The same with a leading minus sign: the negated number. */
  lemma ParseIntNegativeDecimal(n: nat, rest: string)
    requires rest == [] || !IsDigit(rest[0], 10)
    requires n == 0 && rest != [] ==> rest[0] != 'x' && rest[0] != 'X'
    ensures ParseInt("-" + (DecimalString(n) + rest)) == Some(-(n as int))
  {
    ParseUnsignedDecimal(n, rest);
    ParseIntMinus(DecimalString(n) + rest);
  }

  /** `parseInt` reads back a decimal rendering exactly. */
  lemma ParseIntDecimalString(n: nat)
    ensures ParseInt(DecimalString(n)) == Some(n)
  {
    ParseIntDecimal(n, []);
    assert DecimalString(n) + [] == DecimalString(n);
  }

  /** With no digit after the white space and the sign, `parseInt` gives NaN. */
  lemma ParseIntNoDigits(input: string)
    requires var s := TrimStart(input);
      var u := if s != [] && (s[0] == '-' || s[0] == '+') then s[1..] else s;
      u == [] || !IsDigit(u[0], 10)
    ensures ParseInt(input) == None
  {
  }
}
