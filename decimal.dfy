/**
 * The two number/string conversions the dashboard relies on: printing an integer
 * in a template literal (`${n}`) and reading one back with `parseInt`.
 */
module Decimal {
  import opened Wrappers

  /** The value of an ASCII digit or letter as `parseInt` reads it (10 and up for `a`-`f`,
      `A`-`F`); 36 for every other character, which no radix accepts. */
  function CharValue(c: char): nat
  {
    if '0' <= c <= '9' then (c as int) - ('0' as int)
    else if 'a' <= c <= 'f' then (c as int) - ('a' as int) + 10
    else if 'A' <= c <= 'F' then (c as int) - ('A' as int) + 10
    else 36
  }

  predicate IsRadixDigit(c: char, radix: nat)
  {
    CharValue(c) < radix
  }

  function DigitChar(d: nat): (c: char)
    requires d < 10
    ensures IsRadixDigit(c, 10) && CharValue(c) == d
  {
    (('0' as int) + d) as char
  }

  /** The decimal numeral of `n`, most significant digit first, without leading zeros. */
  function NatToDecimal(n: nat): (s: string)
    ensures |s| >= 1
    ensures forall i :: 0 <= i < |s| ==> IsRadixDigit(s[i], 10)
    ensures s[0] == '0' <==> n == 0
    ensures |s| == 1 <==> n < 10
    decreases n
  {
    if n < 10 then [DigitChar(n)]
    else
      var front := NatToDecimal(n / 10);
      assert (front + [DigitChar(n % 10)])[0] == front[0];
      front + [DigitChar(n % 10)]
  }

  /** `${n}` for an integral JavaScript number: a minus sign, then the digits. */
  function IntToDecimal(n: int): (s: string)
    ensures |s| >= 1 && (s[0] == '-' <==> n < 0)
    ensures var digits := if n < 0 then s[1..] else s;
      && digits == NatToDecimal(if n < 0 then -n else n)
      && (forall i :: 0 <= i < |digits| ==> IsRadixDigit(digits[i], 10))
      && (|digits| == 1 || digits[0] != '0')
  {
    if n < 0 then "-" + NatToDecimal(-n) else NatToDecimal(n)
  }

  /** The value of a run of digits in the given radix. */
  function DigitsValue(s: string, radix: nat): nat
    requires forall i :: 0 <= i < |s| ==> IsRadixDigit(s[i], radix)
  {
    if s == [] then 0
    else
      var front: nat := DigitsValue(s[..|s| - 1], radix);
      ProductIsNat(front, radix);
      front * radix + CharValue(s[|s| - 1])
  }

  lemma ProductIsNat(a: nat, b: nat)
    ensures a * b >= 0
  {
  }

  /** The length of the longest prefix of `s` made of digits of the given radix. */
  function DigitPrefixLength(s: string, radix: nat): (k: nat)
    ensures k <= |s|
    ensures forall i :: 0 <= i < k ==> IsRadixDigit(s[i], radix)
    ensures k < |s| ==> !IsRadixDigit(s[k], radix)
  {
    if s == [] || !IsRadixDigit(s[0], radix) then 0 else 1 + DigitPrefixLength(s[1..], radix)
  }

  /** The white space `parseInt` skips before the number: the common ASCII spaces,
      NO-BREAK SPACE, the byte-order mark and the two Unicode line terminators. */
  predicate IsWhiteSpace(c: char)
  {
    c == ' ' || c == '\t' || c == '\n' || c == '\r' || c == '\U{B}' || c == '\U{C}'
    || c == '\U{A0}' || c == '\U{FEFF}' || c == '\U{2028}' || c == '\U{2029}'
  }

  function TrimLeadingWhiteSpace(s: string): (t: string)
    ensures |t| <= |s|
    ensures t != [] ==> !IsWhiteSpace(t[0])
    ensures s != [] && !IsWhiteSpace(s[0]) ==> t == s
  {
    if s != [] && IsWhiteSpace(s[0]) then TrimLeadingWhiteSpace(s[1..]) else s
  }

  /** Trimming drops white space and nothing else: what remains is a suffix of the input. */
  lemma {:induction false} TrimDropsOnlyWhiteSpace(s: string)
    ensures var t := TrimLeadingWhiteSpace(s);
      t == s[|s| - |t|..] && forall i :: 0 <= i < |s| - |t| ==> IsWhiteSpace(s[i])
  {
    if s != [] && IsWhiteSpace(s[0]) {
      var t := TrimLeadingWhiteSpace(s[1..]);
      TrimDropsOnlyWhiteSpace(s[1..]);
      assert s[1..][|s| - 1 - |t|..] == s[|s| - |t|..];
      assert forall i :: 1 <= i < |s| - |t| ==> s[i] == s[1..][i - 1];
    }
  }

  /** The value of the longest digit prefix of `s`, or `None` when `s` does not start with a digit. */
  function ReadDigits(s: string, radix: nat): (r: Option<nat>)
    ensures r.None? <==> s == [] || !IsRadixDigit(s[0], radix)
    ensures r.Some? ==> var k := DigitPrefixLength(s, radix);
      && (forall i :: 0 <= i < k ==> IsRadixDigit(s[..k][i], radix))
      && r.value == DigitsValue(s[..k], radix)
  {
    var k := DigitPrefixLength(s, radix);
    var digits := s[..k];
    assert forall i :: 0 <= i < |digits| ==> IsRadixDigit(digits[i], radix);
    if k == 0 then None else Some(DigitsValue(digits, radix))
  }

  /** What follows an optional leading sign. */
  function Unsigned(t: string): (u: string)
    ensures t != [] && (t[0] == '-' || t[0] == '+') ==> u == t[1..]
    ensures t == [] || (t[0] != '-' && t[0] != '+') ==> u == t
  {
    if t != [] && (t[0] == '-' || t[0] == '+') then t[1..] else t
  }

  predicate HasHexPrefix(u: string)
  {
    |u| >= 2 && u[0] == '0' && (u[1] == 'x' || u[1] == 'X')
  }

  /**
   * `parseInt(s)` with no radix argument: skip leading white space, take an optional sign,
   * switch to radix 16 after a `0x`/`0X` prefix, then read the longest run of digits.
   * `None` stands for `NaN`, the result when that run is empty.
   */
  function ParseInt(s: string): (r: Option<int>)
  {
    var t := TrimLeadingWhiteSpace(s);
    var u := Unsigned(t);
    var magnitude := if HasHexPrefix(u) then ReadDigits(u[2..], 16) else ReadDigits(u, 10);
    match magnitude
    case None => None
    case Some(m) =>
      var value: int := if t != [] && t[0] == '-' then -(m as int) else m;
      Some(value)
  }

  /**
   * `parseInt` yields a number only when the text holds a digit, and a negative one only when
   * it holds a minus sign.
   */
  lemma ParseIntNeedsDigit(s: string)
    ensures ParseInt(s).Some? ==> exists i :: 0 <= i < |s| && IsRadixDigit(s[i], 16)
    ensures ParseInt(s).Some? && ParseInt(s).value < 0 ==> '-' in s
  {
    TrimDropsOnlyWhiteSpace(s);
    var t := TrimLeadingWhiteSpace(s);
    var u := Unsigned(t);
    var j := |s| - |u|;
    assert u == s[j..];
    if ParseInt(s).Some? {
      if HasHexPrefix(u) {
        assert IsRadixDigit(u[2..][0], 16) && s[j + 2] == u[2..][0];
      } else {
        assert IsRadixDigit(u[0], 10) && s[j] == u[0];
      }
      if ParseInt(s).value < 0 {
        assert t[0] == '-' && s[|s| - |t|] == t[0];
      }
    }
  }

  /** Reading the digits of `NatToDecimal(n)` gives back `n`. */
  lemma {:induction false} DigitsOfNatToDecimal(n: nat)
    ensures DigitsValue(NatToDecimal(n), 10) == n
    decreases n
  {
    var s := NatToDecimal(n);
    if n >= 10 {
      DigitsOfNatToDecimal(n / 10);
      assert s[..|s| - 1] == NatToDecimal(n / 10);
    }
  }

  /** A run of digits followed by a non-digit (or nothing) is exactly the digit prefix. */
  lemma {:induction false} DigitPrefixOfDigitsThen(d: string, rest: string, radix: nat)
    requires forall i :: 0 <= i < |d| ==> IsRadixDigit(d[i], radix)
    requires rest != [] ==> !IsRadixDigit(rest[0], radix)
    ensures DigitPrefixLength(d + rest, radix) == |d|
  {
    if d != [] {
      assert (d + rest)[1..] == d[1..] + rest;
      DigitPrefixOfDigitsThen(d[1..], rest, radix);
    } else {
      assert d + rest == rest;
    }
  }

  /**
   * Round trip: `parseInt` reads back a printed integer when the next character is neither a
   * decimal digit nor an `x` that would turn a lone `0` into a hex prefix (so the `/` of a
   * blood-pressure reading, or the end of the string).
   */
  lemma ParseIntOfIntToDecimal(n: int, rest: string)
    requires rest != [] ==> !IsRadixDigit(rest[0], 10) && rest[0] != 'x' && rest[0] != 'X'
    ensures ParseInt(IntToDecimal(n) + rest) == Some(n)
  {
    if n < 0 {
      assert IntToDecimal(n) == "-" + NatToDecimal(-n);
      ParseIntOfNegative(-n, rest);
    } else {
      assert IntToDecimal(n) == NatToDecimal(n);
      ParseIntOfUnsigned(n, rest);
    }
  }

  lemma ParseIntOfUnsigned(m: nat, rest: string)
    requires rest != [] ==> !IsRadixDigit(rest[0], 10) && rest[0] != 'x' && rest[0] != 'X'
    ensures ParseInt(NatToDecimal(m) + rest) == Some(m)
  {
    var s := NatToDecimal(m) + rest;
    ReadDigitsOfDecimal(m, rest);
    assert s[0] == NatToDecimal(m)[0];
    ParseIntOfPlainDigits(s);
  }

  lemma ParseIntOfNegative(m: nat, rest: string)
    requires m > 0
    requires rest != [] ==> !IsRadixDigit(rest[0], 10) && rest[0] != 'x' && rest[0] != 'X'
    ensures ParseInt("-" + NatToDecimal(m) + rest) == Some(-(m as int))
  {
    var d := NatToDecimal(m) + rest;
    ReadDigitsOfDecimal(m, rest);
    AppendIsAssociative("-", NatToDecimal(m), rest);
    ParseIntOfMinusDigits(d);
  }

  lemma AppendIsAssociative(a: string, b: string, c: string)
    ensures a + b + c == a + (b + c)
  {
  }

  /** A string starting with a decimal digit and no hex prefix parses as its digit prefix. */
  lemma ParseIntOfPlainDigits(s: string)
    requires s != [] && IsRadixDigit(s[0], 10) && !HasHexPrefix(s)
    ensures ReadDigits(s, 10).Some? && ParseInt(s) == Some(ReadDigits(s, 10).value as int)
  {
    DigitIsNotSignOrSpace(s[0]);
    assert TrimLeadingWhiteSpace(s) == s;
    assert Unsigned(s) == s;
  }

  lemma DigitIsNotSignOrSpace(c: char)
    requires IsRadixDigit(c, 10)
    ensures !IsWhiteSpace(c) && c != '-' && c != '+'
  {
  }

  /** A minus sign before digits with no hex prefix parses as the negated digit prefix. */
  lemma ParseIntOfMinusDigits(d: string)
    requires d != [] && IsRadixDigit(d[0], 10) && !HasHexPrefix(d)
    ensures ReadDigits(d, 10).Some? && ParseInt(['-'] + d) == Some(-(ReadDigits(d, 10).value as int))
  {
    var s := ['-'] + d;
    assert s[0] == '-' && !IsWhiteSpace(s[0]);
    assert TrimLeadingWhiteSpace(s) == s;
    assert s[1..] == d;
    assert Unsigned(s) == d;
  }

  lemma ReadDigitsOfDecimal(m: nat, rest: string)
    requires rest != [] ==> !IsRadixDigit(rest[0], 10) && rest[0] != 'x' && rest[0] != 'X'
    ensures !HasHexPrefix(NatToDecimal(m) + rest) && IsRadixDigit((NatToDecimal(m) + rest)[0], 10)
    ensures ReadDigits(NatToDecimal(m) + rest, 10) == Some(m)
  {
    var d := NatToDecimal(m);
    DigitPrefixOfDigitsThen(d, rest, 10);
    DigitsOfNatToDecimal(m);
    assert (d + rest)[..|d|] == d;
    assert (d + rest)[0] == d[0];
    if |d + rest| >= 2 {
      assert IsRadixDigit((d + rest)[1], 10) || (d + rest)[1] == rest[0];
    }
  }

  /** Printing integers is injective: distinct numbers never print alike. */
  lemma IntToDecimalInjective(a: int, b: int)
    requires IntToDecimal(a) == IntToDecimal(b)
    ensures a == b
  {
    ParseIntOfIntToDecimal(a, []);
    ParseIntOfIntToDecimal(b, []);
    assert IntToDecimal(a) + [] == IntToDecimal(a);
    assert IntToDecimal(b) + [] == IntToDecimal(b);
  }
}
