/** Decimal text of integers as the Rust standard library writes it
    (`Display` for u16, u64, i32, i64) and reads it (`str::parse` for the
    same types: an optional sign, ASCII digits, overflow is an error). */
module Decimal {
  import opened Wrappers
  import opened Text

  const U16_MAX: int := 0xFFFF
  const U64_MAX: int := 0xFFFF_FFFF_FFFF_FFFF
  const I32_MIN: int := -0x8000_0000
  const I32_MAX: int := 0x7FFF_FFFF
  const I64_MIN: int := -0x8000_0000_0000_0000
  const I64_MAX: int := 0x7FFF_FFFF_FFFF_FFFF

  function DigitChar(d: nat): (c: char)
    requires d < 10
    ensures IsAsciiDigit(c)
  {
    ('0' as int + d) as char
  }

  function DigitValue(c: char): (d: nat)
    requires IsAsciiDigit(c)
    ensures d < 10 && DigitChar(d) == c
  {
    (c as int - '0' as int) as nat
  }

  /** The value of a run of ASCII digits, most significant first. */
  function DigitsValue(s: string): nat
    requires AllDigits(s)
  {
    if |s| == 0 then 0 else DigitsValue(s[..|s| - 1]) * 10 + DigitValue(s[|s| - 1])
  }

  /** `Display` of an unsigned integer: its digits without leading zeros. */
  function NatToString(n: nat): (r: string)
    ensures |r| >= 1 && AllDigits(r) && DigitsValue(r) == n
    ensures r[0] == '0' ==> n == 0
  {
    if n < 10 then [DigitChar(n)]
    else
      var r := NatToString(n / 10) + [DigitChar(n % 10)];
      assert r[..|r| - 1] == NatToString(n / 10);
      r
  }

  /** `Display` of a signed integer: a '-' before the digits of a negative value. */
  function IntToString(i: int): string {
    if i < 0 then "-" + NatToString(-i) else NatToString(i)
  }

  /** `str::parse` for an unsigned type whose largest value is `max`. A lone
      sign is an error, '+' is accepted, '-' is an invalid digit. */
  function ParseUnsigned(s: string, max: nat): (r: Option<nat>)
    ensures r.Some? ==> r.value <= max
    ensures r.Some? ==> |s| > 0 && (s[0] != '+' ==> AllDigits(s) && DigitsValue(s) == r.value)
  {
    if |s| == 0 || ((s[0] == '+' || s[0] == '-') && |s| == 1) then None
    else
      var digits := if s[0] == '+' then s[1..] else s;
      if AllDigits(digits) && DigitsValue(digits) <= max then Some(DigitsValue(digits)) else None
  }

  /** `str::parse` for a signed type with range [min, max]. */
  function ParseSigned(s: string, min: int, max: int): (r: Option<int>)
    ensures r.Some? ==> min <= r.value <= max
  {
    if |s| == 0 || ((s[0] == '+' || s[0] == '-') && |s| == 1) then None
    else if s[0] == '-' then
      if AllDigits(s[1..]) && min <= -(DigitsValue(s[1..]) as int) <= max then Some(-(DigitsValue(s[1..]) as int)) else None
    else
      var digits := if s[0] == '+' then s[1..] else s;
      if AllDigits(digits) && min <= DigitsValue(digits) <= max then Some(DigitsValue(digits)) else None
  }

  function ParseU64(s: string): Option<nat> { ParseUnsigned(s, U64_MAX) }

  function ParseI32(s: string): Option<int> { ParseSigned(s, I32_MIN, I32_MAX) }

  function ParseI64(s: string): Option<int> { ParseSigned(s, I64_MIN, I64_MAX) }

  /** Writing an unsigned value and reading it back gives the value. */
  lemma ParseUnsignedOfString(n: nat, max: nat)
    requires n <= max
    ensures ParseUnsigned(NatToString(n), max) == Some(n)
  {
    var s := NatToString(n);
    assert IsAsciiDigit(s[0]);
  }

  /** Writing a signed value and reading it back gives the value. */
  lemma ParseSignedOfString(i: int, min: int, max: int)
    requires min <= i <= max
    ensures ParseSigned(IntToString(i), min, max) == Some(i)
  {
    if i < 0 {
      var s := IntToString(i);
      assert s[1..] == NatToString(-i);
    } else {
      assert IsAsciiDigit(NatToString(i)[0]);
    }
  }

  function Pow10(n: nat): (r: nat)
    ensures r >= 1
  {
    if n == 0 then 1 else 10 * Pow10(n - 1)
  }

  /** A run of `n` digits is worth less than 10^n. */
  lemma {:induction false} DigitsValueBound(s: string)
    requires AllDigits(s)
    ensures DigitsValue(s) < Pow10(|s|)
  {
    if |s| > 0 {
      DigitsValueBound(s[..|s| - 1]);
    }
  }

  /** Up to 19 digits always fit a u64 (20 may not). */
  lemma ShortDigitsParseU64(s: string)
    requires 1 <= |s| <= 19 && AllDigits(s)
    ensures ParseU64(s) == Some(DigitsValue(s))
  {
    DigitsValueBound(s);
    Pow10Monotone(|s|, 19);
    assert Pow10(1) == 10;
    assert Pow10(2) == 100;
    assert Pow10(3) == 1000;
    assert Pow10(4) == 10000;
    assert Pow10(5) == 100000;
    assert Pow10(6) == 1000000;
    assert Pow10(7) == 10000000;
    assert Pow10(8) == 100000000;
    assert Pow10(9) == 1000000000;
    assert Pow10(10) == 10000000000;
    assert Pow10(11) == 100000000000;
    assert Pow10(12) == 1000000000000;
    assert Pow10(13) == 10000000000000;
    assert Pow10(14) == 100000000000000;
    assert Pow10(15) == 1000000000000000;
    assert Pow10(16) == 10000000000000000;
    assert Pow10(17) == 100000000000000000;
    assert Pow10(18) == 1000000000000000000;
    assert Pow10(19) == 10000000000000000000;
    assert IsAsciiDigit(s[0]);
  }

  lemma {:induction false} Pow10Monotone(m: nat, n: nat)
    requires m <= n
    ensures Pow10(m) <= Pow10(n)
    decreases n
  {
    if m < n {
      Pow10Monotone(m, n - 1);
    }
  }

  /** The texts `Display` writes for an unsigned value: digits without a
      leading zero, except "0" itself. */
  predicate CanonicalDigits(s: string) {
    |s| >= 1 && AllDigits(s) && (s[0] == '0' ==> |s| == 1)
  }

  /** The texts `Display` writes for a signed value: canonical digits, or
      '-' before canonical digits other than "0". */
  predicate CanonicalSigned(s: string) {
    CanonicalDigits(s) || (|s| >= 2 && s[0] == '-' && CanonicalDigits(s[1..]) && s[1..] != "0")
  }

  /** `Display` writes canonical digits. */
  lemma NatToStringCanonical(n: nat)
    ensures CanonicalDigits(NatToString(n))
  {
  }

  /** `Display` writes a canonical signed text. */
  lemma IntToStringCanonical(i: int)
    ensures CanonicalSigned(IntToString(i))
  {
    if i < 0 {
      var s := IntToString(i);
      assert s[1..] == NatToString(-i);
      assert NatToString(-i) != "0";
    }
  }

  /** Writing the value of canonical digits gives the digits back. */
  lemma {:induction false} NatToStringOfDigits(s: string)
    requires CanonicalDigits(s)
    ensures NatToString(DigitsValue(s)) == s
    decreases |s|
  {
    if |s| == 1 {
      assert DigitsValue(s) == DigitValue(s[0]);
    } else {
      var p := s[..|s| - 1];
      assert p[0] == s[0];
      NatToStringOfDigits(p);
      var v := DigitsValue(p);
      assert v != 0;
      var d := DigitValue(s[|s| - 1]);
      assert DigitsValue(s) == v * 10 + d;
      assert DigitsValue(s) / 10 == v && DigitsValue(s) % 10 == d;
      assert NatToString(DigitsValue(s)) == NatToString(v) + [DigitChar(d)];
    }
  }

  /** Reading canonical unsigned digits and writing the value back gives the
      same text. */
  lemma UnsignedOfCanonical(s: string, max: nat)
    requires CanonicalDigits(s) && ParseUnsigned(s, max).Some?
    ensures NatToString(ParseUnsigned(s, max).value) == s
  {
    NatToStringOfDigits(s);
  }

  /** Reading a canonical signed text and writing the value back gives the
      same text. */
  lemma SignedOfCanonical(s: string, min: int, max: int)
    requires CanonicalSigned(s) && ParseSigned(s, min, max).Some?
    ensures IntToString(ParseSigned(s, min, max).value) == s
  {
    if s[0] == '-' {
      var t := s[1..];
      NatToStringOfDigits(t);
      assert DigitsValue(t) != 0;
      assert s == "-" + t;
    } else {
      assert CanonicalDigits(s) && s[0] != '+';
      NatToStringOfDigits(s);
    }
  }

  /** The text of a signed value never contains a character other than '-' and digits. */
  lemma IntToStringChars(i: int, c: char)
    requires c in IntToString(i)
    ensures c == '-' || IsAsciiDigit(c)
  {
    if i < 0 {
      var s := IntToString(i);
      var k :| 0 <= k < |s| && s[k] == c;
      if k > 0 { assert c == NatToString(-i)[k - 1]; }
    }
  }
}
