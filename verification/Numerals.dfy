/**
 Decimal numerals: std::to_string for unsigned values, and the base 10 path of the
 hand-written stol in `compat/platform/android.hpp`.
 */
module Numerals {
  import opened Wrappers
  import opened Strings

  function DigitValue(c: char): (d: nat)
    requires IsDigit(c)
    ensures d < 10
  {
    c as int - '0' as int
  }

  function DigitChar(d: nat): (c: char)
    requires d < 10
    ensures IsDigit(c) && DigitValue(c) == d
  {
    ('0' as int + d) as char
  }

  /** std::to_string of a non-negative number. */
  function Decimal(n: nat): (s: string)
    ensures s != ""
  {
    if n < 10 then [DigitChar(n)] else Decimal(n / 10) + [DigitChar(n % 10)]
  }

  predicate AllDigits(s: string) {
    forall i :: 0 <= i < |s| ==> IsDigit(s[i])
  }

  /** The number a string of digits stands for. */
  function Value(s: string): nat
    requires AllDigits(s)
  {
    if s == "" then 0 else 10 * Value(s[..|s| - 1]) + DigitValue(s[|s| - 1])
  }

  lemma {:induction false} DecimalRoundTrip(n: nat)
    ensures AllDigits(Decimal(n)) && Value(Decimal(n)) == n
    ensures |Decimal(n)| >= 2 <==> n >= 10
  {
    if n >= 10 {
      DecimalRoundTrip(n / 10);
      assert Decimal(n)[..|Decimal(n)| - 1] == Decimal(n / 10);
    } else {
      assert Decimal(n)[..0] == "";
    }
  }

  lemma {:induction false} NoLeadingZero(n: nat)
    ensures n > 0 ==> Decimal(n)[0] != '0'
  {
    if n >= 10 { NoLeadingZero(n / 10); }
  }

  // ---- stol ----

  /** long on an LP64 platform. */
  const LONG_MAX: nat := 0x7FFF_FFFF_FFFF_FFFF

  datatype ParseError = NoDigits | OutOfRange

  /** `end` is the position of the first character not used. */
  datatype Number = Number(value: int, end: nat)

  function SpacesEnd(s: string, pos: nat): (e: nat)
    requires pos <= |s|
    ensures pos <= e <= |s|
    decreases |s| - pos
  {
    if pos < |s| && IsSpace(s[pos]) then SpacesEnd(s, pos + 1) else pos
  }

  function DigitsEnd(s: string, pos: nat): (e: nat)
    requires pos <= |s|
    ensures pos <= e <= |s| && AllDigits(s[pos..e])
    decreases |s| - pos
  {
    if pos < |s| && IsDigit(s[pos]) then
      var e := DigitsEnd(s, pos + 1);
      assert s[pos..e] == [s[pos]] + s[pos + 1..e];
      e
    else pos
  }

  predicate HasSign(s: string, pos: nat) {
    pos < |s| && (s[pos] == '-' || s[pos] == '+')
  }

  /** Where the digits begin: after white space and one optional sign. */
  function NumeralStart(s: string): (p: nat)
    ensures p <= |s|
  {
    var p := SpacesEnd(s, 0);
    if HasSign(s, p) then p + 1 else p
  }

  function Magnitude(s: string): nat {
    Value(s[NumeralStart(s)..DigitsEnd(s, NumeralStart(s))])
  }

  predicate InRange(s: string) {
    Magnitude(s) <= LONG_MAX
  }

  /** std::stol in base 10: white space, an optional sign, and as many digits as follow. */
  function ParseLong(s: string): Result<Number, ParseError> {
    var p := SpacesEnd(s, 0);
    var start := NumeralStart(s);
    var e := DigitsEnd(s, start);
    var negative := HasSign(s, p) && s[p] == '-';
    if e == start then Err(NoDigits)
    else if Magnitude(s) > (if negative then LONG_MAX + 1 else LONG_MAX) then Err(OutOfRange)
    else Ok(Number(if negative then -(Magnitude(s) as int) else Magnitude(s), e))
  }

  lemma {:induction false} DigitsEndStays(s: string, pos: nat, mid: nat)
    requires pos <= |s| && pos <= mid <= DigitsEnd(s, pos)
    ensures mid <= |s| && DigitsEnd(s, mid) == DigitsEnd(s, pos)
    decreases mid - pos
  {
    if pos < mid {
      DigitsEndStays(s, pos + 1, mid);
    }
  }

  lemma {:induction false} ValueGrows(s: string, k: nat)
    requires AllDigits(s) && k <= |s|
    ensures Value(s[..k]) <= Value(s)
    decreases |s| - k
  {
    if k < |s| {
      ValueGrows(s, k + 1);
      assert s[..k + 1][..k] == s[..k];
    } else {
      assert s[..k] == s;
    }
  }

  lemma PrefixOfSlice(s: string, start: nat, mid: nat, end: nat)
    requires start <= mid <= end <= |s|
    ensures s[start..end][..mid - start] == s[start..mid]
  {
  }

  /** One more digit of a numeral in range stays in range. */
  lemma OneMoreDigit(s: string, start: nat, idx: nat)
    requires start <= |s| && start <= idx < DigitsEnd(s, start) && Value(s[start..DigitsEnd(s, start)]) <= LONG_MAX
    ensures idx < |s| && IsDigit(s[idx]) && AllDigits(s[start..idx]) && AllDigits(s[start..idx + 1])
    ensures Value(s[start..idx + 1]) == 10 * Value(s[start..idx]) + DigitValue(s[idx]) <= LONG_MAX
  {
    DigitsEndStays(s, start, idx);
    PrefixOfSlice(s, start, idx + 1, DigitsEnd(s, start));
    PrefixOfSlice(s, start, idx, idx + 1);
    ValueGrows(s[start..DigitsEnd(s, start)], idx + 1 - start);
  }

  /** The digit loop of the hand-written stol for base 10; nothing it multiplies or adds overflows. */
  method ReadDigits(str: string, start: nat) returns (val: int, idx: nat)
    requires start <= |str| && Value(str[start..DigitsEnd(str, start)]) <= LONG_MAX
    ensures idx == DigitsEnd(str, start) && val == Value(str[start..idx])
  {
    val, idx := 0, start;
    while idx < |str|
      invariant start <= idx <= DigitsEnd(str, start)
      invariant AllDigits(str[start..idx]) && val == Value(str[start..idx])
    {
      DigitsEndStays(str, start, idx);
      var ch := str[idx];
      var digitVal: int;
      if 'a' <= ch <= 'z' {
        digitVal := 10 + (ch as int - 'a' as int);
      } else if 'A' <= ch <= 'Z' {
        digitVal := 10 + (ch as int - 'A' as int);
      } else if '0' <= ch <= '9' {
        digitVal := ch as int - '0' as int;
      } else {
        return;
      }
      if digitVal >= 10 {
        return;
      }
      OneMoreDigit(str, start, idx);
      val := val * 10;
      assert val <= LONG_MAX;
      val := val + digitVal;
      assert val <= LONG_MAX;
      idx := idx + 1;
    }
  }

  /**
   The hand-written stol, base 10. Its overflow checks rely on signed overflow, so it is only
   asked about numerals in range; there it is exact.
   */
  method Stol(str: string) returns (r: Result<Number, ParseError>)
    requires InRange(str)
    ensures r == ParseLong(str)
  {
    var idx := 0;
    while idx < |str| && IsSpace(str[idx])
      invariant idx <= |str| && SpacesEnd(str, idx) == SpacesEnd(str, 0)
    {
      idx := idx + 1;
    }
    if idx == |str| {
      return Err(NoDigits);
    }
    var neg := 1;
    if str[idx] == '-' || str[idx] == '+' {
      neg := if str[idx] == '-' then -1 else 1;
      idx := idx + 1;
    }
    if idx == |str| {
      return Err(NoDigits);
    }
    var val, end := ReadDigits(str, idx);
    if end == idx {
      return Err(NoDigits);
    }
    return Ok(Number(val * neg, end));
  }

  /** A numeral at the front of a text, with no further digit after it, is read back exactly. */
  lemma ParseDecimal(n: nat, rest: string)
    requires n <= LONG_MAX && (rest != "" ==> !IsDigit(rest[0]))
    ensures ParseLong(Decimal(n) + rest) == Ok(Number(n, |Decimal(n)|))
  {
    DecimalRoundTrip(n);
    var s := Decimal(n) + rest;
    assert IsDigit(s[0]);
    EndOfDigits(Decimal(n), rest, 0);
    assert s[0..|Decimal(n)|] == Decimal(n);
  }

  lemma {:induction false} EndOfDigits(digits: string, rest: string, pos: nat)
    requires AllDigits(digits) && (rest != "" ==> !IsDigit(rest[0])) && pos <= |digits|
    ensures DigitsEnd(digits + rest, pos) == |digits|
    decreases |digits| - pos
  {
    if pos < |digits| {
      EndOfDigits(digits, rest, pos + 1);
    }
  }

  // ---- The forms of numerals ----

  predicate AllSpaces(s: string) {
    forall i :: 0 <= i < |s| ==> IsSpace(s[i])
  }

  predicate IsSign(s: string) {
    s == "" || s == "+" || s == "-"
  }

  lemma {:induction false} EndOfSpaces(spaces: string, rest: string, pos: nat)
    requires AllSpaces(spaces) && (rest != "" ==> !IsSpace(rest[0])) && pos <= |spaces|
    ensures SpacesEnd(spaces + rest, pos) == |spaces|
    decreases |spaces| - pos
  {
    if pos < |spaces| {
      EndOfSpaces(spaces, rest, pos + 1);
    }
  }

  lemma {:induction false} EndOfDigitsAfter(before: string, digits: string, rest: string, pos: nat)
    requires AllDigits(digits) && (rest != "" ==> !IsDigit(rest[0])) && pos <= |digits|
    ensures DigitsEnd(before + (digits + rest), |before| + pos) == |before| + |digits|
    decreases |digits| - pos
  {
    var s := before + (digits + rest);
    if pos < |digits| {
      assert s[|before| + pos] == digits[pos];
      EndOfDigitsAfter(before, digits, rest, pos + 1);
    } else if rest != "" {
      assert s[|before| + pos] == rest[0];
    }
  }

  /** What is behind the sign starts with a digit, or with nothing that could belong to a numeral. */
  predicate EndsNumeral(sign: string, digits: string, rest: string) {
    && (rest != "" ==> !IsDigit(rest[0]))
    && (rest != "" && digits == "" && sign == "" ==> !IsSpace(rest[0]) && rest[0] != '+' && rest[0] != '-')
  }

  lemma StartOfNumeral(spaces: string, sign: string, digits: string, rest: string)
    requires AllSpaces(spaces) && IsSign(sign) && AllDigits(digits) && EndsNumeral(sign, digits, rest)
    ensures var s := (spaces + sign) + (digits + rest);
            && SpacesEnd(s, 0) == |spaces| && NumeralStart(s) == |spaces + sign|
            && (HasSign(s, |spaces|) <==> sign != "") && (sign != "" ==> s[|spaces|] == sign[0])
  {
    var s := (spaces + sign) + (digits + rest);
    var behind := sign + (digits + rest);
    assert s == spaces + behind;
    if behind != "" { assert !IsSpace(behind[0]) && s[|spaces|] == behind[0]; }
    EndOfSpaces(spaces, behind, 0);
  }

  lemma MagnitudeOfNumeral(s: string, before: string, digits: string, rest: string)
    requires s == before + (digits + rest) && NumeralStart(s) == |before|
    requires AllDigits(digits) && (rest != "" ==> !IsDigit(rest[0]))
    ensures DigitsEnd(s, NumeralStart(s)) == |before| + |digits| && Magnitude(s) == Value(digits)
  {
    EndOfDigitsAfter(before, digits, rest, 0);
    MiddlePart(s, before, digits, rest);
  }

  lemma MiddlePart(s: string, before: string, digits: string, rest: string)
    requires s == before + (digits + rest)
    ensures s[|before|..|before| + |digits|] == digits
  {
  }

  /** What the parts of a text say it is as a number. */
  function NumberOf(sign: string, digits: string, end: nat): Result<Number, ParseError>
    requires AllDigits(digits)
  {
    var n: int := Value(digits);
    if digits == "" then Err(NoDigits)
    else if sign == "-" && n <= LONG_MAX + 1 then Ok(Number(-n, end))
    else if sign != "-" && n <= LONG_MAX then Ok(Number(n, end))
    else Err(OutOfRange)
  }

  /** White space, a sign or none, and digits up to the first other character: exactly then there is a number. */
  lemma NumeralRead(spaces: string, sign: string, digits: string, rest: string)
    requires AllSpaces(spaces) && IsSign(sign) && AllDigits(digits) && EndsNumeral(sign, digits, rest)
    ensures ParseLong((spaces + sign) + (digits + rest)) == NumberOf(sign, digits, |spaces| + |sign| + |digits|)
  {
    var s := (spaces + sign) + (digits + rest);
    StartOfNumeral(spaces, sign, digits, rest);
    MagnitudeOfNumeral(s, spaces + sign, digits, rest);
  }
}
