/** Base-10 digits and the integers they stand for. */
module Decimal {
  import opened Wrappers
  import opened Text

  function Pow10(n: nat): (p: nat)
    ensures p > 0
  {
    if n == 0 then 1 else 10 * Pow10(n - 1)
  }

  lemma {:induction false} Pow10Add(m: nat, n: nat)
    ensures Pow10(m + n) == Pow10(m) * Pow10(n)
  {
    if m > 0 {
      Pow10Add(m - 1, n);
      assert Pow10(m + n) == 10 * Pow10(m - 1 + n) && Pow10(m) == 10 * Pow10(m - 1);
      TenTimes(Pow10(m - 1), Pow10(n));
    }
  }

  lemma TenTimes(a: int, b: int)
    ensures 10 * (a * b) == (10 * a) * b
  {
  }

  predicate IsDigit(c: char) {
    '0' <= c <= '9'
  }

  predicate AreDigits(s: string) {
    s != [] ==> IsDigit(s[|s| - 1]) && AreDigits(s[..|s| - 1])
  }

  lemma {:induction false} DigitsAppend(a: string, b: string)
    ensures AreDigits(a + b) <==> AreDigits(a) && AreDigits(b)
  {
    if b == [] {
      assert a + b == a;
    } else {
      assert (a + b)[..|a + b| - 1] == a + b[..|b| - 1];
      DigitsAppend(a, b[..|b| - 1]);
    }
  }

  lemma DigitsSplit(s: string, k: nat)
    requires AreDigits(s) && k <= |s|
    ensures AreDigits(s[..k]) && AreDigits(s[k..])
  {
    DigitsAppend(s[..k], s[k..]);
    assert s[..k] + s[k..] == s;
  }

  /** Every character is a digit, so none is a sign, a point, a space or an exponent mark. */
  lemma {:induction false} DigitsOnly(s: string)
    requires AreDigits(s)
    ensures forall i | 0 <= i < |s| :: IsDigit(s[i])
  {
    if s != [] { DigitsOnly(s[..|s| - 1]); }
  }

  function DigitChar(d: nat): (c: char)
    requires d < 10
    ensures IsDigit(c) && (c == '0' <==> d == 0)
  {
    '0' + d as char
  }

  function DigitValue(c: char): nat
    requires IsDigit(c)
  {
    (c - '0') as nat
  }

  /** `toString(10)` on a non-negative integer. */
  function ToDigits(n: nat): (s: string)
    ensures s != [] && AreDigits(s)
  {
    if n < 10 then
      DigitsAppend([], [DigitChar(n)]);
      [DigitChar(n)]
    else
      DigitsAppend(ToDigits(n / 10), [DigitChar(n % 10)]);
      ToDigits(n / 10) + [DigitChar(n % 10)]
  }

  function FromDigits(s: string): nat
    requires AreDigits(s)
  {
    if s == [] then 0 else 10 * FromDigits(s[..|s| - 1]) + DigitValue(s[|s| - 1])
  }

  lemma {:induction false} FromToDigits(n: nat)
    ensures FromDigits(ToDigits(n)) == n
  {
    var s := ToDigits(n);
    if n >= 10 {
      FromToDigits(n / 10);
      assert s[..|s| - 1] == ToDigits(n / 10);
    } else {
      assert s[..0] == [];
    }
  }

  lemma {:induction false} NoLeadingZero(n: nat)
    requires n > 0
    ensures ToDigits(n)[0] != '0'
  {
    if n >= 10 { NoLeadingZero(n / 10); }
  }

  lemma Shift(a: nat, p: nat, c: nat)
    ensures 10 * (a * p + c) == a * (10 * p) + 10 * c
  {
  }

  lemma {:induction false} FromDigitsAppend(a: string, b: string)
    requires AreDigits(a) && AreDigits(b)
    ensures AreDigits(a + b) && FromDigits(a + b) == FromDigits(a) * Pow10(|b|) + FromDigits(b)
  {
    DigitsAppend(a, b);
    if b == [] {
      assert a + b == a;
    } else {
      var c := b[..|b| - 1];
      assert (a + b)[..|a + b| - 1] == a + c;
      FromDigitsAppend(a, c);
      Shift(FromDigits(a), Pow10(|c|), FromDigits(c));
    }
  }

  lemma {:induction false} FromDigitsBound(s: string)
    requires AreDigits(s)
    ensures FromDigits(s) < Pow10(|s|)
  {
    if s != [] { FromDigitsBound(s[..|s| - 1]); }
  }

  lemma {:induction false} FromZeros(n: nat)
    ensures AreDigits(Repeat('0', n)) && FromDigits(Repeat('0', n)) == 0
  {
    if n > 0 {
      FromZeros(n - 1);
      assert Repeat('0', n)[..n - 1] == Repeat('0', n - 1);
    }
  }

  lemma FromPadded(n: nat, s: string)
    requires AreDigits(s)
    ensures AreDigits(Repeat('0', n) + s) && FromDigits(Repeat('0', n) + s) == FromDigits(s)
  {
    FromZeros(n);
    FromDigitsAppend(Repeat('0', n), s);
  }

  lemma FromShifted(s: string, n: nat)
    requires AreDigits(s)
    ensures AreDigits(s + Repeat('0', n)) && FromDigits(s + Repeat('0', n)) == FromDigits(s) * Pow10(n)
  {
    FromZeros(n);
    FromDigitsAppend(s, Repeat('0', n));
  }

  /** Digits without leading zeros are the digits of their value. */
  lemma {:induction false} ToFromDigits(s: string)
    requires AreDigits(s) && s != [] && s[0] != '0'
    ensures ToDigits(FromDigits(s)) == s && FromDigits(s) > 0
  {
    var init, last := s[..|s| - 1], s[|s| - 1];
    assert s == init + [last];
    if init != [] {
      ToFromDigits(init);
      var n := FromDigits(s);
      assert n == 10 * FromDigits(init) + DigitValue(last);
      assert n / 10 == FromDigits(init) && n % 10 == DigitValue(last);
    }
  }

  /** `/^-?[0-9]+$/`. */
  predicate IsInteger(s: string) {
    if s != [] && s[0] == '-' then |s| > 1 && AreDigits(s[1..]) else s != [] && AreDigits(s)
  }

  function IntegerValue(s: string): int
    requires IsInteger(s)
  {
    if s[0] == '-' then -(FromDigits(s[1..]) as int) else FromDigits(s) as int
  }

  function ParseInteger(s: string): Option<int> {
    if IsInteger(s) then Some(IntegerValue(s)) else None
  }

  /** `toString(10)` on any integer. */
  function FormatInteger(n: int): string {
    if n < 0 then "-" + ToDigits(-n) else ToDigits(n)
  }

  lemma ParseFormatInteger(n: int)
    ensures ParseInteger(FormatInteger(n)) == Some(n)
    ensures Trim(FormatInteger(n)) == FormatInteger(n)
  {
    var s := FormatInteger(n);
    FromToDigits(if n < 0 then -n else n);
    DigitsOnly(ToDigits(if n < 0 then -n else n));
    if n < 0 { assert s[1..] == ToDigits(-n); }
    assert !IsSpace(s[0]) && !IsSpace(s[|s| - 1]);
    TrimPlain(s);
  }
}
