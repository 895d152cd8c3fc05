/** Decimal numerals as digit strings. */
module Decimals {
  import opened Arithmetic

  predicate IsDigit(c: char) { '0' <= c <= '9' }

  ghost predicate AllDigits(s: string) {
    forall i :: 0 <= i < |s| ==> IsDigit(s[i])
  }

  function DigitValue(c: char): (d: int)
    ensures IsDigit(c) ==> 0 <= d <= 9
  {
    c as int - '0' as int
  }

  /** The number a digit string denotes. */
  function Value(s: string): int {
    if |s| == 0 then 0 else 10 * Value(s[..|s| - 1]) + DigitValue(s[|s| - 1])
  }

  function DigitChar(d: int): char
    requires 0 <= d <= 9
  {
    ('0' as int + d) as char
  }

  /** `String(n)` of a whole number. */
  function Decimal(n: nat): string {
    if n < 10 then [DigitChar(n)] else Decimal(n / 10) + [DigitChar(n % 10)]
  }

  function Pow10(n: nat): (p: int)
    ensures p >= 1
  {
    if n == 0 then 1 else 10 * Pow10(n - 1)
  }

  function Zeros(n: nat): (z: string)
    ensures |z| == n
  {
    seq(n, i => '0')
  }

  lemma {:induction false} ValueSnoc(s: string, c: char)
    ensures Value(s + [c]) == 10 * Value(s) + DigitValue(c)
  {
    assert (s + [c])[..|s|] == s;
  }

  lemma {:induction false} DecimalValue(n: nat)
    ensures AllDigits(Decimal(n)) && |Decimal(n)| >= 1
    ensures Value(Decimal(n)) == n
  {
    if n < 10 {
      ValueSnoc([], DigitChar(n));
      assert [] + [DigitChar(n)] == [DigitChar(n)];
    } else {
      DecimalValue(n / 10);
      ValueSnoc(Decimal(n / 10), DigitChar(n % 10));
    }
  }

  lemma {:induction false} ValueBounds(s: string)
    requires AllDigits(s)
    ensures 0 <= Value(s) < Pow10(|s|)
  {
    if |s| > 0 {
      ValueBounds(s[..|s| - 1]);
      assert IsDigit(s[|s| - 1]);
    }
  }

  lemma {:induction false} ValueSplit(a: string, b: string)
    ensures Value(a + b) == Value(a) * Pow10(|b|) + Value(b)
  {
    if |b| == 0 {
      assert a + b == a;
    } else {
      var n := |b| - 1;
      ValueSplit(a, b[..n]);
      assert a + b == (a + b[..n]) + [b[n]];
      ValueSnoc(a + b[..n], b[n]);
      TenTimes(Value(a), Pow10(n));
    }
  }

  lemma {:induction false} TenTimes(v: int, p: int)
    ensures 10 * (v * p) == v * (10 * p)
  {
  }

  lemma {:induction false} ZerosValue(n: nat)
    ensures Value(Zeros(n)) == 0 && AllDigits(Zeros(n))
  {
    if n > 0 {
      ZerosValue(n - 1);
      assert Zeros(n)[..n - 1] == Zeros(n - 1);
    }
  }

  /** The last `len` digits, filled with zeros on the left. */
  function LastDigits(d: string, len: nat): (r: string)
    ensures |r| == len
    ensures AllDigits(d) ==> AllDigits(r)
  {
    if |d| >= len then d[|d| - len..] else Zeros(len - |d|) + d
  }

  lemma {:induction false} Pow10Grows(m: nat, n: nat)
    requires m <= n
    ensures Pow10(m) <= Pow10(n)
  {
    if m < n {
      Pow10Grows(m, n - 1);
    }
  }

  /** A fixed-width field keeps a number up to the field's modulus. */
  lemma {:induction false} LastDigitsValue(d: string, len: nat)
    requires AllDigits(d)
    ensures AllDigits(LastDigits(d, len))
    ensures Value(LastDigits(d, len)) == Value(d) % Pow10(len)
  {
    ValueBounds(d);
    if |d| >= len {
      var a, b := d[..|d| - len], d[|d| - len..];
      assert d == a + b;
      ValueSplit(a, b);
      ValueBounds(b);
      DivIs(Value(d), Pow10(len), Value(a), Value(b));
    } else {
      var z := Zeros(len - |d|);
      ZerosValue(len - |d|);
      ValueSplit(z, d);
      Pow10Grows(|d|, len);
      DivIs(Value(d), Pow10(len), 0, Value(d));
    }
  }

  lemma {:induction false} PowersOfTen()
    ensures Pow10(6) == 1_000_000 && Pow10(8) == 100_000_000
    ensures Pow10(10) == 10_000_000_000 && Pow10(12) == 1_000_000_000_000
  {
    assert Pow10(2) == 100;
    assert Pow10(4) == 10_000;
    assert Pow10(6) == 1_000_000;
    assert Pow10(8) == 100_000_000;
    assert Pow10(10) == 10_000_000_000;
  }
}
