/** Decimal notation of integers, and reading it back. */
module Decimal {
  function Pow10(k: nat): (p: nat)
    ensures p > 0
  {
    if k == 0 then 1 else 10 * Pow10(k - 1)
  }

  function DigitChar(d: nat): char
    requires d < 10
  {
    "0123456789"[d]
  }

  predicate IsDigit(c: char) { '0' <= c <= '9' }

  function DigitValue(c: char): nat
    requires IsDigit(c)
  {
    c as int - '0' as int
  }

  predicate AllDigits(s: string) { forall i :: 0 <= i < |s| ==> IsDigit(s[i]) }

  /** Without leading zeros. */
  function Digits(n: nat): string {
    if n < 10 then [DigitChar(n)] else Digits(n / 10) + [DigitChar(n % 10)]
  }

  /** The last `k` digits. */
  function Padded(n: nat, k: nat): string {
    if k == 0 then "" else Padded(n / 10, k - 1) + [DigitChar(n % 10)]
  }

  function Signed(n: int): string { if n < 0 then "-" + Digits(-n) else Digits(n) }

  function Value(s: string): nat
    requires AllDigits(s)
  {
    if s == "" then 0 else 10 * Value(s[..|s| - 1]) + DigitValue(s[|s| - 1])
  }

  lemma DigitsOneMore(s: string, d: nat)
    requires AllDigits(s) && d < 10
    ensures AllDigits(s + [DigitChar(d)]) && Value(s + [DigitChar(d)]) == 10 * Value(s) + d
  {
    assert (s + [DigitChar(d)])[..|s|] == s;
  }

  lemma {:induction false} ReadsDigits(n: nat)
    ensures AllDigits(Digits(n)) && |Digits(n)| > 0 && Value(Digits(n)) == n
  {
    if n < 10 {
      DigitsOneMore("", n);
      assert "" + [DigitChar(n)] == [DigitChar(n)];
    } else {
      ReadsDigits(n / 10);
      DigitsOneMore(Digits(n / 10), n % 10);
    }
  }

  lemma {:induction false} ReadsPadded(n: nat, k: nat)
    requires n < Pow10(k)
    ensures AllDigits(Padded(n, k)) && |Padded(n, k)| == k && Value(Padded(n, k)) == n
  {
    if k > 0 {
      ReadsPadded(n / 10, k - 1);
      DigitsOneMore(Padded(n / 10, k - 1), n % 10);
    }
  }

  lemma ZeroChar(d: nat)
    requires d < 10
    ensures DigitChar(d) == '0' <==> d == 0
  {
  }

  lemma LastDigit(n: nat)
    ensures |Digits(n)| > 0
    ensures Digits(n)[|Digits(n)| - 1] == '0' <==> n % 10 == 0
    ensures n >= 10 ==> Digits(n)[..|Digits(n)| - 1] == Digits(n / 10)
    ensures n < 10 ==> |Digits(n)| == 1
  {
    ZeroChar(n % 10);
    if n >= 10 {
      var rest := Digits(n / 10);
      hide DigitChar;
      assert Digits(n) == rest + [DigitChar(n % 10)];
      assert (rest + [DigitChar(n % 10)])[..|rest|] == rest;
    }
  }

  /** Different integers are written differently. */
  lemma SignedIsInjective(m: int, n: int)
    requires Signed(m) == Signed(n)
    ensures m == n
  {
    ReadsDigits(if m < 0 then -m else m);
    ReadsDigits(if n < 0 then -n else n);
    if m < 0 {
      assert Signed(m)[0] == '-';
      assert Signed(m)[1..] == Digits(-m);
    }
    if n < 0 {
      assert Signed(n)[0] == '-';
      assert Signed(n)[1..] == Digits(-n);
    }
  }
}
