/** Unsigned decimal text: printing, reading, and the canonical form /^(?:0|[1-9][0-9]*)$/. */
module Decimals {

  function DigitChar(d: nat): char
    requires d < 10
  {
    ('0' as int + d) as char
  }

  predicate IsDigit(c: char) { '0' <= c <= '9' }

  function DigitValue(c: char): nat
    requires IsDigit(c)
  {
    c as int - '0' as int
  }

  predicate AllDigits(s: string) {
    forall i :: 0 <= i < |s| ==> IsDigit(s[i])
  }

  predicate Canonical(s: string) {
    |s| > 0 && AllDigits(s) && (|s| > 1 ==> s[0] != '0')
  }

  function ToDecimal(n: nat): (s: string)
    ensures Canonical(s)
    ensures n > 0 ==> s[0] != '0'
  {
    if n < 10 then [DigitChar(n)] else ToDecimal(n / 10) + [DigitChar(n % 10)]
  }

  function FromDecimal(s: string): nat
    requires AllDigits(s)
  {
    if s == "" then 0 else FromDecimal(s[..|s| - 1]) * 10 + DigitValue(s[|s| - 1])
  }

  function Pow10(k: nat): (p: nat)
    ensures p > 0
  {
    if k == 0 then 1 else 10 * Pow10(k - 1)
  }

  function Zeros(k: nat): (s: string)
    ensures |s| == k && AllDigits(s) && forall i :: 0 <= i < k ==> s[i] == '0'
  {
    seq(k, i => '0')
  }

  lemma {:induction false} FromToDecimal(n: nat)
    ensures FromDecimal(ToDecimal(n)) == n
  {
    if n < 10 {
      assert FromDecimal([DigitChar(n)]) == n;
    } else {
      FromToDecimal(n / 10);
      var s := ToDecimal(n);
      assert s[..|s| - 1] == ToDecimal(n / 10);
    }
  }

  lemma {:induction false} ToDecimalInjective(m: nat, n: nat)
    requires ToDecimal(m) == ToDecimal(n)
    ensures m == n
  {
    FromToDecimal(m);
    FromToDecimal(n);
  }

  lemma {:induction false} NonZeroIsPositive(s: string)
    requires AllDigits(s) && |s| > 0 && s[0] != '0'
    ensures FromDecimal(s) > 0
  {
    if |s| > 1 {
      NonZeroIsPositive(s[..|s| - 1]);
    }
  }

  lemma {:induction false} ToFromDecimal(s: string)
    requires Canonical(s)
    ensures ToDecimal(FromDecimal(s)) == s
  {
    var front, last := s[..|s| - 1], DigitValue(s[|s| - 1]);
    if |s| == 1 {
      assert front == "";
      assert FromDecimal(s) == last;
    } else {
      NonZeroIsPositive(front);
      ToFromDecimal(front);
      assert FromDecimal(s) / 10 == FromDecimal(front) && FromDecimal(s) % 10 == last;
      assert s == front + [s[|s| - 1]];
    }
  }

  lemma {:induction false} FromDecimalAppend(s: string, t: string)
    requires AllDigits(s) && AllDigits(t)
    ensures AllDigits(s + t)
    ensures FromDecimal(s + t) == FromDecimal(s) * Pow10(|t|) + FromDecimal(t)
  {
    if t == "" {
      assert s + t == s;
    } else {
      var front := t[..|t| - 1];
      FromDecimalAppend(s, front);
      assert (s + t)[..|s + t| - 1] == s + front;
      assert Pow10(|t|) == 10 * Pow10(|front|);
      MulShift(FromDecimal(s), Pow10(|front|));
    }
  }

  lemma {:induction false} MulShift(a: nat, p: nat)
    ensures a * p * 10 == a * (10 * p)
  {
  }

  lemma {:induction false} FromZeros(k: nat)
    ensures FromDecimal(Zeros(k)) == 0
  {
    if k > 0 {
      FromZeros(k - 1);
      assert Zeros(k)[..k - 1] == Zeros(k - 1);
    }
  }

  lemma {:induction false} FromDecimalBound(s: string)
    requires AllDigits(s)
    ensures FromDecimal(s) < Pow10(|s|)
  {
    if s != "" {
      FromDecimalBound(s[..|s| - 1]);
    }
  }

  /** The printed length of a number is fixed by the powers of ten around it. */
  lemma {:induction false} ToDecimalLength(n: nat, k: nat)
    requires k > 0
    ensures |ToDecimal(n)| <= k <==> n < Pow10(k)
  {
    if n < 10 {
      assert Pow10(k) >= 10;
    } else if k == 1 {
      assert Pow10(1) == 10;
    } else {
      ToDecimalLength(n / 10, k - 1);
      assert Pow10(k) == 10 * Pow10(k - 1);
    }
  }
}
