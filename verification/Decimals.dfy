/** Strings of decimal digits and what they are worth. */
module Decimals {
  predicate IsDigit(c: char) { '0' <= c <= '9' }

  predicate IsDigits(s: string) {
    forall k :: 0 <= k < |s| ==> IsDigit(s[k])
  }

  predicate IsNumber(s: string) { s != "" && IsDigits(s) }

  function Pow10(n: nat): nat {
    if n == 0 then 1 else 10 * Pow10(n - 1)
  }

  function DigitValue(c: char): nat
    requires IsDigit(c)
  {
    (c - '0') as nat
  }

  function Decimal(s: string): nat
    requires IsDigits(s)
  {
    if s == "" then 0 else DigitValue(s[0]) * Pow10(|s| - 1) + Decimal(s[1..])
  }

  // ---- their laws ----

  lemma {:induction false} PowPositive(n: nat, m: nat)
    requires n <= m
    ensures 1 <= Pow10(n) <= Pow10(m)
    decreases m
  {
    if n < m {
      PowPositive(n, m - 1);
    } else if 0 < n {
      PowPositive(n - 1, n - 1);
    }
  }

  lemma DigitTimes(d: nat, e: nat, p: nat)
    requires d < e
    ensures d * p + p <= e * p
  {
    assert (d + 1) * p <= e * p;
  }

  lemma {:induction false} DecimalBound(s: string)
    requires IsDigits(s)
    ensures Decimal(s) < Pow10(|s|)
    ensures s != "" && s[0] != '0' ==> Pow10(|s| - 1) <= Decimal(s)
  {
    if s != "" {
      DecimalBound(s[1..]);
      DigitTimes(DigitValue(s[0]), 10, Pow10(|s| - 1));
      if s[0] != '0' {
        DigitTimes(0, DigitValue(s[0]), Pow10(|s| - 1));
      }
    }
  }

  lemma LeadingZero(s: string)
    requires IsDigits(s) && s != "" && s[0] == '0'
    ensures Decimal(s) == Decimal(s[1..])
  {
    assert DigitValue(s[0]) * Pow10(|s| - 1) == 0;
  }

  /** One more digit at the end. */
  lemma {:induction false} DecimalMore(s: string, c: char)
    requires IsDigits(s) && IsDigit(c)
    ensures IsDigits(s + [c]) && Decimal(s + [c]) == 10 * Decimal(s) + DigitValue(c)
  {
    var t := s + [c];
    if s == "" {
      assert t == [c] && t[1..] == "";
    } else {
      assert t[1..] == s[1..] + [c];
      DecimalMore(s[1..], c);
      TenTimes(DigitValue(s[0]), Pow10(|s| - 1));
    }
  }

  lemma TenTimes(d: nat, p: nat)
    ensures d * (10 * p) == 10 * (d * p)
  {
  }

  lemma {:induction false} DecimalPrefix(s: string, k: nat)
    requires IsDigits(s) && k <= |s|
    ensures Decimal(s[..k]) <= Decimal(s)
  {
    if k == |s| {
      assert s[..k] == s;
    } else {
      var init := s[..|s| - 1];
      assert s == init + [s[|s| - 1]] && init[..k] == s[..k];
      DecimalMore(init, s[|s| - 1]);
      DecimalPrefix(init, k);
    }
  }

  /** A number that opens with k nines is all but the largest of its length. */
  lemma {:induction false} NinesValue(s: string, k: nat)
    requires IsDigits(s) && k <= |s| && forall i :: 0 <= i < k ==> s[i] == '9'
    ensures Pow10(|s|) - Pow10(|s| - k) <= Decimal(s)
  {
    if 0 < k {
      NinesValue(s[1..], k - 1);
    }
  }

  lemma Powers()
    ensures Pow10(1) == 10 && Pow10(18) == 1_000_000_000_000_000_000 && Pow10(19) == 10_000_000_000_000_000_000
  {
    assert Pow10(4) == 10_000;
    assert Pow10(8) == 100_000_000;
    assert Pow10(12) == 1_000_000_000_000;
    assert Pow10(16) == 10_000_000_000_000_000;
  }
}
