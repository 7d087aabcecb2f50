/** The CLABE check digit (`calcCheckSum` in clabe.js): cyclic weights 3, 7, 1
    over the first 17 digits, each product reduced modulo 10, and the digit
    that brings the sum up to a multiple of ten. */
module Checksum {
  import opened Decimal

  /** The weight of position `i`: `weights[i % 3]` with `weights = [3, 7, 1]`. */
  function Weight(i: nat): (w: nat)
    ensures w == 1 || w == 3 || w == 7
  {
    [3, 7, 1][i % 3]
  }

  /** The contribution of digit `c` at position `i`. */
  function Term(c: char, i: nat): (t: nat)
    requires IsDigit(c)
    ensures t < 10
  {
    (DigitValue(c) * Weight(i)) % 10
  }

  /** The accumulated `sum` after visiting every character of `s` in order. */
  function WeightedSum(s: string): (sum: nat)
    requires AllDigits(s)
    ensures sum <= 9 * |s|
  {
    if s == [] then 0 else WeightedSum(s[..|s| - 1]) + Term(s[|s| - 1], |s| - 1)
  }

  lemma WeightPeriodic(i: nat, k: nat)
    ensures Weight(i + 3 * k) == Weight(i)
  {
  }

  /** The weights repeat every three positions, so the sum splits at any
      boundary that is a multiple of three (such as the field boundaries 3
      and 6 of a CLABE number). */
  lemma {:induction false} WeightedSumConcat(a: string, b: string)
    requires AllDigits(a) && AllDigits(b) && |a| % 3 == 0
    ensures AllDigits(a + b) && WeightedSum(a + b) == WeightedSum(a) + WeightedSum(b)
  {
    var ab := a + b;
    if b == [] {
      assert ab == a;
    } else {
      var n, m := |ab|, |b|;
      var init := b[..m - 1];
      assert ab[..n - 1] == a + init;
      WeightedSumConcat(a, init);
      assert ab[n - 1] == b[m - 1];
      WeightPeriodic(m - 1, |a| / 3);
      assert n - 1 == m - 1 + 3 * (|a| / 3);
      assert WeightedSum(ab) == WeightedSum(a + init) + Term(b[m - 1], m - 1);
      assert WeightedSum(b) == WeightedSum(init) + Term(b[m - 1], m - 1);
    }
  }

  /** The sum of the first 17 digits splits into the sums of the bank code,
      the city code and the account number. */
  lemma FieldSums(s: string)
    requires |s| >= 17 && AllDigits(Head17(s))
    ensures WeightedSum(Head17(s)) == WeightedSum(s[..3]) + WeightedSum(s[3..6]) + WeightedSum(s[6..17])
  {
    var h := Head17(s);
    assert h == s[..17];
    assert h[..6] == s[..3] + s[3..6];
    WeightedSumConcat(s[..3], s[3..6]);
    assert h == h[..6] + s[6..17];
    WeightedSumConcat(h[..6], s[6..17]);
  }

  /** One more character adds its term to the sum. */
  lemma WeightedSumStep(s: string, k: nat)
    requires AllDigits(s) && k < |s|
    ensures WeightedSum(s[..k + 1]) == WeightedSum(s[..k]) + Term(s[k], k)
  {
    assert s[..k + 1][..k] == s[..k];
  }

  /** The sum of 17 digits written out term by term, as the loop of
      `calcCheckSum` adds them up. */
  lemma WeightedSum17(s: string)
    requires |s| == 17 && AllDigits(s)
    ensures WeightedSum(s)
              == DigitValue(s[0]) * 3 % 10 + DigitValue(s[1]) * 7 % 10 + DigitValue(s[2]) * 1 % 10
              + DigitValue(s[3]) * 3 % 10 + DigitValue(s[4]) * 7 % 10 + DigitValue(s[5]) * 1 % 10
              + DigitValue(s[6]) * 3 % 10 + DigitValue(s[7]) * 7 % 10 + DigitValue(s[8]) * 1 % 10
              + DigitValue(s[9]) * 3 % 10 + DigitValue(s[10]) * 7 % 10 + DigitValue(s[11]) * 1 % 10
              + DigitValue(s[12]) * 3 % 10 + DigitValue(s[13]) * 7 % 10 + DigitValue(s[14]) * 1 % 10
              + DigitValue(s[15]) * 3 % 10 + DigitValue(s[16]) * 7 % 10
  {
    assert s[..0] == [];
    WeightedSumStep(s, 0);
    WeightedSumStep(s, 1);
    WeightedSumStep(s, 2);
    WeightedSumStep(s, 3);
    WeightedSumStep(s, 4);
    WeightedSumStep(s, 5);
    WeightedSumStep(s, 6);
    WeightedSumStep(s, 7);
    WeightedSumStep(s, 8);
    WeightedSumStep(s, 9);
    WeightedSumStep(s, 10);
    WeightedSumStep(s, 11);
    WeightedSumStep(s, 12);
    WeightedSumStep(s, 13);
    WeightedSumStep(s, 14);
    WeightedSumStep(s, 15);
    WeightedSumStep(s, 16);
    assert s[..17] == s;
  }

  /** The characters the checksum reads: `split('').slice(0, 17)`. */
  function Head17(s: string): (h: string)
    ensures |h| <= 17 && h <= s
  {
    if |s| <= 17 then s else s[..17]
  }

  /** The check digit for `s`: `(10 - sum % 10) % 10`. */
  function CheckDigit(s: string): (d: nat)
    requires AllDigits(Head17(s))
    ensures d < 10
  {
    (10 - WeightedSum(Head17(s)) % 10) % 10
  }

  /** The plain weighted sum, without reducing each product: an independent
      reference for what the check digit protects. */
  function RawSum(s: string): nat
    requires AllDigits(s)
  {
    if s == [] then 0 else RawSum(s[..|s| - 1]) + DigitValue(s[|s| - 1]) * Weight(|s| - 1)
  }

  /** The loop of `calcCheckSum`, accumulating one term per character. */
  method CalcCheckSum(s: string) returns (check: nat)
    requires AllDigits(Head17(s))
    ensures check == CheckDigit(s)
  {
    var digits := Head17(s);
    var sum := 0;
    var i := 0;
    while i < |digits|
      invariant 0 <= i <= |digits|
      invariant sum == WeightedSum(digits[..i])
    {
      assert digits[..i + 1][..i] == digits[..i];
      sum := sum + (DigitValue(digits[i]) * Weight(i)) % 10;
      i := i + 1;
    }
    assert digits[..i] == digits;
    check := (10 - sum % 10) % 10;
  }

  /** The check digit is a digit, and it is the only digit that brings the
      weighted sum of the first 17 characters to a multiple of ten; a sum that
      is already a multiple of ten gives 0, never 10. */
  lemma CheckDigitCompletesSum(s: string, d: nat)
    requires AllDigits(Head17(s)) && d <= 9
    ensures 0 <= CheckDigit(s) <= 9
    ensures (WeightedSum(Head17(s)) + d) % 10 == 0 <==> d == CheckDigit(s)
    ensures WeightedSum(Head17(s)) % 10 == 0 ==> CheckDigit(s) == 0
  {
  }

  lemma ModAddReduced(a: int, b: int, p: int)
    requires a % 10 == b % 10
    ensures (a + p % 10) % 10 == (b + p) % 10
  {
  }

  /** Two sums that differ by a nonzero amount below ten call for different
      check digits. */
  lemma CheckDigitSeparates(a: int, b: int)
    requires a != b && -10 < a - b < 10
    ensures (10 - a % 10) % 10 != (10 - b % 10) % 10
  {
  }

  /** Reducing each product modulo 10 does not change the sum modulo 10, so
      the check digit completes the plain weighted sum as well. */
  lemma {:induction false} ReducedSumAgrees(s: string)
    requires AllDigits(s)
    ensures WeightedSum(s) % 10 == RawSum(s) % 10
  {
    if s != [] {
      var init, last := s[..|s| - 1], s[|s| - 1];
      ReducedSumAgrees(init);
      var p := DigitValue(last) * Weight(|s| - 1);
      assert WeightedSum(s) == WeightedSum(init) + p % 10;
      assert RawSum(s) == RawSum(init) + p;
      ModAddReduced(WeightedSum(init), RawSum(init), p);
    }
  }

  /** The check digit completes the plain weighted sum of the first 17 digits. */
  lemma CheckDigitCompletesRawSum(s: string)
    requires AllDigits(Head17(s))
    ensures (RawSum(Head17(s)) + CheckDigit(s)) % 10 == 0
  {
    ReducedSumAgrees(Head17(s));
  }

  /** Characters after the seventeenth never influence the check digit. */
  lemma ReadsOnlyFirst17(s: string, t: string)
    requires |s| >= 17 && |t| >= 17 && s[..17] == t[..17]
    requires AllDigits(Head17(s))
    ensures AllDigits(Head17(t)) && CheckDigit(s) == CheckDigit(t)
  {
    assert Head17(s) == s[..17] == Head17(t);
  }

  /** The weights are invertible modulo 10 (3 * 7 = 21), so a term
      determines its digit. */
  lemma TermDeterminesDigit(x: nat, w: nat)
    requires x < 10 && (w == 1 || w == 3 || w == 7)
    ensures x == ((x * w) % 10 * (if w == 3 then 7 else if w == 7 then 3 else 1)) % 10
  {
  }

  /** For every weight, distinct digits give distinct terms. */
  lemma TermInjective(c: char, e: char, i: nat)
    requires IsDigit(c) && IsDigit(e) && c != e
    ensures Term(c, i) != Term(e, i)
  {
  }

  /** Two digit strings that differ in one position differ in weighted sum by
      exactly the difference of the two terms at that position. */
  lemma {:induction false} SumDifference(s: string, t: string, k: nat)
    requires |s| == |t| && AllDigits(s) && AllDigits(t) && k < |s|
    requires forall i :: 0 <= i < |s| && i != k ==> s[i] == t[i]
    ensures WeightedSum(s) - WeightedSum(t) == Term(s[k], k) - Term(t[k], k)
  {
    var n := |s|;
    if k == n - 1 {
      assert s[..n - 1] == t[..n - 1];
    } else {
      SumDifference(s[..n - 1], t[..n - 1], k);
    }
  }

  /** Changing any one of the first 17 digits changes the check digit: every
      single-digit transcription error is caught. */
  lemma SingleDigitErrorDetected(s: string, t: string, k: nat)
    requires |s| == |t| == 17 && AllDigits(s) && AllDigits(t) && k < 17
    requires s[k] != t[k]
    requires forall i :: 0 <= i < 17 && i != k ==> s[i] == t[i]
    ensures CheckDigit(s) != CheckDigit(t)
  {
    SumDifference(s, t, k);
    TermInjective(s[k], t[k], k);
    assert Head17(s) == s && Head17(t) == t;
    CheckDigitSeparates(WeightedSum(s), WeightedSum(t));
  }
}
