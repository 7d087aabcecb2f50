/** Decimal digit strings: the character class `[0-9]`, `parseInt` on digit
    strings, zero-padded rendering of numbers, and the unanchored regular
    expression `/[0-9]{n}/`. */
module Decimal {

  predicate IsDigit(c: char) {
    '0' <= c <= '9'
  }

  predicate AllDigits(s: string) {
    forall i :: 0 <= i < |s| ==> IsDigit(s[i])
  }

  function DigitValue(c: char): (v: nat)
    requires IsDigit(c)
    ensures v < 10
  {
    c as int - '0' as int
  }

  function DigitChar(d: nat): (c: char)
    requires d < 10
    ensures IsDigit(c) && DigitValue(c) == d
  {
    ('0' as int + d) as char
  }

  function Pow10(n: nat): (p: nat)
    ensures p >= 1
  {
    if n == 0 then 1 else 10 * Pow10(n - 1)
  }

  /** `parseInt` applied to a string of decimal digits (leading zeros are
      ignored because they contribute nothing to the value). */
  function ParseDecimal(s: string): (n: nat)
    requires AllDigits(s)
    ensures n < Pow10(|s|)
  {
    if s == [] then 0 else ParseDecimal(s[..|s| - 1]) * 10 + DigitValue(s[|s| - 1])
  }

  /** The `width` lowest decimal digits of `n`, most significant first: for
      `n < Pow10(width)` this is `n` left-padded with zeros to `width` digits. */
  function Digits(n: nat, width: nat): (s: string)
    ensures |s| == width && AllDigits(s)
  {
    if width == 0 then "" else Digits(n / 10, width - 1) + [DigitChar(n % 10)]
  }

  /** The regular-expression test `/[0-9]{n}/.test(s)`: some window of `n`
      consecutive characters of `s` is all digits (the pattern is unanchored). */
  predicate HasDigitRun(s: string, n: nat) {
    exists i: nat | i <= |s| :: DigitRunAt(s, i, n)
  }

  /** The `n` characters of `s` from position `i` on are all digits. */
  predicate DigitRunAt(s: string, i: nat, n: nat) {
    i + n <= |s| && AllDigits(s[i..i + n])
  }

  /** A leading zero does not change the parsed value. */
  lemma {:induction false} LeadingZeroIgnored(s: string)
    requires AllDigits(s)
    ensures AllDigits("0" + s) && ParseDecimal("0" + s) == ParseDecimal(s)
  {
    if s != [] {
      var t := "0" + s;
      assert t[..|t| - 1] == "0" + s[..|s| - 1];
      LeadingZeroIgnored(s[..|s| - 1]);
    } else {
      assert ("0" + s)[..0] == [];
    }
  }

  /** Zero-padded rendering is undone by parsing. */
  lemma {:induction false} ParseDigits(n: nat, width: nat)
    requires n < Pow10(width)
    ensures ParseDecimal(Digits(n, width)) == n
  {
    if width > 0 {
      var s := Digits(n, width);
      assert s[..|s| - 1] == Digits(n / 10, width - 1);
      ParseDigits(n / 10, width - 1);
    }
  }

  /** Parsing a digit string and padding it back to its own width restores it. */
  lemma {:induction false} DigitsOfParse(s: string)
    requires AllDigits(s)
    ensures Digits(ParseDecimal(s), |s|) == s
  {
    if s != [] {
      var init, last := s[..|s| - 1], s[|s| - 1];
      var n := ParseDecimal(s);
      assert n / 10 == ParseDecimal(init) && n % 10 == DigitValue(last);
      DigitsOfParse(init);
      assert s == init + [last];
    }
  }

  /** When the string is exactly as long as the run, the unanchored test says
      that every character is a digit. */
  lemma DigitRunOfFullLength(s: string)
    ensures HasDigitRun(s, |s|) <==> AllDigits(s)
  {
    if AllDigits(s) {
      assert s[0..|s|] == s;
      assert DigitRunAt(s, 0, |s|);
    }
    if HasDigitRun(s, |s|) {
      var i: nat :| i <= |s| && DigitRunAt(s, i, |s|);
      assert i + |s| <= |s|;
      assert s[i..i + |s|] == s;
    }
  }
}
