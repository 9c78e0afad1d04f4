/** Character classes of src/utils.rs and the decimal text the scanner and
    `Display` deal in. */
module Chars {

  const Digits: string := "0123456789"
  const Lower: string := "abcdefghijklmnopqrstuvwxyz"
  const Upper: string := "ABCDEFGHIJKLMNOPQRSTUVWXYZ"

  /** `is_digit`: an ASCII decimal digit. */
  predicate IsDigit(c: char) {
    '0' <= c <= '9'
  }

  /** `is_alpha`: an ASCII letter or the underscore. */
  function IsAlpha(c: char): (r: bool)
    ensures r ==> !IsDigit(c)
  {
    ('a' <= c <= 'z') || ('A' <= c <= 'Z') || c == '_'
  }

  /** `is_alpha_numeric`: the characters an identifier may continue with. */
  predicate IsAlphaNumeric(c: char) {
    IsDigit(c) || IsAlpha(c)
  }

  /** The three classes are exactly the ten digits, the fifty-two ASCII
      letters with `_`, and their union. */
  lemma CharClassTables(c: char)
    ensures IsDigit(c) <==> c in Digits
    ensures IsAlpha(c) <==> c in Lower || c in Upper || c == '_'
    ensures IsAlphaNumeric(c) <==> c in Digits || c in Lower || c in Upper || c == '_'
  {
  }

  predicate AllDigits(s: string) {
    forall i :: 0 <= i < |s| ==> IsDigit(s[i])
  }

  function DigitValue(c: char): (d: nat)
    requires IsDigit(c)
    ensures d < 10
  {
    c as int - '0' as int
  }

  function DigitChar(d: nat): (c: char)
    requires d < 10
    ensures IsDigit(c) && DigitValue(c) == d
  {
    ('0' as int + d) as char
  }

  /** The value of a run of decimal digits, most significant first. */
  function DigitsValue(s: string): nat
    requires AllDigits(s)
  {
    if |s| == 0 then 0 else DigitsValue(s[..|s| - 1]) * 10 + DigitValue(s[|s| - 1])
  }

  function Pow10(k: nat): (p: nat)
    ensures p >= 1
  {
    if k == 0 then 1 else 10 * Pow10(k - 1)
  }

  /** The exact value of the decimal `whole.fraction` (`whole` alone when
      `fraction` is empty); stands in for Rust's `str::parse::<f64>`. */
  function DecimalValue(whole: string, fraction: string): real
    requires AllDigits(whole) && AllDigits(fraction)
  {
    DigitsValue(whole) as real + DigitsValue(fraction) as real / Pow10(|fraction|) as real
  }

  /** Rust's `{}` rendering of a non-negative integer: no sign, no leading zeros. */
  function NatToString(n: nat): (s: string)
    ensures |s| >= 1 && AllDigits(s)
    ensures |s| > 1 ==> s[0] != '0'
  {
    if n < 10 then [DigitChar(n)] else NatToString(n / 10) + [DigitChar(n % 10)]
  }

  /** Rust's `{}` rendering of an `i64`: a minus sign before negative values. */
  function IntToString(i: int): (s: string)
    ensures |s| >= 1
    ensures s[0] == '-' <==> i < 0
  {
    if i < 0 then "-" + NatToString(-i) else NatToString(i)
  }

  /** Reading back the digits `NatToString` writes gives the number again. */
  lemma {:induction false} NatToStringRoundTrip(n: nat)
    ensures DigitsValue(NatToString(n)) == n
  {
    if n >= 10 {
      var s := NatToString(n);
      assert s[..|s| - 1] == NatToString(n / 10);
      NatToStringRoundTrip(n / 10);
    }
  }

  /** Distinct numbers are written as distinct texts. */
  lemma NatToStringInjective(m: nat, n: nat)
    ensures NatToString(m) == NatToString(n) ==> m == n
  {
    if NatToString(m) == NatToString(n) {
      NatToStringRoundTrip(m);
      NatToStringRoundTrip(n);
    }
  }

  /** The number of times `c` occurs in `s` at offsets `from` up to, not
      including, `to`. */
  function CountIn(s: string, c: char, from: nat, to: nat): nat
    requires from <= to <= |s|
    decreases (to as int) - (from as int)
  {
    if from == to then 0 else (if s[from] == c then 1 else 0) + CountIn(s, c, from + 1, to)
  }

  /** The occurrences of `c` in the whole of `s`. */
  function Occurrences(s: string, c: char): nat {
    CountIn(s, c, 0, |s|)
  }

  /** Counts over adjacent ranges add up. */
  lemma {:induction false} CountInSplit(s: string, c: char, a: nat, b: nat, e: nat)
    requires a <= b <= e <= |s|
    ensures CountIn(s, c, a, e) == CountIn(s, c, a, b) + CountIn(s, c, b, e)
    decreases (b as int) - (a as int)
  {
    if a < b {
      CountInSplit(s, c, a + 1, b, e);
    }
  }

  /** A range without `c` has no occurrence of it. */
  lemma {:induction false} CountInAbsent(s: string, c: char, a: nat, b: nat)
    requires a <= b <= |s|
    requires forall i :: a <= i < b ==> s[i] != c
    ensures CountIn(s, c, a, b) == 0
    decreases (b as int) - (a as int)
  {
    if a < b {
      CountInAbsent(s, c, a + 1, b);
    }
  }
}
