/**
 * Decimal digits: the lexer folds them into a number, and the token and AST
 * printers write numbers back with `%.5f`. Number literals are whole, so the
 * model keeps them as `nat` and renders `%.5f` as the decimal digits followed
 * by ".00000".
 */
module Literals {

  /** `isdigit` in the C locale. */
  predicate IsDigit(c: char) {
    '0' <= c <= '9'
  }

  predicate AllDigits(s: string) {
    forall k :: 0 <= k < |s| ==> IsDigit(s[k])
  }

  function DigitValue(c: char): (d: nat)
    requires IsDigit(c)
    ensures d < 10
  {
    (c as int - '0' as int) as nat
  }

  function DigitChar(d: nat): (c: char)
    requires d < 10
    ensures IsDigit(c) && DigitValue(c) == d
  {
    ('0' as int + d) as char
  }

  /** The left fold `n = n * 10 + digit` of a run of digits. */
  function DigitsValue(s: string): nat
    requires AllDigits(s)
  {
    if s == [] then 0
    else DigitsValue(s[..|s| - 1]) * 10 + DigitValue(s[|s| - 1])
  }

  /** The decimal notation of `n`, without leading zeros. */
  function NatToString(n: nat): (s: string)
    ensures |s| >= 1 && AllDigits(s)
    ensures s[0] == '0' ==> n == 0
    ensures DigitsValue(s) == n
    decreases n
  {
    if n < 10 then [DigitChar(n)]
    else
      var s := NatToString(n / 10) + [DigitChar(n % 10)];
      assert s[..|s| - 1] == NatToString(n / 10);
      s
  }

  /** `%.5f` applied to the whole number `n`. */
  function FormatFixed5(n: nat): string {
    NatToString(n) + ".00000"
  }

  /** Different whole numbers print differently. */
  lemma NatToStringInjective(m: nat, n: nat)
    ensures NatToString(m) == NatToString(n) ==> m == n
  {
  }

  lemma FormatFixed5Injective(m: nat, n: nat)
    ensures FormatFixed5(m) == FormatFixed5(n) ==> m == n
  {
    if FormatFixed5(m) == FormatFixed5(n) {
      assert NatToString(m) == FormatFixed5(m)[..|FormatFixed5(m)| - 6];
      assert NatToString(n) == FormatFixed5(n)[..|FormatFixed5(n)| - 6];
      NatToStringInjective(m, n);
    }
  }
}
