/**
  The pieces of string formatting the label needs: the decimal numeral that
  `sprintf`'s `%d` directive writes, the substitution of that numeral into a
  format string, and WordPress's `_n` plural selection as it behaves when no
  translation is loaded (the English default).
 */
module Format {

  predicate IsDigit(c: char) {
    '0' as int <= c as int <= '9' as int
  }

  function DigitChar(d: nat): (c: char)
    requires d < 10
    ensures IsDigit(c) && c as int - '0' as int == d
  {
    ('0' as int + d) as char
  }

  /** The decimal numeral of `n`, as `%d` prints a non-negative integer. */
  function Numeral(n: nat): (s: string)
    ensures |s| > 0
    ensures forall k :: 0 <= k < |s| ==> IsDigit(s[k])
    ensures s[0] == '0' <==> n == 0
    ensures n == 0 ==> s == "0"
    decreases n
  {
    if n < 10 then [DigitChar(n)] else Numeral(n / 10) + [DigitChar(n % 10)]
  }

  /** The value of a string of decimal digits. */
  function NumeralValue(s: string): nat
    requires forall k :: 0 <= k < |s| ==> IsDigit(s[k])
  {
    if s == [] then 0
    else
      var last := s[|s| - 1];
      assert IsDigit(last);
      10 * NumeralValue(s[..|s| - 1]) + (last as int - '0' as int)
  }

  /** Reading the numeral back gives the number. */
  lemma {:induction false} NumeralRoundTrip(n: nat)
    ensures NumeralValue(Numeral(n)) == n
    decreases n
  {
    if n >= 10 {
      var s := Numeral(n);
      NumeralRoundTrip(n / 10);
      assert s[..|s| - 1] == Numeral(n / 10);
    }
  }

  /** Different numbers have different numerals. */
  lemma NumeralInjective(m: nat, n: nat)
    requires Numeral(m) == Numeral(n)
    ensures m == n
  {
    NumeralRoundTrip(m);
    NumeralRoundTrip(n);
  }

  /** The format text holds no `%`, so no directive. */
  predicate NoDirective(t: string) {
    forall k :: 0 <= k < |t| ==> t[k] != '%'
  }

  /** `sprintf(fmt, n)` for a format whose only directive is `%d`: text
      without a directive is copied unchanged, and a leading `%d` becomes the
      numeral of `n`. */
  function FormatInt(fmt: string, n: nat): (r: string)
    ensures NoDirective(fmt) ==> r == fmt
    ensures |fmt| >= 2 && fmt[..2] == "%d" && NoDirective(fmt[2..]) ==> r == Numeral(n) + fmt[2..]
    decreases |fmt|
  {
    if fmt == [] then []
    else if |fmt| >= 2 && fmt[0] == '%' && fmt[1] == 'd' then Numeral(n) + FormatInt(fmt[2..], n)
    else
      assert NoDirective(fmt) ==> NoDirective(fmt[1..]);
      [fmt[0]] + FormatInt(fmt[1..], n)
  }

  /** `_n(single, plural, n)` with no translation loaded: the singular form
      exactly when `n` is 1. */
  function PluralForm(single: string, plural: string, n: int): string {
    if n == 1 then single else plural
  }
}
