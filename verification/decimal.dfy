/** Decimal rendering and reading of natural numbers: what JavaScript's
    `Number.prototype.toString()` produces for a non-negative integer, and
    the digit-only strings the bet input admits. */
module Decimal {

  predicate IsDigit(c: char) {
    '0' <= c <= '9'
  }

  /** Every character is an ASCII decimal digit (the regular expression
      `^\d+$` without its non-emptiness). */
  predicate AllDigits(s: string) {
    forall i :: 0 <= i < |s| ==> IsDigit(s[i])
  }

  function DigitChar(d: nat): (c: char)
    requires d < 10
    ensures IsDigit(c) && c as int - '0' as int == d
  {
    ('0' as int + d) as char
  }

  function DigitValue(c: char): (d: nat)
    requires IsDigit(c)
    ensures d < 10 && DigitChar(d) == c
  {
    c as int - '0' as int
  }

  /** The shortest decimal numeral of `n`. */
  function Show(n: nat): (s: string)
    ensures |s| >= 1 && AllDigits(s)
    ensures s[0] == '0' <==> n == 0
    decreases n
  {
    if n < 10 then [DigitChar(n)] else Show(n / 10) + [DigitChar(n % 10)]
  }

  /** The value of a numeral (the empty numeral reads as 0). */
  function Parse(s: string): (n: nat)
    requires AllDigits(s)
    decreases |s|
  {
    if |s| == 0 then 0 else Parse(s[..|s| - 1]) * 10 + DigitValue(s[|s| - 1])
  }

  /** Reading a rendered number gives the number back. */
  lemma {:induction false} ParseShow(n: nat)
    ensures Parse(Show(n)) == n
    decreases n
  {
    var s := Show(n);
    if n >= 10 {
      ParseShow(n / 10);
      assert s[..|s| - 1] == Show(n / 10);
    }
  }

  /** Rendering is injective: different numbers print differently. */
  lemma ShowInjective(m: nat, n: nat)
    requires Show(m) == Show(n)
    ensures m == n
  {
    ParseShow(m);
    ParseShow(n);
  }

  /** Two-digit zero padding (`toString().padStart(2, '0')`) of a number
      below 100. */
  function PadTwo(n: nat): (s: string)
    requires n < 100
    ensures |s| == 2 && AllDigits(s) && Parse(s) == n
  {
    ParseShow(n);
    if n < 10 then
      assert Parse("0" + Show(n)) == n by {
        assert ("0" + Show(n))[..1] == "0";
      }
      "0" + Show(n)
    else
      assert |Show(n / 10)| == 1;
      Show(n)
  }
}
