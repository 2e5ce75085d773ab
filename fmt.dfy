/**
 * Decimal rendering of an unsigned integer, as Rust's `{}` formats a `usize`:
 * ASCII digits, most significant first, no sign and no leading zeros.
 */
module Fmt {

  predicate IsDigit(c: char) {
    '0' <= c <= '9'
  }

  function DigitChar(d: nat): (c: char)
    requires d < 10
    ensures IsDigit(c) && c as int - '0' as int == d
  {
    (d + '0' as int) as char
  }

  function DigitValue(c: char): (d: nat)
    requires IsDigit(c)
    ensures d < 10 && DigitChar(d) == c
  {
    c as int - '0' as int
  }

  predicate AllDigits(s: string) {
    forall i :: 0 <= i < |s| ==> IsDigit(s[i])
  }

  /** A canonical decimal numeral: non-empty, digits only, no leading zero except "0" itself. */
  predicate IsCanonicalDecimal(s: string) {
    |s| > 0 && AllDigits(s) && (s[0] == '0' ==> |s| == 1)
  }

  /** The numeral of `n`; it is canonical and starts with '0' exactly when `n` is zero. */
  function ShowNat(n: nat): (s: string)
    ensures IsCanonicalDecimal(s)
    ensures s[0] == '0' <==> n == 0
    ensures |s| == 1 <==> n < 10
    decreases n
  {
    if n < 10 then [DigitChar(n)] else ShowNat(n / 10) + [DigitChar(n % 10)]
  }

  /** The value a string of digits denotes in base ten. */
  function ParseDecimal(s: string): nat
    requires AllDigits(s)
    decreases |s|
  {
    if s == [] then 0
    else
      var init := s[..|s| - 1];
      10 * ParseDecimal(init) + DigitValue(s[|s| - 1])
  }

  /** Reading back a rendered numeral gives the number. */
  lemma {:induction false} ParseShowNat(n: nat)
    ensures ParseDecimal(ShowNat(n)) == n
    decreases n
  {
    var s := ShowNat(n);
    if n < 10 {
      assert s[..|s| - 1] == [];
    } else {
      assert s[..|s| - 1] == ShowNat(n / 10);
      ParseShowNat(n / 10);
    }
  }

  /** Every canonical numeral is the rendering of the number it denotes. */
  lemma {:induction false} ShowParseDecimal(s: string)
    requires IsCanonicalDecimal(s)
    ensures ShowNat(ParseDecimal(s)) == s
    decreases |s|
  {
    var init := s[..|s| - 1];
    assert AllDigits(init) by {
      forall i | 0 <= i < |init| ensures IsDigit(init[i]) { assert init[i] == s[i]; }
    }
    if |s| == 1 {
      assert init == [];
    } else {
      assert IsCanonicalDecimal(init);
      ShowParseDecimal(init);
      var m := ParseDecimal(init);
      var d := DigitValue(s[|s| - 1]);
      assert m != 0;
      assert (10 * m + d) / 10 == m && (10 * m + d) % 10 == d;
      assert s == init + [s[|s| - 1]];
    }
  }

  /** Distinct numbers have distinct renderings. */
  lemma ShowNatInjective(m: nat, n: nat)
    ensures ShowNat(m) == ShowNat(n) <==> m == n
  {
    ParseShowNat(m);
    ParseShowNat(n);
  }
}
