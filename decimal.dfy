/**
 * Decimal digit strings and their values: the lexer's conversion of a number
 * lexeme to its value and the printer's rendering of numbers both rest on these.
 */
module Decimal {
  import opened Strings

  predicate IsDigit(c: char) {
    '0' <= c <= '9'
  }

  predicate AllDigits(s: string) {
    forall i :: 0 <= i < |s| ==> IsDigit(s[i])
  }

  function DigitValue(c: char): int {
    c as int - '0' as int
  }

  function DigitChar(d: nat): (c: char)
    requires d < 10
    ensures IsDigit(c) && DigitValue(c) == d
  {
    ('0' as int + d) as char
  }

  function Pow10(k: nat): (r: nat)
    ensures r >= 1
  {
    if k == 0 then 1 else 10 * Pow10(k - 1)
  }

  /** The value of a digit string, most significant digit first. */
  function DigitsValue(s: string): int {
    if s == [] then 0 else DigitsValue(s[..|s| - 1]) * 10 + DigitValue(s[|s| - 1])
  }

  /** The shortest decimal text of a natural number. */
  function IntText(n: nat): (r: string)
    ensures |r| > 0 && AllDigits(r)
  {
    if n < 10 then [DigitChar(n)] else IntText(n / 10) + [DigitChar(n % 10)]
  }

  /** Exactly `k` digits of `m`, with leading zeros. */
  function PadDigits(m: nat, k: nat): (r: string)
    ensures |r| == k && AllDigits(r)
  {
    if k == 0 then [] else PadDigits(m / 10, k - 1) + [DigitChar(m % 10)]
  }

  /**
   * The value `parseFloat` gives a number lexeme of the lexer: the digits
   * before the first '.' plus the digits after it as a fraction. Exact, so
   * without the rounding of a double.
   */
  function NumberLiteral(lexeme: string): real {
    var k := IndexOf(lexeme, '.');
    DigitsValue(lexeme[..k]) as real
      + (if k < |lexeme| then FractionValue(lexeme[k + 1..]) else 0.0)
  }

  /** The value of the digits after a decimal point: the first one counts tenths. */
  function FractionValue(ds: string): real {
    DigitsValue(ds) as real / Pow10(|ds|) as real
  }

  lemma DigitsValueSnoc(s: string, c: char)
    ensures DigitsValue(s + [c]) == DigitsValue(s) * 10 + DigitValue(c)
  {
    assert (s + [c])[..|s|] == s;
  }

  /** Reading back the text of a natural number gives the number. */
  lemma {:induction false} IntTextValue(n: nat)
    ensures DigitsValue(IntText(n)) == n
  {
    if n < 10 {
      assert IntText(n)[..0] == [];
    } else {
      IntTextValue(n / 10);
      DigitsValueSnoc(IntText(n / 10), DigitChar(n % 10));
    }
  }

  /** Reading back `k` padded digits of a number below 10^k gives the number. */
  lemma {:induction false} PadDigitsValue(m: nat, k: nat)
    requires m < Pow10(k)
    ensures DigitsValue(PadDigits(m, k)) == m
  {
    if k == 0 {
    } else {
      PadDigitsValue(m / 10, k - 1);
      DigitsValueSnoc(PadDigits(m / 10, k - 1), DigitChar(m % 10));
    }
  }

  /** A lexeme `a.f` of digit strings reads as `a` plus `f` as a fraction. */
  lemma NumberLiteralOfParts(a: string, f: string)
    requires AllDigits(a) && AllDigits(f)
    ensures NumberLiteral(a + "." + f) == DigitsValue(a) as real + FractionValue(f)
  {
    var s := a + "." + f;
    DotIndexOfParts(a, f);
    assert s[..|a|] == a;
    assert s[|a| + 1..] == f;
  }

  /** A lexeme of digits only reads as its integer value. */
  lemma NumberLiteralOfDigits(a: string)
    requires AllDigits(a)
    ensures NumberLiteral(a) == DigitsValue(a) as real
  {
    assert forall m :: 0 <= m < |a| ==> a[m] != '.';
    assert a[..|a|] == a;
  }

  lemma DotIndexOfParts(a: string, f: string)
    requires AllDigits(a)
    ensures IndexOf(a + "." + f, '.') == |a|
  {
    var s := a + "." + f;
    assert s[|a|] == '.';
    assert forall i :: 0 <= i < |a| ==> s[i] == a[i];
  }
}
