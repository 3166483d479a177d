/**
 * Properties of the printer's number text: a number prints in a form the
 * lexer reads back to the same value, with ".0" exactly when it is integral
 * and with no trailing zero otherwise, and a negative number prints as its
 * magnitude after a minus sign.
 */
module PrinterNumbers {
  import opened Options
  import opened Decimal
  import opened AstPrinter

  lemma BelowScale(f: real, p: nat)
    requires 0.0 <= f < 1.0 && p >= 1
    ensures 0 <= (f * p as real).Floor < p
  {
    var pr := p as real;
    ProductBelow(f, pr);
    var x := f * pr;
    assert x.Floor as real <= x < pr;
  }

  lemma ProductBelow(f: real, pr: real)
    requires 0.0 <= f < 1.0 && pr >= 1.0
    ensures 0.0 <= f * pr < pr
  {
    assert pr - f * pr == (1.0 - f) * pr;
    assert (1.0 - f) * pr > 0.0;
  }

  /** The `k` digits of a fraction below 1 are a number below `10^k`. */
  lemma ScaledBelow(f: real, k: nat)
    requires 0.0 <= f < 1.0
    ensures 0 <= Scaled(f, k) < Pow10(k)
  {
    BelowScale(f, Pow10(k));
  }

  lemma DivideBack(x: real, f: real, p: real)
    requires p >= 1.0 && x == f * p
    ensures x / p == f
  {
  }

  /** A fraction exact in `k` places is its `k` digits over `10^k`. */
  lemma ScaledBack(f: real, k: nat)
    requires ExactIn(f, k)
    ensures Scaled(f, k) as real / Pow10(k) as real == f
  {
    DivideBack(Scaled(f, k) as real, f, Pow10(k) as real);
  }

  /** Moving the point one more place multiplies by ten. */
  lemma ShiftStep(f: real, k: nat)
    requires k >= 1
    ensures Shift(f, k) == 10.0 * Shift(f, k - 1)
  {
    var p := Pow10(k - 1);
    assert Pow10(k) == 10 * p;
    assert (10 * p) as real == 10.0 * p as real;
  }

  /** The non-integral branch of UnsignedText, with its parts named. */
  lemma FractionText(a: real) returns (k: nat, m: nat)
    requires 0.0 <= a && !IsIntegral(a) && UnsignedText(a).Some?
    ensures 1 <= k <= MaxFractionDigits && FractionDigits(Fraction(a), 1) == Some(k)
    ensures ExactIn(Fraction(a), k) && m == Scaled(Fraction(a), k) && m < Pow10(k)
    ensures UnsignedText(a).value == IntText(a.Floor) + "." + PadDigits(m, k)
  {
    var f := Fraction(a);
    k := FractionDigits(f, 1).value;
    ScaledBelow(f, k);
    m := Scaled(f, k);
  }

  /** The text of an integral number reads back as that number. */
  lemma IntegralReadsBack(w: nat)
    ensures NumberLiteral(IntText(w) + ".0") == w as real
  {
    assert FractionValue("0") == 0.0 by {
      assert "0"[..0] == [];
      assert DigitsValue("0") == 0;
    }
    calc {
      NumberLiteral(IntText(w) + ".0");
      { assert IntText(w) + ".0" == IntText(w) + "." + "0"; }
      NumberLiteral(IntText(w) + "." + "0");
      { NumberLiteralOfParts(IntText(w), "0"); }
      DigitsValue(IntText(w)) as real + FractionValue("0");
      { IntTextValue(w); }
      w as real;
    }
  }

  /** The text of a whole part and `k` exact fraction digits reads back as their sum. */
  lemma FractionReadsBack(w: nat, f: real, k: nat, m: nat)
    requires ExactIn(f, k) && m == Scaled(f, k) && m < Pow10(k)
    ensures NumberLiteral(IntText(w) + "." + PadDigits(m, k)) == w as real + f
  {
    var digits := PadDigits(m, k);
    IntTextValue(w);
    PadDigitsValue(m, k);
    NumberLiteralOfParts(IntText(w), digits);
    ScaledBack(f, k);
  }

  /**
   * A non-negative number prints as a lexeme that the lexer's number
   * conversion reads back to the same number.
   */
  lemma PrintedNumberReadsBack(n: real)
    requires 0.0 <= n && PrintAsFloat(n).Some?
    ensures NumberLiteral(PrintAsFloat(n).value) == n
  {
    if IsIntegral(n) {
      IntegralReadsBack(n.Floor);
    } else {
      var k, m := FractionText(n);
      FractionReadsBack(n.Floor, Fraction(n), k, m);
    }
  }

  /** A negative number prints as its magnitude with a minus sign in front. */
  lemma NegativeNumberSign(n: real)
    requires n < 0.0
    ensures PrintAsFloat(n).Some? <==> PrintAsFloat(-n).Some?
    ensures PrintAsFloat(n).Some? ==> PrintAsFloat(n).value == "-" + PrintAsFloat(-n).value
  {
  }

  /**
   * The printed digits end in ".0" exactly when the number is integral: a
   * fraction prints in its shortest form, without a trailing zero.
   */
  lemma PrintedPointZeroIffIntegral(n: real)
    requires 0.0 <= n && PrintAsFloat(n).Some?
    ensures var t := PrintAsFloat(n).value;
      |t| >= 3 && (IsIntegral(n) <==> t[|t| - 2..] == ".0")
  {
    var t := PrintAsFloat(n).value;
    if !IsIntegral(n) {
      var k, m := FractionText(n);
      assert t[|t| - 1] == DigitChar(m % 10);
      if m % 10 == 0 {
        TrailingZeroIsNotShortest(Fraction(n), k);
      }
      assert t[|t| - 2..][1] == t[|t| - 1];
    }
  }

  /** A fraction written with a trailing zero is exact one place earlier. */
  lemma TrailingZeroIsNotShortest(f: real, k: nat)
    requires 0.0 < f < 1.0 && 1 <= k && ExactIn(f, k) && Scaled(f, k) % 10 == 0
    ensures 2 <= k && ExactIn(f, k - 1)
  {
    ShiftStep(f, k);
    if k == 1 {
      assert false;
    }
    DropTrailingZero(Shift(f, k - 1));
  }

  /** Ten times `x` is a whole number ending in zero only where `x` is whole. */
  lemma DropTrailingZero(x: real)
    requires IsIntegral(10.0 * x) && (10.0 * x).Floor % 10 == 0
    ensures IsIntegral(x)
  {
    var q := (10.0 * x).Floor / 10;
    assert (10.0 * x).Floor == 10 * q;
    assert x == q as real;
  }

  /** A whole number below 10^21 prints with ".0". */
  lemma WholeNumberText(x: real, w: nat)
    requires x == w as real && x < ExponentFrom
    ensures PrintAsFloat(x) == Some(IntText(w) + ".0")
  {
    assert IsIntegral(x) && x.Floor == w;
  }

  /** A fraction prints in its shortest form. */
  lemma PrintsTwoAndAHalf()
    ensures PrintAsFloat(2.5) == Some("2.5")
  {
    assert !IsIntegral(2.5) && (2.5).Floor == 2 && Fraction(2.5) == 0.5;
    assert Shift(0.5, 1) == 5.0;
    assert FractionDigits(0.5, 1) == Some(1) && Scaled(0.5, 1) == 5;
    assert IntText(2) == "2" && PadDigits(5, 1) == "5";
    assert "2" + "." + "5" == "2.5";
  }

  /** A negative fraction prints its magnitude after a minus sign, in two places here. */
  lemma PrintsNegativeQuarter()
    ensures PrintAsFloat(-0.25) == Some("-0.25")
  {
    assert !IsIntegral(0.25) && (0.25).Floor == 0 && Fraction(0.25) == 0.25;
    assert Shift(0.25, 1) == 2.5 && Shift(0.25, 2) == 25.0;
    assert FractionDigits(0.25, 1) == Some(2) && Scaled(0.25, 2) == 25;
    assert IntText(0) == "0" && PadDigits(25, 2) == "25";
    assert "-" + ("0" + "." + "25") == "-0.25";
  }

  lemma PrintsNegativeSeven()
    ensures PrintAsFloat(-7.0) == Some("-7.0")
  {
    WholeNumberText(7.0, 7);
    assert IntText(7) + ".0" == "7.0";
    assert "-" + "7.0" == "-7.0";
  }
}
