/** The parts of Python's default decimal context that the import script can
    reach: the Overflow trap (exponent limit Emax) and `quantize` to two
    places with ROUND_HALF_UP, which fails when the result would need more
    digits than the context's precision. */
module DecimalContext {
  import opened Digits
  import opened Optional

  /** Significant digits of the default context. */
  const Precision: nat := 28
  /** Largest adjusted exponent of the default context. */
  const Emax: nat := 999999

  function Abs(x: real): real { if x < 0.0 then -x else x }

  /** y is at least 10 to the power n, stated by dividing by ten n times so
      that the power itself never has to be formed. */
  predicate AtLeastPow10(y: real, n: nat)
    decreases n
  {
    if n == 0 then y >= 1.0 else AtLeastPow10(y / 10.0, n - 1)
  }

  /** AtLeastPow10 is the comparison with the power of ten it names. */
  lemma {:induction false} AtLeastPow10Iff(y: real, n: nat)
    ensures AtLeastPow10(y, n) <==> y >= Pow10(n) as real
    decreases n
  {
    if n > 0 {
      AtLeastPow10Iff(y / 10.0, n - 1);
      assert Pow10(n) as real == 10.0 * Pow10(n - 1) as real;
    }
  }

  /** A value below a smaller power of ten is below every larger one. */
  lemma BelowPow10(y: real, n: nat, m: nat)
    requires m <= n && y < Pow10(m) as real
    ensures !AtLeastPow10(y, n)
  {
    Pow10AtLeast(n, m);
    AtLeastPow10Iff(y, n);
  }

  /** An arithmetic result whose magnitude reaches 10^(Emax+1) signals
      Overflow, which the default context traps, so the operation raises. */
  predicate Overflows(x: real) { AtLeastPow10(Abs(x), Emax + 1) }

  /** A whole number of hundredths: what `quantize(Decimal('1.00'))` yields. */
  predicate IsCents(q: real) { (q * 100.0).Floor as real == q * 100.0 }

  /** Rounding to two places, ROUND_HALF_UP: to the nearest hundredth, and on
      an exact tie away from zero. */
  function RoundHalfUpCents(x: real): (q: real)
    ensures x < 0.0 ==> q <= 0.0
    ensures x >= 0.0 ==> q >= 0.0
  {
    if x < 0.0 then -HalfUp(-x * 100.0) as real / 100.0 else HalfUp(x * 100.0) as real / 100.0
  }

  /** The integer nearest to a non-negative y, halves going up. */
  function HalfUp(y: real): (n: int)
    requires y >= 0.0
    ensures n >= 0
    ensures y - 0.5 < n as real <= y + 0.5
  {
    (y + 0.5).Floor
  }

  /** The rounded value is a whole number of hundredths, within half a
      hundredth of x, and of the same sign. */
  lemma RoundedIsClose(x: real)
    ensures IsCents(RoundHalfUpCents(x))
    ensures Abs(RoundHalfUpCents(x) - x) <= 0.005
    ensures (x < 0.0 ==> RoundHalfUpCents(x) <= 0.0) && (x >= 0.0 ==> RoundHalfUpCents(x) >= 0.0)
  {
    var c := if x < 0.0 then -HalfUp(-x * 100.0) else HalfUp(x * 100.0);
    assert RoundHalfUpCents(x) == c as real / 100.0;
    assert (c as real / 100.0) * 100.0 == c as real;
  }

  /** `value.quantize(Decimal('1.00'), rounding=ROUND_HALF_UP)`: None where
      the rounded coefficient would have more than Precision digits and the
      call raises InvalidOperation. */
  function Quantize(x: real): (r: Option<real>)
    ensures r.Some? ==> IsCents(r.value) && Abs(r.value - x) <= 0.005
    ensures r.None? <==> AtLeastPow10(Abs(RoundHalfUpCents(x)) * 100.0, Precision)
  {
    var q := RoundHalfUpCents(x);
    RoundedIsClose(x);
    if AtLeastPow10(Abs(q) * 100.0, Precision) then None else Some(q)
  }

  /** `quantize` fails exactly when the rounded value, counted in hundredths,
      needs more than Precision digits, that is when |q| >= 10^26. */
  lemma QuantizeFailsOnlyWhenTooWide(x: real)
    ensures Quantize(x).None? <==> Abs(RoundHalfUpCents(x)) * 100.0 >= Pow10(Precision) as real
    ensures Quantize(x).Some? ==> Quantize(x).value == RoundHalfUpCents(x)
  {
    AtLeastPow10Iff(Abs(RoundHalfUpCents(x)) * 100.0, Precision);
  }

  /** No hundredth is nearer to x than the rounded value. */
  lemma RoundIsNearest(x: real, c: real)
    requires IsCents(c)
    ensures Abs(RoundHalfUpCents(x) - x) <= Abs(c - x)
  {
    var q := RoundHalfUpCents(x);
    RoundedIsClose(x);
    if Abs(c - x) < 0.005 {
      var m, k := (c * 100.0).Floor, (q * 100.0).Floor;
      assert Abs(m as real - x * 100.0) < 0.5;
      assert Abs(k as real - x * 100.0) <= 0.5;
      assert m == k;
      assert c == q;
    }
  }

  /** An exact tie (x a whole number of thousandths ending in 5) rounds away
      from zero: the magnitude goes up by half a hundredth. */
  lemma TieRoundsAwayFromZero(x: real)
    requires Abs(x) * 100.0 - (Abs(x) * 100.0).Floor as real == 0.5
    ensures Abs(RoundHalfUpCents(x)) == Abs(x) + 0.005
  {
    var y := Abs(x) * 100.0;
    var f := y.Floor;
    assert y + 0.5 == (f + 1) as real;
    assert HalfUp(y) == f + 1;
    if x < 0.0 {
      assert -x * 100.0 == y;
      assert RoundHalfUpCents(x) == -((f + 1) as real) / 100.0;
    } else {
      assert x * 100.0 == y;
      assert RoundHalfUpCents(x) == (f + 1) as real / 100.0;
    }
  }

  /** Rounding is symmetric about zero. */
  lemma RoundIsOdd(x: real)
    ensures RoundHalfUpCents(-x) == -RoundHalfUpCents(x)
  {
    if x == 0.0 {
      assert -x == 0.0;
    }
  }

  /** A value already in hundredths is left as it is, so rounding twice is
      rounding once. */
  lemma RoundKeepsCents(x: real)
    ensures IsCents(x) ==> RoundHalfUpCents(x) == x
    ensures RoundHalfUpCents(RoundHalfUpCents(x)) == RoundHalfUpCents(x)
  {
    forall z: real | IsCents(z) ensures RoundHalfUpCents(z) == z {
      CentsUnchanged(z);
    }
    RoundedIsClose(x);
  }

  lemma CentsUnchanged(z: real)
    requires IsCents(z)
    ensures RoundHalfUpCents(z) == z
  {
    var m := (z * 100.0).Floor;
    if z < 0.0 {
      assert -z * 100.0 == (-m) as real;
      assert HalfUp(-z * 100.0) == -m;
    } else {
      assert z * 100.0 == m as real;
      assert HalfUp(z * 100.0) == m;
    }
  }
}
