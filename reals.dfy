/** Facts about real arithmetic kept in small lemmas of their own, so that
    the nonlinear steps stay out of the larger proofs. */
module Reals {

  /** `n` copies of `v` added up; kept apart from `n * v` so that the sums
      below stay linear. */
  function Times(n: nat, v: real): real
  {
    if n == 0 then 0.0 else Times(n - 1, v) + v
  }

  lemma {:induction false} TimesIsProduct(n: nat, v: real)
    ensures Times(n, v) == n as real * v
  {
    if n > 0 {
      TimesIsProduct(n - 1, v);
    }
  }

  /** A sum of `n` terms between `n` copies of `lo` and of `hi` has a mean
      between `lo` and `hi`. */
  lemma MeanWithin(sum: real, n: nat, lo: real, hi: real)
    requires n > 0 && Times(n, lo) <= sum <= Times(n, hi)
    ensures lo <= sum / n as real <= hi
  {
    TimesIsProduct(n, lo);
    TimesIsProduct(n, hi);
    var m := n as real;
    assert sum / m * m == sum;
  }

  /** `n` copies of `v`, averaged, give `v`. */
  lemma MeanOfCopies(n: nat, v: real)
    requires n > 0
    ensures Times(n, v) / n as real == v
  {
    TimesIsProduct(n, v);
    var m := n as real;
    assert m * v / m == v;
  }

  lemma MulNonNegative(a: real, b: real)
    requires 0.0 <= a && 0.0 <= b
    ensures 0.0 <= a * b
  {
  }

  lemma MulPositive(a: real, b: real)
    requires 0.0 < a && 0.0 < b
    ensures 0.0 < a * b
  {
  }

  /** A fraction `r` in [0, 1) of a non-negative `d` is at most `d`, and
      below it when `d` is positive. */
  lemma FractionBelow(r: real, d: real)
    requires 0.0 <= r < 1.0 && 0.0 <= d
    ensures 0.0 <= r * d <= d && (0.0 < d ==> r * d < d)
  {
    MulNonNegative(r, d);
    var q := 1.0 - r;
    assert d - r * d == q * d;
    MulNonNegative(q, d);
    if 0.0 < d {
      MulPositive(q, d);
    }
  }

  /** Dividing by a non-zero `d` and multiplying back gives the number again. */
  lemma DivTimes(x: real, d: real)
    requires d != 0.0
    ensures x / d * d == x
  {
  }

  /** A part of a positive whole is a fraction in [0, 1]. */
  lemma PartOfWhole(part: real, whole: real)
    requires 0.0 <= part <= whole && 0.0 < whole
    ensures 0.0 <= part / whole <= 1.0
  {
    assert part / whole * whole == part;
  }

  /** A running fraction over `d` parts, scaled back and extended by `y`,
      is the fraction of `x + y` over `d + 1` parts. */
  lemma RunningFraction(x: real, d: real, y: real)
    requires d > 0.0
    ensures (x / d * d + y) / (d + 1.0) == (x + y) / (d + 1.0)
  {
    DivTimes(x, d);
  }
}
