/** The scalar type of the simulation (src/math/precision.rs).
    `Real` is `f32` in the source; here it is an exact real. The platform
    operations the core needs -- square root, the reciprocal `1.0 / x` of a
    computed magnitude, `powf` and the largest finite value -- are left
    uninterpreted: nothing is known about them except the laws below, and
    every member that relies on a law says so in its `requires`. */
module Precision {

  type Real = real

  /** `f32::sqrt`. */
  const Sqrt: Real -> Real

  /** `1.0 / x` for a magnitude computed at run time. */
  const Recip: Real -> Real

  /** `f32::powf`, used as `damping.pow(duration)`. */
  const Pow: (Real, Real) -> Real

  /** `Real::MAX`, the sentinel mass of an immovable particle. */
  const MAX: Real

  /** The threshold under which a squared magnitude counts as zero. */
  const EPSILON: Real := 0.000000001

  /** The square root of a non-negative number is non-negative and squares back. */
  ghost predicate SqrtLaw() {
    forall x :: 0.0 <= x ==> 0.0 <= Sqrt(x) && Sqrt(x) * Sqrt(x) == x
  }

  /** The reciprocal of a non-zero number is its multiplicative inverse,
      which fixes it to the exact quotient `1.0 / x`. */
  ghost predicate RecipLaw() {
    forall x :: x != 0.0 ==> x * Recip(x) == 1.0
  }

  /** A positive base raised to any power is positive, and exponents add. */
  ghost predicate PowLaw() {
    && (forall b, t :: 0.0 < b ==> 0.0 < Pow(b, t))
    && (forall b, s, t, u {:trigger Pow(b, s), Pow(b, t), Pow(b, u)} ::
          0.0 < b && u == s + t ==> Pow(b, s) * Pow(b, t) == Pow(b, u))
  }

  /** Under the square-root law, the root of a positive number is positive and
      the root of a number is determined by its square. */
  lemma SqrtPositive(x: Real)
    requires SqrtLaw()
    requires 0.0 < x
    ensures 0.0 < Sqrt(x)
  {
    assert 0.0 <= Sqrt(x) && Sqrt(x) * Sqrt(x) == x;
  }

  /** The product of two positive numbers is positive. */
  lemma PositiveProduct(a: Real, b: Real)
    requires 0.0 < a && 0.0 < b
    ensures 0.0 < a * b
  {
  }

  /** The product of two non-negative numbers is non-negative. */
  lemma NonNegativeProduct(a: Real, b: Real)
    requires 0.0 <= a && 0.0 <= b
    ensures 0.0 <= a * b
  {
    if a > 0.0 && b > 0.0 {
      PositiveProduct(a, b);
    }
  }

  /** A square is non-negative, and positive unless the number is zero. */
  lemma SquareNonNegative(a: Real)
    ensures 0.0 <= a * a
    ensures a != 0.0 ==> 0.0 < a * a
  {
    if a < 0.0 {
      assert a * a == (-a) * (-a);
      PositiveProduct(-a, -a);
    } else if a > 0.0 {
      PositiveProduct(a, a);
    }
  }

  /** A sum of two squares is non-negative, and positive unless both are zero. */
  lemma SumOfSquaresPositive(a: Real, b: Real)
    ensures 0.0 <= a * a + b * b
    ensures a != 0.0 || b != 0.0 ==> 0.0 < a * a + b * b
  {
    SquareNonNegative(a);
    SquareNonNegative(b);
    if a != 0.0 {
      assert 0.0 < a * a;
    } else if b != 0.0 {
      assert 0.0 < b * b;
    }
  }

  /** Squaring is strictly increasing on the non-negative numbers. */
  lemma SquareMonotone(a: Real, b: Real)
    requires 0.0 <= a < b
    ensures a * a < b * b
  {
    PositiveProduct(b - a, b + a);
    assert b * b - a * a == (b - a) * (b + a);
  }

  /** The root of `r * r` is `r` for non-negative `r`. */
  lemma SqrtOfSquare(r: Real)
    requires SqrtLaw()
    requires 0.0 <= r
    ensures Sqrt(r * r) == r
  {
    var s := Sqrt(r * r);
    assert 0.0 <= s && s * s == r * r;
    if s < r {
      SquareMonotone(s, r);
    } else if r < s {
      SquareMonotone(r, s);
    }
  }
}
