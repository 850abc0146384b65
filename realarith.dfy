/**
 * Facts about products and quotients of reals that the solver does not find
 * on its own; each is stated for the expressions it is applied to.
 */
module RealArith {

  lemma ProductNonNegative(u: real, v: real)
    requires u >= 0.0 && v >= 0.0
    ensures u * v >= 0.0
  {
  }

  lemma ProductPositive(u: real, v: real)
    requires u > 0.0 && v > 0.0
    ensures u * v > 0.0
  {
  }

  /** Scaling both sides of u <= v by a non-negative w keeps the order. */
  lemma ScaleMonotone(u: real, v: real, w: real)
    requires u <= v && w >= 0.0
    ensures u * w <= v * w
  {
    ProductNonNegative(v - u, w);
  }

  /** Dividing both sides of a <= b by a positive d keeps the order. */
  lemma DivMonotone(a: real, b: real, d: real)
    requires a <= b && d > 0.0
    ensures a / d <= b / d
  {
    var x, y := a / d, b / d;
    assert x * d == a && y * d == b;
    if y < x {
      ProductPositive(x - y, d);
    }
  }

  /** A quotient of two positive reals is positive. */
  lemma QuotientPositive(a: real, d: real)
    requires a > 0.0 && d > 0.0
    ensures a / d > 0.0
  {
    var x := a / d;
    assert x * d == a;
    if x <= 0.0 {
      ScaleMonotone(x, 0.0, d);
    }
  }

  /** A quotient of a non-negative by a positive real is non-negative, and below 1 when a < d. */
  lemma QuotientUnit(a: real, d: real)
    requires 0.0 <= a && d > 0.0
    ensures a / d >= 0.0
    ensures a < d ==> a / d < 1.0
  {
    DivMonotone(0.0, a, d);
    if a < d {
      DivMonotone(a, d, d);
      var x := a / d;
      assert x * d == a;
      if x >= 1.0 {
        ScaleMonotone(1.0, x, d);
      }
    }
  }
}
