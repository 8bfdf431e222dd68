/** Single-precision arithmetic, modelled exactly on `real` (no rounding).
    Products are written `Times(x, y)` rather than `x * y` only so that the
    solver treats each product as one term it can match across definitions;
    `Times(x, y)` is exactly `x * y`. */
module F32 {

  /** The product `x * y`, through which every product of the vector and
      matrix modules is written. */
  function Times(x: real, y: real): real
  {
    x * y
  }

  lemma TimesCommutative(x: real, y: real)
    ensures Times(x, y) == Times(y, x)
  {
  }

  /** A non-zero factor can be cancelled. */
  lemma TimesCancel(x: real, y: real, z: real)
    requires Times(x, y) == Times(x, z) && y != z
    ensures x == 0.0
  {
    assert x * (y - z) == 0.0;
  }

  /** A product of two numbers of the same sign is positive. */
  lemma PositiveProduct(x: real, y: real)
    requires (x > 0.0 && y > 0.0) || (x < 0.0 && y < 0.0)
    ensures Times(x, y) > 0.0
  {
  }

  /** The square of a non-zero number is positive. */
  lemma SquarePositive(x: real)
    requires x != 0.0
    ensures Times(x, x) > 0.0
  {
    PositiveProduct(x, x);
  }
}
