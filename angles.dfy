/** Conversion between radians and degrees (the `Deg` and `Rad` free functions).
    `f32` is modelled as `real`; PI is the exact value of the single-precision
    constant `std::f32::consts::PI`, so no rounding is modelled. */
module Angles {
  import opened F32

  /** The single-precision value of pi that the library multiplies by. */
  const PI: real := 3.1415927410125732421875

  /** Radians to degrees: multiply by 180 / PI. */
  function Deg(rad: real): (deg: real)
    ensures deg * PI == rad * 180.0
  {
    Times(rad, 180.0 / PI)
  }

  /** Degrees to radians: multiply by PI / 180. */
  function Rad(deg: real): (rad: real)
    ensures rad * 180.0 == deg * PI
  {
    Times(deg, PI / 180.0)
  }

  /** Converting to degrees and back gives the original angle. */
  lemma RadOfDeg(r: real)
    ensures Rad(Deg(r)) == r
  {
    var d := Deg(r);
    assert Rad(d) * 180.0 == d * PI;
    assert d * PI == r * 180.0;
  }

  /** Converting to radians and back gives the original angle. */
  lemma DegOfRad(d: real)
    ensures Deg(Rad(d)) == d
  {
    var r := Rad(d);
    assert Deg(r) * PI == r * 180.0;
    assert r * 180.0 == d * PI;
  }

  /** A half turn is 180 degrees and PI radians. */
  lemma HalfTurn()
    ensures Rad(180.0) == PI
    ensures Deg(PI) == 180.0
  {
  }

  /** Both conversions are linear maps. */
  lemma ConversionsAreLinear(a: real, b: real, k: real)
    ensures Rad(a + b) == Rad(a) + Rad(b) && Rad(k * a) == k * Rad(a) && Rad(0.0) == 0.0
    ensures Deg(a + b) == Deg(a) + Deg(b) && Deg(k * a) == k * Deg(a) && Deg(0.0) == 0.0
  {
  }
}
