/** Two-component vectors (`Vector2f`). Components are `real`. */
module Vec2 {
  import opened F32

  /** The datatype constructor plays the role of `Vector2f::new`. */
  datatype Vector2f = Vector2f(x: real, y: real)

  function Zero(): Vector2f
  {
    Vector2f(0.0, 0.0)
  }

  function One(): Vector2f
  {
    Vector2f(1.0, 1.0)
  }

  function Dot(a: Vector2f, b: Vector2f): real
  {
    Times(a.x, b.x) + Times(a.y, b.y)
  }

  /** The squared length is the dot product of a vector with itself and is
      never negative. */
  function MagnitudeSquared(v: Vector2f): (r: real)
    ensures r == Dot(v, v)
    ensures r >= 0.0
  {
    Times(v.x, v.x) + Times(v.y, v.y)
  }

  /** Multiplies both components by `s`; `ScaleMagnitudeSquared` and
      `DotScale` state what that does to lengths and dot products. */
  function Scale(v: Vector2f, s: real): Vector2f
  {
    Vector2f(Times(v.x, s), Times(v.y, s))
  }

  function Add(a: Vector2f, b: Vector2f): Vector2f
  {
    Vector2f(a.x + b.x, a.y + b.y)
  }

  function Sub(a: Vector2f, b: Vector2f): Vector2f
  {
    Vector2f(a.x - b.x, a.y - b.y)
  }

  /** `PartialEq`: exact comparison of both components, which is value equality. */
  function Equal(a: Vector2f, b: Vector2f): (r: bool)
    ensures r <==> a == b
  {
    a.x == b.x && a.y == b.y
  }

  /** `From<Vector2f> for [f32; 2]`: the array [x, y]. */
  function ToArray(v: Vector2f): (r: seq<real>)
    ensures |r| == 2 && Vector2f(r[0], r[1]) == v
  {
    [v.x, v.y]
  }

  lemma DotSymmetric(a: Vector2f, b: Vector2f)
    ensures Dot(a, b) == Dot(b, a)
  {
  }

  /** The dot product distributes over addition. */
  lemma DotAdd(a: Vector2f, b: Vector2f, c: Vector2f)
    ensures Dot(Add(a, b), c) == Dot(a, c) + Dot(b, c)
    ensures Dot(c, Add(a, b)) == Dot(c, a) + Dot(c, b)
  {
  }

  /** Scaling either argument of the dot product by `s` scales it by `s`. */
  lemma DotScale(a: Vector2f, b: Vector2f, s: real)
    ensures Dot(Scale(a, s), b) == Times(Dot(a, b), s)
    ensures Dot(a, Scale(b, s)) == Times(Dot(a, b), s)
  {
  }

  /** Scaling by `s` multiplies the squared length by `s * s`. */
  lemma ScaleMagnitudeSquared(v: Vector2f, s: real)
    ensures MagnitudeSquared(Scale(v, s)) == s * s * MagnitudeSquared(v)
  {
  }

  /** Subtraction undoes addition, and the other way round. */
  lemma AddSubCancel(a: Vector2f, b: Vector2f)
    ensures Sub(Add(a, b), b) == a
    ensures Add(Sub(a, b), b) == a
  {
  }

  /** Addition commutes and has `Zero()` as its identity. */
  lemma AddCommutative(a: Vector2f, b: Vector2f)
    ensures Add(a, b) == Add(b, a)
    ensures Add(a, Zero()) == a
  {
  }

  /** Orthogonal axes, as asserted by the repository's `test_vector2f_dot`. */
  lemma DotOrthogonalAxesExample()
    ensures Dot(Vector2f(1.0, 0.0), Vector2f(0.0, 1.0)) == 0.0
  {
  }

  /** An axis with itself, as asserted by the repository's `test_vector2f_dot`. */
  lemma DotSameAxisExample()
    ensures Dot(Vector2f(1.0, 0.0), Vector2f(1.0, 0.0)) == 1.0
  {
  }

  /** The general value asserted by the repository's `test_vector2f_dot`. */
  lemma DotExample()
    ensures Dot(Vector2f(1.0, 2.0), Vector2f(3.0, 4.0)) == 11.0
  {
  }

  /** The values asserted by the repository's `test_vector2f_magnitude_squared`. */
  lemma MagnitudeSquaredExamples()
    ensures MagnitudeSquared(Vector2f(3.0, 4.0)) == 25.0
    ensures MagnitudeSquared(Vector2f(-1.0, -2.0)) == 5.0
    ensures MagnitudeSquared(Zero()) == 0.0
  {
  }

  /** The value asserted by the repository's `test_add`. */
  lemma AddExample()
    ensures Add(Vector2f(1.0, -1.0), Vector2f(-1.0, 1.0)) == Vector2f(0.0, 0.0)
  {
  }

  /** A `Vector2f` place that `+=` and `-=` overwrite (`&mut self`). */
  class Vector2fMut {
    var x: real
    var y: real

    function Value(): Vector2f
      reads this
    {
      Vector2f(x, y)
    }

    constructor (v: Vector2f)
      ensures Value() == v
    {
      x, y := v.x, v.y;
    }

    /** `AddAssign`: the new value is the sum of the old value and `other`. */
    method AddAssign(other: Vector2f)
      modifies this
      ensures Value() == Add(old(Value()), other)
    {
      x, y := x + other.x, y + other.y;
    }

    /** `SubAssign`: the new value is the old value minus `other`. */
    method SubAssign(other: Vector2f)
      modifies this
      ensures Value() == Sub(old(Value()), other)
    {
      x, y := x - other.x, y - other.y;
    }
  }
}
