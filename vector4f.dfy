/** Four-component vectors (`Vector4f`), and the conversions between
    `Vector3f` and `Vector4f`: `truncate` (a `Vector4f` method) and `extend`
    (a `Vector3f` method, kept here beside its inverse). */
module Vec4 {
  import opened F32
  import Vec3

  /** The datatype constructor plays the role of `Vector4f::new`. */
  datatype Vector4f = Vector4f(x: real, y: real, z: real, w: real)

  function Zero(): Vector4f
  {
    Vector4f(0.0, 0.0, 0.0, 0.0)
  }

  function One(): Vector4f
  {
    Vector4f(1.0, 1.0, 1.0, 1.0)
  }

  /** `Default` is the zero vector: the identity of addition on either side. */
  function Default(): (r: Vector4f)
    ensures r == Zero()
    ensures forall a :: Add(a, r) == a && Add(r, a) == a
  {
    Zero()
  }

  function Dot(a: Vector4f, b: Vector4f): real
  {
    Times(a.x, b.x) + Times(a.y, b.y) + Times(a.z, b.z) + Times(a.w, b.w)
  }

  /** The squared length is the dot product of a vector with itself and is
      never negative. */
  function MagnitudeSquared(v: Vector4f): (r: real)
    ensures r == Dot(v, v)
    ensures r >= 0.0
  {
    Times(v.x, v.x) + Times(v.y, v.y) + Times(v.z, v.z) + Times(v.w, v.w)
  }

  /** Multiplies each component by `s`; `ScaleMagnitudeSquared` and
      `DotScale` state what that does to lengths and dot products. */
  function Scale(v: Vector4f, s: real): Vector4f
  {
    Vector4f(Times(v.x, s), Times(v.y, s), Times(v.z, s), Times(v.w, s))
  }

  /** `Vector4f::truncate`: drops `w`; extending the result with the old `w`
      gives the vector back. */
  function Truncate(v: Vector4f): (r: Vec3.Vector3f)
    ensures Extend(r, v.w) == v
  {
    Vec3.Vector3f(v.x, v.y, v.z)
  }

  /** `Vector3f::extend`: appends `w`; truncating the result gives the
      vector back. */
  function Extend(v: Vec3.Vector3f, w: real): (r: Vector4f)
    ensures r.w == w
    ensures Vec3.Vector3f(r.x, r.y, r.z) == v
  {
    Vector4f(v.x, v.y, v.z, w)
  }

  function Add(a: Vector4f, b: Vector4f): Vector4f
  {
    Vector4f(a.x + b.x, a.y + b.y, a.z + b.z, a.w + b.w)
  }

  function Sub(a: Vector4f, b: Vector4f): Vector4f
  {
    Vector4f(a.x - b.x, a.y - b.y, a.z - b.z, a.w - b.w)
  }

  /** `PartialEq`: exact comparison of all components, which is value equality. */
  function Equal(a: Vector4f, b: Vector4f): (r: bool)
    ensures r <==> a == b
  {
    a.x == b.x && a.y == b.y && a.z == b.z && a.w == b.w
  }

  /** `From<Vector4f> for [f32; 4]`: the array [x, y, z, w]. */
  function ToArray(v: Vector4f): (r: seq<real>)
    ensures |r| == 4 && Vector4f(r[0], r[1], r[2], r[3]) == v
  {
    [v.x, v.y, v.z, v.w]
  }

  /** `truncate` undoes `extend`, whatever `w` was appended. */
  lemma TruncateExtend(v: Vec3.Vector3f, w: real)
    ensures Truncate(Extend(v, w)) == v
    ensures Extend(v, w).w == w
  {
  }

  /** Truncating then extending commutes with addition: both conversions
      are componentwise. */
  lemma ExtendAdd(a: Vec3.Vector3f, b: Vec3.Vector3f, u: real, w: real)
    ensures Add(Extend(a, u), Extend(b, w)) == Extend(Vec3.Add(a, b), u + w)
    ensures Vec3.Dot(a, b) + Times(u, w) == Dot(Extend(a, u), Extend(b, w))
  {
  }

  lemma DotSymmetric(a: Vector4f, b: Vector4f)
    ensures Dot(a, b) == Dot(b, a)
  {
  }

  /** The dot product distributes over addition. */
  lemma DotAdd(a: Vector4f, b: Vector4f, c: Vector4f)
    ensures Dot(Add(a, b), c) == Dot(a, c) + Dot(b, c)
    ensures Dot(c, Add(a, b)) == Dot(c, a) + Dot(c, b)
  {
  }

  /** The dot product with a unit vector picks out one component. */
  lemma DotUnits(v: Vector4f)
    ensures Dot(Vector4f(1.0, 0.0, 0.0, 0.0), v) == Dot(v, Vector4f(1.0, 0.0, 0.0, 0.0)) == v.x
    ensures Dot(Vector4f(0.0, 1.0, 0.0, 0.0), v) == Dot(v, Vector4f(0.0, 1.0, 0.0, 0.0)) == v.y
    ensures Dot(Vector4f(0.0, 0.0, 1.0, 0.0), v) == Dot(v, Vector4f(0.0, 0.0, 1.0, 0.0)) == v.z
    ensures Dot(Vector4f(0.0, 0.0, 0.0, 1.0), v) == Dot(v, Vector4f(0.0, 0.0, 0.0, 1.0)) == v.w
  {
  }

  /** Scaling either argument of the dot product by `s` scales it by `s`. */
  lemma DotScale(a: Vector4f, b: Vector4f, s: real)
    ensures Dot(Scale(a, s), b) == Times(Dot(a, b), s)
    ensures Dot(a, Scale(b, s)) == Times(Dot(a, b), s)
  {
  }

  /** Scaling by `s` multiplies the squared length by `s * s`. */
  lemma ScaleMagnitudeSquared(v: Vector4f, s: real)
    ensures MagnitudeSquared(Scale(v, s)) == s * s * MagnitudeSquared(v)
  {
  }

  /** Subtraction undoes addition, and the other way round. */
  lemma AddSubCancel(a: Vector4f, b: Vector4f)
    ensures Sub(Add(a, b), b) == a
    ensures Add(Sub(a, b), b) == a
  {
  }

  /** Addition commutes and has `Zero()` (the default) as its identity. */
  lemma AddCommutative(a: Vector4f, b: Vector4f)
    ensures Add(a, b) == Add(b, a)
    ensures Add(a, Default()) == a
  {
  }

  /** Orthogonal axes, as asserted by the repository's `test_vector4f_dot`. */
  lemma DotOrthogonalAxesExample()
    ensures Dot(Vector4f(1.0, 0.0, 0.0, 0.0), Vector4f(0.0, 1.0, 0.0, 0.0)) == 0.0
  {
  }

  /** An axis with itself, as asserted by the repository's `test_vector4f_dot`. */
  lemma DotSameAxisExample()
    ensures Dot(Vector4f(1.0, 0.0, 0.0, 0.0), Vector4f(1.0, 0.0, 0.0, 0.0)) == 1.0
  {
  }

  /** The general value asserted by the repository's `test_vector4f_dot`. */
  lemma DotExample()
    ensures Dot(Vector4f(1.0, 2.0, -2.0, 3.0), Vector4f(3.0, 4.0, 1.0, 1.5)) == 13.5
  {
  }

  /** The values asserted by the repository's `test_vector4f_magnitude_squared`. */
  lemma MagnitudeSquaredExamples()
    ensures MagnitudeSquared(Vector4f(3.0, 4.0, 1.0, -1.0)) == 27.0
    ensures MagnitudeSquared(Vector4f(-1.0, -2.0, 2.0, 2.0)) == 13.0
    ensures MagnitudeSquared(Zero()) == 0.0
  {
  }

  /** A `Vector4f` place that `+=` and `-=` overwrite (`&mut self`). */
  class Vector4fMut {
    var x: real
    var y: real
    var z: real
    var w: real

    function Value(): Vector4f
      reads this
    {
      Vector4f(x, y, z, w)
    }

    constructor (v: Vector4f)
      ensures Value() == v
    {
      x, y, z, w := v.x, v.y, v.z, v.w;
    }

    /** `AddAssign`: the new value is the sum of the old value and `other`. */
    method AddAssign(other: Vector4f)
      modifies this
      ensures Value() == Add(old(Value()), other)
    {
      x, y, z, w := x + other.x, y + other.y, z + other.z, w + other.w;
    }

    /** `SubAssign`: the new value is the old value minus `other`. */
    method SubAssign(other: Vector4f)
      modifies this
      ensures Value() == Sub(old(Value()), other)
    {
      x, y, z, w := x - other.x, y - other.y, z - other.z, w - other.w;
    }
  }
}
