/** Three-component vectors (`Vector3f`). Components are `real`.
    `extend`, which builds a `Vector4f`, is modelled in module Vec4 beside
    `truncate`, its inverse, so that the two modules do not import each other. */
module Vec3 {
  import opened F32

  /** The datatype constructor plays the role of `Vector3f::new`. */
  datatype Vector3f = Vector3f(x: real, y: real, z: real)

  function Zero(): Vector3f
  {
    Vector3f(0.0, 0.0, 0.0)
  }

  function One(): Vector3f
  {
    Vector3f(1.0, 1.0, 1.0)
  }

  function Dot(a: Vector3f, b: Vector3f): real
  {
    Times(a.x, b.x) + Times(a.y, b.y) + Times(a.z, b.z)
  }

  /** The cross product; `CrossOrthogonal` and `CrossAntiCommutative` state
      what it means. */
  function Cross(a: Vector3f, b: Vector3f): Vector3f
  {
    Vector3f(Times(a.y, b.z) - Times(a.z, b.y),
             Times(a.z, b.x) - Times(a.x, b.z),
             Times(a.x, b.y) - Times(a.y, b.x))
  }

  /** The squared length is the dot product of a vector with itself and is
      never negative. */
  function MagnitudeSquared(v: Vector3f): (r: real)
    ensures r == Dot(v, v)
    ensures r >= 0.0
  {
    Times(v.x, v.x) + Times(v.y, v.y) + Times(v.z, v.z)
  }

  /** Multiplies each component by `s`; `ScaleMagnitudeSquared` and
      `DotScale` state what that does to lengths and dot products. */
  function Scale(v: Vector3f, s: real): Vector3f
  {
    Vector3f(Times(v.x, s), Times(v.y, s), Times(v.z, s))
  }

  function Add(a: Vector3f, b: Vector3f): Vector3f
  {
    Vector3f(a.x + b.x, a.y + b.y, a.z + b.z)
  }

  function Sub(a: Vector3f, b: Vector3f): Vector3f
  {
    Vector3f(a.x - b.x, a.y - b.y, a.z - b.z)
  }

  /** `PartialEq`: exact comparison of all components, which is value equality. */
  function Equal(a: Vector3f, b: Vector3f): (r: bool)
    ensures r <==> a == b
  {
    a.x == b.x && a.y == b.y && a.z == b.z
  }

  /** `From<Vector3f> for [f32; 3]`: the array [x, y, z]. */
  function ToArray(v: Vector3f): (r: seq<real>)
    ensures |r| == 3 && Vector3f(r[0], r[1], r[2]) == v
  {
    [v.x, v.y, v.z]
  }

  lemma DotSymmetric(a: Vector3f, b: Vector3f)
    ensures Dot(a, b) == Dot(b, a)
  {
  }

  /** The dot product distributes over addition. */
  lemma DotAdd(a: Vector3f, b: Vector3f, c: Vector3f)
    ensures Dot(Add(a, b), c) == Dot(a, c) + Dot(b, c)
    ensures Dot(c, Add(a, b)) == Dot(c, a) + Dot(c, b)
  {
  }

  /** Scaling either argument of the dot product by `s` scales it by `s`. */
  lemma DotScale(a: Vector3f, b: Vector3f, s: real)
    ensures Dot(Scale(a, s), b) == Times(Dot(a, b), s)
    ensures Dot(a, Scale(b, s)) == Times(Dot(a, b), s)
  {
  }

  /** Scaling by `s` multiplies the squared length by `s * s`. */
  lemma ScaleMagnitudeSquared(v: Vector3f, s: real)
    ensures MagnitudeSquared(Scale(v, s)) == s * s * MagnitudeSquared(v)
  {
  }

  /** The cross product is orthogonal to both of its arguments. */
  lemma CrossOrthogonal(a: Vector3f, b: Vector3f)
    ensures Dot(a, Cross(a, b)) == 0.0
    ensures Dot(b, Cross(a, b)) == 0.0
  {
  }

  /** The scalar triple product is unchanged by a cyclic shift of its
      three vectors. */
  lemma TripleProductCyclic(a: Vector3f, b: Vector3f, c: Vector3f)
    ensures Dot(a, Cross(b, c)) == Dot(b, Cross(c, a))
    ensures Dot(a, Cross(b, c)) == Dot(c, Cross(a, b))
  {
    TripleExpansion(a, b, c);
    TripleExpansion(b, c, a);
    TripleExpansion(c, a, b);
  }

  /** The scalar triple product written out as a polynomial. */
  lemma TripleExpansion(a: Vector3f, b: Vector3f, c: Vector3f)
    ensures Dot(a, Cross(b, c)) == a.x * b.y * c.z + a.y * b.z * c.x + a.z * b.x * c.y
                                 - a.x * b.z * c.y - a.y * b.x * c.z - a.z * b.y * c.x
  {
    assert Dot(a, Cross(b, c)) == a.x * (b.y * c.z - b.z * c.y) + a.y * (b.z * c.x - b.x * c.z) + a.z * (b.x * c.y - b.y * c.x);
  }

  /** Swapping the arguments of the cross product negates it. */
  lemma CrossAntiCommutative(a: Vector3f, b: Vector3f)
    ensures Cross(a, b) == Scale(Cross(b, a), -1.0)
    ensures Add(Cross(a, b), Cross(b, a)) == Zero()
    ensures Cross(a, a) == Zero()
  {
  }

  /** Subtraction undoes addition, and the other way round. */
  lemma AddSubCancel(a: Vector3f, b: Vector3f)
    ensures Sub(Add(a, b), b) == a
    ensures Add(Sub(a, b), b) == a
  {
  }

  /** Addition commutes and has `Zero()` as its identity. */
  lemma AddCommutative(a: Vector3f, b: Vector3f)
    ensures Add(a, b) == Add(b, a)
    ensures Add(a, Zero()) == a
  {
  }

  /** Two of the values asserted by the repository's `test_dot`. */
  lemma DotExamples()
    ensures Dot(Vector3f(1.0, 0.0, 0.0), Vector3f(0.0, 1.0, 0.0)) == 0.0
    ensures Dot(Vector3f(1.0, 2.0, -2.0), Vector3f(3.0, 4.0, 1.0)) == 9.0
  {
  }

  /** The value asserted by the repository's `test_cross`. */
  lemma CrossExample()
    ensures Cross(Vector3f(2.0, 3.0, 4.0), Vector3f(5.0, 6.0, 7.0)) == Vector3f(-3.0, 6.0, -3.0)
  {
    var c := Cross(Vector3f(2.0, 3.0, 4.0), Vector3f(5.0, 6.0, 7.0));
    assert c.x == Times(3.0, 7.0) - Times(4.0, 6.0);
    assert c.y == Times(4.0, 5.0) - Times(2.0, 7.0);
    assert c.z == Times(2.0, 6.0) - Times(3.0, 5.0);
  }

  /** The values asserted by the repository's `test_magnitude_squared`. */
  lemma MagnitudeSquaredExamples()
    ensures MagnitudeSquared(Vector3f(3.0, 4.0, 1.0)) == 26.0
    ensures MagnitudeSquared(Vector3f(-1.0, -2.0, 2.0)) == 9.0
    ensures MagnitudeSquared(Zero()) == 0.0
  {
  }

  /** The value asserted by the repository's `test_sub`. */
  lemma SubExample()
    ensures Sub(One(), Vector3f(0.5, -0.5, 0.1)) == Vector3f(0.5, 1.5, 0.9)
  {
  }

  /** A `Vector3f` place that `+=` and `-=` overwrite (`&mut self`). */
  class Vector3fMut {
    var x: real
    var y: real
    var z: real

    function Value(): Vector3f
      reads this
    {
      Vector3f(x, y, z)
    }

    constructor (v: Vector3f)
      ensures Value() == v
    {
      x, y, z := v.x, v.y, v.z;
    }

    /** `AddAssign`: the new value is the sum of the old value and `other`. */
    method AddAssign(other: Vector3f)
      modifies this
      ensures Value() == Add(old(Value()), other)
    {
      x, y, z := x + other.x, y + other.y, z + other.z;
    }

    /** `SubAssign`: the new value is the old value minus `other`. */
    method SubAssign(other: Vector3f)
      modifies this
      ensures Value() == Sub(old(Value()), other)
    {
      x, y, z := x - other.x, y - other.y, z - other.z;
    }
  }
}
