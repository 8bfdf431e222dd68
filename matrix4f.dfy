/** 4x4 matrices (`Matrix4f`): sixteen `real` entries in row-major order,
    and the transformation constructors built on them.

    Two formulas of the source are modelled as written and beside their
    corrected versions: the product `*` takes the last term of every entry
    from the left operand's bottom row (`Mul`, corrected `MulTextbook`), and
    the axis-angle rotation uses `y * sin` where `z * sin` belongs at entry
    (1, 0) (`FromAxisAngleComp`, corrected `FromAxisAngleRodrigues`).

    `sin`, `cos` and `tan` are parameters (`Trig`), and so is
    `Vector3f::normalize` in `LookAtRh`; nothing is assumed about them. */
module Mat4 {
  import opened F32
  import Angles
  import Vec3
  import Vec4

  /** Entry (i, j) is at index 4 * i + j. The source stores a `Vec<f32>`;
      every matrix it builds has exactly sixteen entries. */
  type Entries16 = s: seq<real> | |s| == 16
    witness [0.0, 0.0, 0.0, 0.0, 0.0, 0.0, 0.0, 0.0, 0.0, 0.0, 0.0, 0.0, 0.0, 0.0, 0.0, 0.0]

  datatype Matrix4f = Matrix4f(data: Entries16)

  /** The single-precision `sin`, `cos` and `tan` the constructors call. */
  datatype Trig = Trig(sin: real -> real, cos: real -> real, tan: real -> real)

  function Entry(m: Matrix4f, i: nat, j: nat): real
    requires i < 4 && j < 4
  {
    m.data[4 * i + j]
  }

  function Row(m: Matrix4f, i: nat): Vec4.Vector4f
    requires i < 4
  {
    Vec4.Vector4f(m.data[4 * i], m.data[4 * i + 1], m.data[4 * i + 2], m.data[4 * i + 3])
  }

  function Col(m: Matrix4f, j: nat): Vec4.Vector4f
    requires j < 4
  {
    Vec4.Vector4f(m.data[j], m.data[4 + j], m.data[8 + j], m.data[12 + j])
  }

  /** `Matrix4f::new`: the arguments in row-major order. */
  function New(m00: real, m01: real, m02: real, m03: real,
               m10: real, m11: real, m12: real, m13: real,
               m20: real, m21: real, m22: real, m23: real,
               m30: real, m31: real, m32: real, m33: real): Matrix4f
  {
    Matrix4f([m00, m01, m02, m03,
              m10, m11, m12, m13,
              m20, m21, m22, m23,
              m30, m31, m32, m33])
  }

  function One(): Matrix4f
  {
    New(1.0, 1.0, 1.0, 1.0,
        1.0, 1.0, 1.0, 1.0,
        1.0, 1.0, 1.0, 1.0,
        1.0, 1.0, 1.0, 1.0)
  }

  function Identity(): Matrix4f
  {
    New(1.0, 0.0, 0.0, 0.0,
        0.0, 1.0, 0.0, 0.0,
        0.0, 0.0, 1.0, 0.0,
        0.0, 0.0, 0.0, 1.0)
  }

  /** `Default` is the identity: transforming by it changes no vector. */
  function Default(): (r: Matrix4f)
    ensures r == Identity()
    ensures forall v :: Transform(r, v) == v
  {
    assert forall v :: Transform(Identity(), v) == v by {
      forall v {
        TransformIdentity(v);
      }
    }
    Identity()
  }

  /** `scale(s)`: every entry times `s`. */
  function Scale(m: Matrix4f, s: real): Matrix4f
  {
    Matrix4f(seq(16, k requires 0 <= k < 16 => Times(m.data[k], s)))
  }

  /** `transpose`: entry (i, j) of the result is entry (j, i). */
  function Transpose(m: Matrix4f): Matrix4f
  {
    var d := m.data;
    New(d[0], d[4], d[8], d[12],
        d[1], d[5], d[9], d[13],
        d[2], d[6], d[10], d[14],
        d[3], d[7], d[11], d[15])
  }

  /** `transform(v)`: component i is row i dotted with `v`. */
  function Transform(m: Matrix4f, v: Vec4.Vector4f): Vec4.Vector4f
  {
    Vec4.Vector4f(Vec4.Dot(Row(m, 0), v), Vec4.Dot(Row(m, 1), v), Vec4.Dot(Row(m, 2), v), Vec4.Dot(Row(m, 3), v))
  }

  /** `from_translation(t)`: the identity with `t` in the last column. */
  function FromTranslation(t: Vec3.Vector3f): Matrix4f
  {
    New(1.0, 0.0, 0.0, t.x,
        0.0, 1.0, 0.0, t.y,
        0.0, 0.0, 1.0, t.z,
        0.0, 0.0, 0.0, 1.0)
  }

  /** `from_scale(s)`: `s` on the first three diagonal entries, 1 on the last. */
  function FromScale(s: real): Matrix4f
  {
    New(s, 0.0, 0.0, 0.0,
        0.0, s, 0.0, 0.0,
        0.0, 0.0, s, 0.0,
        0.0, 0.0, 0.0, 1.0)
  }

  /** `from_scale_vec(s)`: the components of `s` on the first three
      diagonal entries, 1 on the last. */
  function FromScaleVec(s: Vec3.Vector3f): Matrix4f
  {
    New(s.x, 0.0, 0.0, 0.0,
        0.0, s.y, 0.0, 0.0,
        0.0, 0.0, s.z, 0.0,
        0.0, 0.0, 0.0, 1.0)
  }

  /** `from_angle_x(r)`: rotation by `r` radians about the x axis. */
  function FromAngleX(trig: Trig, r: real): Matrix4f
  {
    New(1.0, 0.0, 0.0, 0.0,
        0.0, trig.cos(r), -trig.sin(r), 0.0,
        0.0, trig.sin(r), trig.cos(r), 0.0,
        0.0, 0.0, 0.0, 1.0)
  }

  /** `from_angle_x_deg(d)`: `d` degrees converted by the factor PI / 180. */
  function FromAngleXDeg(trig: Trig, d: real): Matrix4f
  {
    FromAngleX(trig, Times(d, Angles.PI / 180.0))
  }

  /** `from_angle_y(r)`: rotation by `r` radians about the y axis. */
  function FromAngleY(trig: Trig, r: real): Matrix4f
  {
    New(trig.cos(r), 0.0, trig.sin(r), 0.0,
        0.0, 1.0, 0.0, 0.0,
        -trig.sin(r), 0.0, trig.cos(r), 0.0,
        0.0, 0.0, 0.0, 1.0)
  }

  /** `from_angle_y_deg(d)`: `d` degrees converted by the factor PI / 180. */
  function FromAngleYDeg(trig: Trig, d: real): Matrix4f
  {
    FromAngleY(trig, Times(d, Angles.PI / 180.0))
  }

  /** `from_angle_z(r)`: rotation by `r` radians about the z axis. */
  function FromAngleZ(trig: Trig, r: real): Matrix4f
  {
    New(trig.cos(r), -trig.sin(r), 0.0, 0.0,
        trig.sin(r), trig.cos(r), 0.0, 0.0,
        0.0, 0.0, 1.0, 0.0,
        0.0, 0.0, 0.0, 1.0)
  }

  /** `from_angle_z_deg(d)`: `d` degrees converted by the factor PI / 180. */
  function FromAngleZDeg(trig: Trig, d: real): Matrix4f
  {
    FromAngleZ(trig, Times(d, Angles.PI / 180.0))
  }

  /** The matrix `from_axis_angle_comp` builds, given the term it adds at
      entry (1, 0); every other entry is the Rodrigues rotation formula. */
  function AxisAngleWith(trig: Trig, x: real, y: real, z: real, r: real, zsin: real): Matrix4f
  {
    var cosr, sinr := trig.cos(r), trig.sin(r);
    var a := 1.0 - cosr;
    var xsin, ysin := Times(x, sinr), Times(y, sinr);
    var xy, xz, yz := Times(x, y), Times(x, z), Times(y, z);
    var xx, yy, zz := Times(x, x), Times(y, y), Times(z, z);
    New(cosr + Times(xx, a), Times(xy, a) - Times(z, sinr), Times(xz, a) + ysin, 0.0,
        Times(xy, a) + zsin, cosr + Times(yy, a), Times(yz, a) - xsin, 0.0,
        Times(xz, a) - ysin, Times(yz, a) + xsin, cosr + Times(zz, a), 0.0,
        0.0, 0.0, 0.0, 1.0)
  }

  /** `from_axis_angle_comp` AS WRITTEN: its `zsin` is `y * sin r`. */
  function FromAxisAngleComp(trig: Trig, x: real, y: real, z: real, r: real): Matrix4f
  {
    AxisAngleWith(trig, x, y, z, r, Times(y, trig.sin(r)))
  }

  /** `from_axis_angle`: the axis given as a vector. */
  function FromAxisAngle(trig: Trig, axis: Vec3.Vector3f, r: real): Matrix4f
  {
    FromAxisAngleComp(trig, axis.x, axis.y, axis.z, r)
  }

  /** The rotation `from_axis_angle_comp` evidently intends: `zsin` is
      `z * sin r`. */
  function FromAxisAngleRodrigues(trig: Trig, x: real, y: real, z: real, r: real): Matrix4f
  {
    AxisAngleWith(trig, x, y, z, r, Times(z, trig.sin(r)))
  }

  /** The three axes `look_at_rh` computes: forward `z`, right `x` and up
      `y`, each passed through `normalize`. */
  function LookAtAxes(normalize: Vec3.Vector3f -> Vec3.Vector3f,
                      eye: Vec3.Vector3f, center: Vec3.Vector3f, up: Vec3.Vector3f)
    : (Vec3.Vector3f, Vec3.Vector3f, Vec3.Vector3f)
  {
    var zaxis := normalize(Vec3.Sub(center, eye));
    var xaxis := normalize(Vec3.Cross(zaxis, up));
    var yaxis := normalize(Vec3.Cross(xaxis, zaxis));
    (xaxis, yaxis, zaxis)
  }

  /** `look_at_rh`: the view matrix, built row by row and then transposed. */
  function LookAtRh(normalize: Vec3.Vector3f -> Vec3.Vector3f,
                    eye: Vec3.Vector3f, center: Vec3.Vector3f, up: Vec3.Vector3f): Matrix4f
  {
    var (xaxis, yaxis, zaxis) := LookAtAxes(normalize, eye, center, up);
    Transpose(New(xaxis.x, xaxis.y, xaxis.z, -Vec3.Dot(eye, xaxis),
        yaxis.x, yaxis.y, yaxis.z, -Vec3.Dot(eye, yaxis),
        -zaxis.x, -zaxis.y, -zaxis.z, Vec3.Dot(eye, zaxis),
        0.0, 0.0, 0.0, 1.0))
  }

  /** `perspective`: the projection matrix for vertical field of view
      `fovy`, built column by column and then transposed. The source divides
      by `tan(fovy / 2)`, `aspect` and `near - far`; the model requires them
      to be non-zero. */
  function Perspective(trig: Trig, fovy: real, aspect: real, near: real, far: real): Matrix4f
    requires trig.tan(fovy / 2.0) != 0.0 && aspect != 0.0 && near != far
  {
    var c := 1.0 / trig.tan(fovy / 2.0);
    var c2r2 := (far + near) / (near - far);
    var c3r2 := Times(Times(2.0, far), near) / (near - far);
    Transpose(New(c / aspect, 0.0, 0.0, 0.0,
        0.0, c, 0.0, 0.0,
        0.0, 0.0, c2r2, c3r2,
        0.0, 0.0, -1.0, 0.0))
  }

  function Add(a: Matrix4f, b: Matrix4f): Matrix4f
  {
    Matrix4f(seq(16, k requires 0 <= k < 16 => a.data[k] + b.data[k]))
  }

  function Sub(a: Matrix4f, b: Matrix4f): Matrix4f
  {
    Matrix4f(seq(16, k requires 0 <= k < 16 => a.data[k] - b.data[k]))
  }

  /** The column that `*` AS WRITTEN multiplies row i of `a` by to get
      entry (i, j): column j of `b`, except that its last entry is entry
      (3, j) of `a` instead of `b`. */
  function MulColumn(a: Matrix4f, b: Matrix4f, j: nat): Vec4.Vector4f
    requires j < 4
  {
    Vec4.Vector4f(b.data[j], b.data[4 + j], b.data[8 + j], a.data[12 + j])
  }

  /** `*` AS WRITTEN. */
  function Mul(a: Matrix4f, b: Matrix4f): Matrix4f
  {
    Matrix4f(seq(16, k requires 0 <= k < 16 => Vec4.Dot(Row(a, k / 4), MulColumn(a, b, k % 4))))
  }

  /** The product `*` evidently intends: entry (i, j) is row i of `a`
      dotted with column j of `b`. */
  function MulTextbook(a: Matrix4f, b: Matrix4f): Matrix4f
  {
    Matrix4f(seq(16, k requires 0 <= k < 16 => Vec4.Dot(Row(a, k / 4), Col(b, k % 4))))
  }

  /** `From<Matrix4f> for [[f32; 4]; 4]`: the rows, in order. */
  function ToRows(m: Matrix4f): (r: seq<seq<real>>)
    ensures |r| == 4
    ensures forall i :: 0 <= i < 4 ==> r[i] == Vec4.ToArray(Row(m, i))
  {
    var d := m.data;
    [[d[0], d[1], d[2], d[3]],
     [d[4], d[5], d[6], d[7]],
     [d[8], d[9], d[10], d[11]],
     [d[12], d[13], d[14], d[15]]]
  }

  /** `PartialEq`: compares the sixteen entries in order and stops at the
      first difference. */
  method Equal(a: Matrix4f, b: Matrix4f) returns (r: bool)
    ensures r <==> a == b
  {
    var i := 0;
    while i < 16
      invariant 0 <= i <= 16
      invariant a.data[..i] == b.data[..i]
    {
      if a.data[i] != b.data[i] {
        return false;
      }
      i := i + 1;
    }
    assert a.data == a.data[..16];
    assert b.data == b.data[..16];
    return true;
  }

  // ---------------------------------------------------------------------
  // Entries, transpose, entrywise operations

  /** Two matrices that agree at each of the sixteen indices are equal. */
  lemma SameData(a: Matrix4f, b: Matrix4f)
    requires forall k :: 0 <= k < 16 ==> a.data[k] == b.data[k]
    ensures a == b
  {
    assert a.data == b.data;
  }

  /** Index 4 * i + j is row i and column j. */
  lemma IndexSplit(i: nat, j: nat)
    requires i < 4 && j < 4
    ensures (4 * i + j) / 4 == i && (4 * i + j) % 4 == j
  {
  }

  /** `one()` is all ones; the identity has 1.0 at indices 0, 5, 10 and 15
      and 0.0 elsewhere, as the repository's `test_identity` asserts. */
  lemma OneAndIdentityEntries()
    ensures forall k :: 0 <= k < 16 ==> One().data[k] == 1.0
    ensures forall k :: 0 <= k < 16 ==> Identity().data[k] == if k in {0, 5, 10, 15} then 1.0 else 0.0
  {
  }

  /** `scale(s)` multiplies each of the sixteen entries by `s`; `+` and `-`
      work entry by entry. */
  lemma EntrywiseOperations(a: Matrix4f, b: Matrix4f, s: real)
    ensures forall k :: 0 <= k < 16 ==> Scale(a, s).data[k] == Times(a.data[k], s)
    ensures forall k :: 0 <= k < 16 ==> Add(a, b).data[k] == a.data[k] + b.data[k]
    ensures forall k :: 0 <= k < 16 ==> Sub(a, b).data[k] == a.data[k] - b.data[k]
  {
  }

  /** Subtraction undoes addition, and addition commutes. */
  lemma AddSubCancel(a: Matrix4f, b: Matrix4f)
    ensures Sub(Add(a, b), b) == a
    ensures Add(a, b) == Add(b, a)
  {
    assert Sub(Add(a, b), b).data == a.data;
    assert Add(a, b).data == Add(b, a).data;
  }

  /** `transpose` turns each row into the column of the same index. */
  lemma TransposeRowsCols(m: Matrix4f)
    ensures forall i: nat | i < 4 :: Row(Transpose(m), i) == Col(m, i) && Col(Transpose(m), i) == Row(m, i)
  {
    assert Row(Transpose(m), 0) == Col(m, 0) && Col(Transpose(m), 0) == Row(m, 0);
    assert Row(Transpose(m), 1) == Col(m, 1) && Col(Transpose(m), 1) == Row(m, 1);
    assert Row(Transpose(m), 2) == Col(m, 2) && Col(Transpose(m), 2) == Row(m, 2);
    assert Row(Transpose(m), 3) == Col(m, 3) && Col(Transpose(m), 3) == Row(m, 3);
    forall i: nat | i < 4
      ensures Row(Transpose(m), i) == Col(m, i) && Col(Transpose(m), i) == Row(m, i)
    {
      assert i == 0 || i == 1 || i == 2 || i == 3;
    }
  }

  /** Transposing twice gives the matrix back. */
  lemma TransposeInvolution(m: Matrix4f)
    ensures Transpose(Transpose(m)) == m
  {
    assert Transpose(Transpose(m)).data == m.data;
  }

  /** The identity transforms every vector to itself. */
  lemma TransformIdentity(v: Vec4.Vector4f)
    ensures Transform(Identity(), v) == v
  {
    IdentityUnits();
    Vec4.DotUnits(v);
  }

  // ---------------------------------------------------------------------
  // Translation and scale

  /** A translation moves a point (w = 1) by `t` and leaves a direction
      (w = 0) unchanged. */
  lemma FromTranslationTransform(t: Vec3.Vector3f, p: Vec3.Vector3f)
    ensures Transform(FromTranslation(t), Vec4.Extend(p, 1.0)) == Vec4.Extend(Vec3.Add(p, t), 1.0)
    ensures Transform(FromTranslation(t), Vec4.Extend(p, 0.0)) == Vec4.Extend(p, 0.0)
  {
  }

  /** `from_scale(s)` is `from_scale_vec((s, s, s))`. */
  lemma FromScaleUniform(s: real)
    ensures FromScale(s) == FromScaleVec(Vec3.Vector3f(s, s, s))
  {
  }

  /** `from_scale_vec(s)` scales the x, y and z components of a vector by
      those of `s` and keeps w. */
  lemma FromScaleVecTransform(s: Vec3.Vector3f, p: Vec3.Vector3f, w: real)
    ensures Transform(FromScaleVec(s), Vec4.Extend(p, w))
         == Vec4.Extend(Vec3.Vector3f(Times(s.x, p.x), Times(s.y, p.y), Times(s.z, p.z)), w)
  {
  }

  // ---------------------------------------------------------------------
  // Rotations

  /** Each `_deg` constructor is its radian counterpart at `Rad(d)`. */
  lemma RotationDegrees(trig: Trig, d: real)
    ensures FromAngleXDeg(trig, d) == FromAngleX(trig, Angles.Rad(d))
    ensures FromAngleYDeg(trig, d) == FromAngleY(trig, Angles.Rad(d))
    ensures FromAngleZDeg(trig, d) == FromAngleZ(trig, Angles.Rad(d))
  {
  }

  /** The bottom row and the last column are those of the identity: the
      matrix acts on x, y and z alone and neither translates nor changes w. */
  predicate IsLinear3(m: Matrix4f)
  {
    Row(m, 3) == Vec4.Vector4f(0.0, 0.0, 0.0, 1.0) && Col(m, 3) == Vec4.Vector4f(0.0, 0.0, 0.0, 1.0)
  }

  /** Such a matrix keeps w and maps the x, y, z part of a vector
      independently of w. */
  lemma IsLinear3Transform(m: Matrix4f, p: Vec3.Vector3f, w: real)
    requires IsLinear3(m)
    ensures Transform(m, Vec4.Extend(p, w)).w == w
    ensures Vec4.Truncate(Transform(m, Vec4.Extend(p, w))) == Vec4.Truncate(Transform(m, Vec4.Extend(p, 0.0)))
  {
  }

  /** Rotations, scalings and the axis-angle matrices are all of that form. */
  lemma ConstructorsAreLinear3(trig: Trig, r: real, s: Vec3.Vector3f, x: real, y: real, z: real, zsin: real)
    ensures IsLinear3(FromAngleX(trig, r)) && IsLinear3(FromAngleY(trig, r)) && IsLinear3(FromAngleZ(trig, r))
    ensures IsLinear3(FromScaleVec(s)) && IsLinear3(AxisAngleWith(trig, x, y, z, r, zsin))
  {
  }

  /** The rotation about x keeps x and turns the y, z plane by r: the
      y axis goes to (0, cos r, sin r). */
  lemma RotationXTransform(trig: Trig, r: real, v: Vec4.Vector4f)
    ensures Transform(FromAngleX(trig, r), v)
         == Vec4.Vector4f(v.x, Times(trig.cos(r), v.y) - Times(trig.sin(r), v.z), Times(trig.sin(r), v.y) + Times(trig.cos(r), v.z), v.w)
  {
  }

  /** The rotation about y keeps y and turns the z, x plane by r: the
      z axis goes to (sin r, 0, cos r). */
  lemma RotationYTransform(trig: Trig, r: real, v: Vec4.Vector4f)
    ensures Transform(FromAngleY(trig, r), v)
         == Vec4.Vector4f(Times(trig.sin(r), v.z) + Times(trig.cos(r), v.x), v.y, Times(trig.cos(r), v.z) - Times(trig.sin(r), v.x), v.w)
  {
  }

  /** The rotation about z keeps z and turns the x, y plane by r: the
      x axis goes to (cos r, sin r, 0). */
  lemma RotationZTransform(trig: Trig, r: real, v: Vec4.Vector4f)
    ensures Transform(FromAngleZ(trig, r), v)
         == Vec4.Vector4f(Times(trig.cos(r), v.x) - Times(trig.sin(r), v.y), Times(trig.sin(r), v.x) + Times(trig.cos(r), v.y), v.z, v.w)
  {
  }

  /** At an angle whose cosine is 1 and sine 0 every rotation is the
      identity, whichever axis and whichever `zsin` term. */
  lemma RotationsAtZeroAngle(trig: Trig, r: real, x: real, y: real, z: real)
    requires trig.cos(r) == 1.0 && trig.sin(r) == 0.0
    ensures FromAngleX(trig, r) == Identity() && FromAngleY(trig, r) == Identity() && FromAngleZ(trig, r) == Identity()
    ensures FromAxisAngleComp(trig, x, y, z, r) == Identity() && FromAxisAngleRodrigues(trig, x, y, z, r) == Identity()
  {
  }

  /** When cos^2 + sin^2 = 1 the rotation about x keeps lengths. */
  lemma RotationXKeepsLength(trig: Trig, r: real, v: Vec4.Vector4f)
    requires trig.cos(r) * trig.cos(r) + trig.sin(r) * trig.sin(r) == 1.0
    ensures Vec4.MagnitudeSquared(Transform(FromAngleX(trig, r), v)) == Vec4.MagnitudeSquared(v)
  {
    var c, s := trig.cos(r), trig.sin(r);
    RotationPlaneLength(c, s, v.y, v.z);
  }

  /** When cos^2 + sin^2 = 1 the rotation about y keeps lengths. */
  lemma RotationYKeepsLength(trig: Trig, r: real, v: Vec4.Vector4f)
    requires trig.cos(r) * trig.cos(r) + trig.sin(r) * trig.sin(r) == 1.0
    ensures Vec4.MagnitudeSquared(Transform(FromAngleY(trig, r), v)) == Vec4.MagnitudeSquared(v)
  {
    var c, s := trig.cos(r), trig.sin(r);
    RotationPlaneLength(c, s, v.z, v.x);
  }

  /** When cos^2 + sin^2 = 1 the rotation about z keeps lengths. */
  lemma RotationZKeepsLength(trig: Trig, r: real, v: Vec4.Vector4f)
    requires trig.cos(r) * trig.cos(r) + trig.sin(r) * trig.sin(r) == 1.0
    ensures Vec4.MagnitudeSquared(Transform(FromAngleZ(trig, r), v)) == Vec4.MagnitudeSquared(v)
  {
    var c, s := trig.cos(r), trig.sin(r);
    RotationPlaneLength(c, s, v.x, v.y);
  }

  /** A plane rotation by (c, s) with c^2 + s^2 = 1 keeps u^2 + w^2. */
  lemma RotationPlaneLength(c: real, s: real, u: real, w: real)
    requires c * c + s * s == 1.0
    ensures Times(c * u - s * w, c * u - s * w) + Times(s * u + c * w, s * u + c * w) == Times(u, u) + Times(w, w)
  {
    assert (c * u - s * w) * (c * u - s * w) + (s * u + c * w) * (s * u + c * w) == (c * c + s * s) * (u * u + w * w);
  }

  // ---------------------------------------------------------------------
  // Axis-angle rotation

  /** As written, `from_axis_angle` is the rotation about x for the x axis. */
  lemma AxisAngleXAxis(trig: Trig, r: real)
    ensures FromAxisAngle(trig, Vec3.Vector3f(1.0, 0.0, 0.0), r) == FromAngleX(trig, r)
  {
  }

  /** As written, `from_axis_angle_comp` differs from the Rodrigues formula
      at entry (1, 0) alone, by (y - z) * sin r. */
  lemma AxisAngleDefect(trig: Trig, x: real, y: real, z: real, r: real)
    ensures FromAxisAngleComp(trig, x, y, z, r).data[4] - FromAxisAngleRodrigues(trig, x, y, z, r).data[4] == (y - z) * trig.sin(r)
    ensures forall k | 0 <= k < 16 && k != 4 :: FromAxisAngleComp(trig, x, y, z, r).data[k] == FromAxisAngleRodrigues(trig, x, y, z, r).data[k]
  {
  }

  /** As written, `from_axis_angle` about the z axis or the y axis is not the
      rotation about that axis whenever sin r is non-zero. */
  lemma AxisAngleCounterexample(trig: Trig, r: real)
    requires trig.sin(r) != 0.0
    ensures FromAxisAngle(trig, Vec3.Vector3f(0.0, 0.0, 1.0), r).data[4] == 0.0
    ensures FromAngleZ(trig, r).data[4] == trig.sin(r)
    ensures FromAxisAngle(trig, Vec3.Vector3f(0.0, 1.0, 0.0), r) != FromAngleY(trig, r)
  {
    assert FromAxisAngle(trig, Vec3.Vector3f(0.0, 1.0, 0.0), r).data[4] == trig.sin(r);
  }

  /** The corrected formula gives the rotation about each coordinate axis. */
  lemma RodriguesUnitAxes(trig: Trig, r: real)
    ensures FromAxisAngleRodrigues(trig, 1.0, 0.0, 0.0, r) == FromAngleX(trig, r)
    ensures FromAxisAngleRodrigues(trig, 0.0, 1.0, 0.0, r) == FromAngleY(trig, r)
    ensures FromAxisAngleRodrigues(trig, 0.0, 0.0, 1.0, r) == FromAngleZ(trig, r)
  {
  }

  /** The corrected matrix minus its transpose is 2 sin r times the
      cross-product matrix of the axis, and its symmetric part off the
      diagonal is (1 - cos r) times twice the products of axis components. */
  lemma RodriguesParts(trig: Trig, x: real, y: real, z: real, r: real)
    ensures var d := FromAxisAngleRodrigues(trig, x, y, z, r).data;
      d[4] - d[1] == 2.0 * z * trig.sin(r) && d[2] - d[8] == 2.0 * y * trig.sin(r) && d[9] - d[6] == 2.0 * x * trig.sin(r)
    ensures var d := FromAxisAngleRodrigues(trig, x, y, z, r).data;
      d[4] + d[1] == 2.0 * x * y * (1.0 - trig.cos(r)) && d[2] + d[8] == 2.0 * x * z * (1.0 - trig.cos(r))
      && d[9] + d[6] == 2.0 * y * z * (1.0 - trig.cos(r))
  {
  }

  /** Row 0 of the axis-angle matrix, whatever its `zsin` term. */
  lemma AxisAngleRow0(trig: Trig, x: real, y: real, z: real, r: real, zsin: real)
    ensures var c, s := trig.cos(r), trig.sin(r);
      Row(AxisAngleWith(trig, x, y, z, r, zsin), 0) == Vec4.Vector4f(c + Times(Times(x, x), 1.0 - c), Times(Times(x, y), 1.0 - c) - Times(z, s), Times(Times(x, z), 1.0 - c) + Times(y, s), 0.0)
  {
  }

  /** Row 1 of the axis-angle matrix: `zsin` is added at entry (1, 0). */
  lemma AxisAngleRow1(trig: Trig, x: real, y: real, z: real, r: real, zsin: real)
    ensures var c, s := trig.cos(r), trig.sin(r);
      Row(AxisAngleWith(trig, x, y, z, r, zsin), 1) == Vec4.Vector4f(Times(Times(x, y), 1.0 - c) + zsin, c + Times(Times(y, y), 1.0 - c), Times(Times(y, z), 1.0 - c) - Times(x, s), 0.0)
  {
  }

  /** Row 2 of the axis-angle matrix, whatever its `zsin` term. */
  lemma AxisAngleRow2(trig: Trig, x: real, y: real, z: real, r: real, zsin: real)
    ensures var c, s := trig.cos(r), trig.sin(r);
      Row(AxisAngleWith(trig, x, y, z, r, zsin), 2) == Vec4.Vector4f(Times(Times(x, z), 1.0 - c) - Times(y, s), Times(Times(y, z), 1.0 - c) + Times(x, s), c + Times(Times(z, z), 1.0 - c), 0.0)
  {
  }

  /** Row 3 of the axis-angle matrix is that of the identity. */
  lemma AxisAngleRow3(trig: Trig, x: real, y: real, z: real, r: real, zsin: real)
    ensures Row(AxisAngleWith(trig, x, y, z, r, zsin), 3) == Vec4.Vector4f(0.0, 0.0, 0.0, 1.0)
  {
  }

  /** The corrected matrix leaves a unit axis where it is. */
  lemma RodriguesFixesAxis(trig: Trig, x: real, y: real, z: real, r: real)
    requires x * x + y * y + z * z == 1.0
    ensures Transform(FromAxisAngleRodrigues(trig, x, y, z, r), Vec4.Vector4f(x, y, z, 0.0)) == Vec4.Vector4f(x, y, z, 0.0)
  {
    var m := FromAxisAngleRodrigues(trig, x, y, z, r);
    var c, s := trig.cos(r), trig.sin(r);
    AxisAngleRow0(trig, x, y, z, r, Times(z, s));
    AxisAngleRow1(trig, x, y, z, r, Times(z, s));
    AxisAngleRow2(trig, x, y, z, r, Times(z, s));
    AxisAngleRow3(trig, x, y, z, r, Times(z, s));
    Vec4.DotUnits(Vec4.Vector4f(x, y, z, 0.0));
    RodriguesRowsPlain(c, s, x, y, z);
    UnitAxisRow0(Row(m, 0), c, s, x, y, z);
    UnitAxisRow1(Row(m, 1), c, s, x, y, z);
    UnitAxisRow2(Row(m, 2), c, s, x, y, z);
  }

  /** The rows of the Rodrigues matrix with its products written out. */
  lemma RodriguesRowsPlain(c: real, s: real, x: real, y: real, z: real)
    ensures Vec4.Vector4f(c + Times(Times(x, x), 1.0 - c), Times(Times(x, y), 1.0 - c) - Times(z, s), Times(Times(x, z), 1.0 - c) + Times(y, s), 0.0)
         == Vec4.Vector4f(c + x * x * (1.0 - c), x * y * (1.0 - c) - z * s, x * z * (1.0 - c) + y * s, 0.0)
    ensures Vec4.Vector4f(Times(Times(x, y), 1.0 - c) + Times(z, s), c + Times(Times(y, y), 1.0 - c), Times(Times(y, z), 1.0 - c) - Times(x, s), 0.0)
         == Vec4.Vector4f(x * y * (1.0 - c) + z * s, c + y * y * (1.0 - c), y * z * (1.0 - c) - x * s, 0.0)
    ensures Vec4.Vector4f(Times(Times(x, z), 1.0 - c) - Times(y, s), Times(Times(y, z), 1.0 - c) + Times(x, s), c + Times(Times(z, z), 1.0 - c), 0.0)
         == Vec4.Vector4f(x * z * (1.0 - c) - y * s, y * z * (1.0 - c) + x * s, c + z * z * (1.0 - c), 0.0)
  {
  }

  /** Row 0 of the Rodrigues matrix times its unit axis (x, y, z): the
      terms in sin r cancel and the rest sum to cos r * x + (1 - cos r) * x. */
  lemma UnitAxisRow0(row: Vec4.Vector4f, c: real, s: real, x: real, y: real, z: real)
    requires x * x + y * y + z * z == 1.0
    requires row == Vec4.Vector4f(c + x * x * (1.0 - c), x * y * (1.0 - c) - z * s, x * z * (1.0 - c) + y * s, 0.0)
    ensures Vec4.Dot(row, Vec4.Vector4f(x, y, z, 0.0)) == x
  {
    var a := 1.0 - c;
    assert Vec4.Dot(row, Vec4.Vector4f(x, y, z, 0.0)) == (c + x * x * a) * x + (x * y * a - z * s) * y + (x * z * a + y * s) * z;
    assert (c + x * x * a) * x == c * x + x * x * x * a;
    assert (x * y * a - z * s) * y == x * y * y * a - y * z * s;
    assert (x * z * a + y * s) * z == x * z * z * a + y * z * s;
    assert x * x * x * a + x * y * y * a + x * z * z * a == x * a * (x * x + y * y + z * z);
    assert x * a * (x * x + y * y + z * z) == x * a;
  }

  /** Row 1 of the Rodrigues matrix times its unit axis gives y. */
  lemma UnitAxisRow1(row: Vec4.Vector4f, c: real, s: real, x: real, y: real, z: real)
    requires x * x + y * y + z * z == 1.0
    requires row == Vec4.Vector4f(x * y * (1.0 - c) + z * s, c + y * y * (1.0 - c), y * z * (1.0 - c) - x * s, 0.0)
    ensures Vec4.Dot(row, Vec4.Vector4f(x, y, z, 0.0)) == y
  {
    var a := 1.0 - c;
    assert Vec4.Dot(row, Vec4.Vector4f(x, y, z, 0.0)) == (x * y * a + z * s) * x + (c + y * y * a) * y + (y * z * a - x * s) * z;
    assert (x * y * a + z * s) * x == x * x * y * a + x * z * s;
    assert (c + y * y * a) * y == c * y + y * y * y * a;
    assert (y * z * a - x * s) * z == y * z * z * a - x * z * s;
    assert x * x * y * a + y * y * y * a + y * z * z * a == y * a * (x * x + y * y + z * z);
    assert y * a * (x * x + y * y + z * z) == y * a;
  }

  /** Row 2 of the Rodrigues matrix times its unit axis gives z. */
  lemma UnitAxisRow2(row: Vec4.Vector4f, c: real, s: real, x: real, y: real, z: real)
    requires x * x + y * y + z * z == 1.0
    requires row == Vec4.Vector4f(x * z * (1.0 - c) - y * s, y * z * (1.0 - c) + x * s, c + z * z * (1.0 - c), 0.0)
    ensures Vec4.Dot(row, Vec4.Vector4f(x, y, z, 0.0)) == z
  {
    var a := 1.0 - c;
    assert Vec4.Dot(row, Vec4.Vector4f(x, y, z, 0.0)) == (x * z * a - y * s) * x + (y * z * a + x * s) * y + (c + z * z * a) * z;
    assert (x * z * a - y * s) * x == x * x * z * a - x * y * s;
    assert (y * z * a + x * s) * y == y * y * z * a + x * y * s;
    assert (c + z * z * a) * z == c * z + z * z * z * a;
    assert x * x * z * a + y * y * z * a + z * z * z * a == z * a * (x * x + y * y + z * z);
    assert z * a * (x * x + y * y + z * z) == z * a;
  }

  /** For a unit axis and cos² + sin² = 1, the corrected axis-angle matrix
      keeps the length of every vector: it is a rotation. */
  lemma RodriguesKeepsLength(trig: Trig, x: real, y: real, z: real, r: real, p: Vec4.Vector4f)
    requires x * x + y * y + z * z == 1.0
    requires trig.cos(r) * trig.cos(r) + trig.sin(r) * trig.sin(r) == 1.0
    ensures Vec4.MagnitudeSquared(Transform(FromAxisAngleRodrigues(trig, x, y, z, r), p)) == Vec4.MagnitudeSquared(p)
  {
    var m := FromAxisAngleRodrigues(trig, x, y, z, r);
    var c, s := trig.cos(r), trig.sin(r);
    AxisAngleRow0(trig, x, y, z, r, Times(z, s));
    AxisAngleRow1(trig, x, y, z, r, Times(z, s));
    AxisAngleRow2(trig, x, y, z, r, Times(z, s));
    AxisAngleRow3(trig, x, y, z, r, Times(z, s));
    Vec4.DotUnits(p);
    RodriguesRowsPlain(c, s, x, y, z);
    RodriguesRowAction0(Row(m, 0), c, s, x, y, z, p);
    RodriguesRowAction1(Row(m, 1), c, s, x, y, z, p);
    RodriguesRowAction2(Row(m, 2), c, s, x, y, z, p);
    var q := Transform(m, p);
    assert q.w == p.w;
    RotatedLength(c, s, x, y, z, p.x, p.y, p.z);
    assert SquaredSum(q.x, q.y, q.z) == SquaredSum(p.x, p.y, p.z);
  }

  /** Row 0 of the Rodrigues matrix applied to p: c p + s (k × p) +
      (1 - c)(k · p) k, first component. */
  lemma RodriguesRowAction0(row: Vec4.Vector4f, c: real, s: real, x: real, y: real, z: real, p: Vec4.Vector4f)
    requires row == Vec4.Vector4f(c + x * x * (1.0 - c), x * y * (1.0 - c) - z * s, x * z * (1.0 - c) + y * s, 0.0)
    ensures Vec4.Dot(row, p) == c * p.x + (1.0 - c) * (x * p.x + y * p.y + z * p.z) * x + s * (y * p.z - z * p.y)
  {
    var a, u, v, w := 1.0 - c, p.x, p.y, p.z;
    assert Vec4.Dot(row, p) == (c + x * x * a) * u + (x * y * a - z * s) * v + (x * z * a + y * s) * w;
    assert (c + x * x * a) * u == c * u + x * x * u * a;
    assert (x * y * a - z * s) * v == x * y * v * a - z * v * s;
    assert (x * z * a + y * s) * w == x * z * w * a + y * w * s;
    assert a * (x * u + y * v + z * w) * x == x * x * u * a + x * y * v * a + x * z * w * a;
    assert s * (y * w - z * v) == y * w * s - z * v * s;
  }

  /** Row 1 of the Rodrigues matrix applied to p, second component. */
  lemma RodriguesRowAction1(row: Vec4.Vector4f, c: real, s: real, x: real, y: real, z: real, p: Vec4.Vector4f)
    requires row == Vec4.Vector4f(x * y * (1.0 - c) + z * s, c + y * y * (1.0 - c), y * z * (1.0 - c) - x * s, 0.0)
    ensures Vec4.Dot(row, p) == c * p.y + (1.0 - c) * (x * p.x + y * p.y + z * p.z) * y + s * (z * p.x - x * p.z)
  {
    var a, u, v, w := 1.0 - c, p.x, p.y, p.z;
    assert Vec4.Dot(row, p) == (x * y * a + z * s) * u + (c + y * y * a) * v + (y * z * a - x * s) * w;
    assert (x * y * a + z * s) * u == x * y * u * a + z * u * s;
    assert (c + y * y * a) * v == c * v + y * y * v * a;
    assert (y * z * a - x * s) * w == y * z * w * a - x * w * s;
    assert a * (x * u + y * v + z * w) * y == x * y * u * a + y * y * v * a + y * z * w * a;
    assert s * (z * u - x * w) == z * u * s - x * w * s;
  }

  /** Row 2 of the Rodrigues matrix applied to p, third component. */
  lemma RodriguesRowAction2(row: Vec4.Vector4f, c: real, s: real, x: real, y: real, z: real, p: Vec4.Vector4f)
    requires row == Vec4.Vector4f(x * z * (1.0 - c) - y * s, y * z * (1.0 - c) + x * s, c + z * z * (1.0 - c), 0.0)
    ensures Vec4.Dot(row, p) == c * p.z + (1.0 - c) * (x * p.x + y * p.y + z * p.z) * z + s * (x * p.y - y * p.x)
  {
    var a, u, v, w := 1.0 - c, p.x, p.y, p.z;
    assert Vec4.Dot(row, p) == (x * z * a - y * s) * u + (y * z * a + x * s) * v + (c + z * z * a) * w;
    assert (x * z * a - y * s) * u == x * z * u * a - y * u * s;
    assert (y * z * a + x * s) * v == y * z * v * a + x * v * s;
    assert (c + z * z * a) * w == c * w + z * z * w * a;
    assert a * (x * u + y * v + z * w) * z == x * z * u * a + y * z * v * a + z * z * w * a;
    assert s * (x * v - y * u) == x * v * s - y * u * s;
  }

  /** a² + b² + c², the squared length of (a, b, c). */
  function SquaredSum(a: real, b: real, c: real): real
  {
    a * a + b * b + c * c
  }

  /** c² |p|² + e² + s² (|p|² - d²) + 2 c e d, the squared length of
      c p + e k + s (k × p) for a unit k with d = k · p and pp = |p|². */
  function RotatedSquare(c: real, s: real, d: real, e: real, pp: real): real
  {
    c * c * pp + e * e + s * s * (pp - d * d) + 2.0 * c * e * d
  }

  /** |c p + s (k × p) + (1 - c)(k · p) k|² = |p|² for a unit k and
      c² + s² = 1, written out on coordinates. */
  lemma RotatedLength(c: real, s: real, x: real, y: real, z: real, u: real, v: real, w: real)
    requires x * x + y * y + z * z == 1.0
    requires c * c + s * s == 1.0
    ensures var d, a := x * u + y * v + z * w, 1.0 - c;
      var q0 := c * u + a * d * x + s * (y * w - z * v);
      var q1 := c * v + a * d * y + s * (z * u - x * w);
      var q2 := c * w + a * d * z + s * (x * v - y * u);
      SquaredSum(q0, q1, q2) == SquaredSum(u, v, w)
  {
    var d, a := x * u + y * v + z * w, 1.0 - c;
    var pp := u * u + v * v + w * w;
    RotatedExpansion(c, s, x, y, z, u, v, w, d, a * d, pp);
    RotationAlgebra(c, s, a, d, a * d, pp);
  }

  /** |c p + e k + s (k × p)|² for a unit k, in terms of |p|² and d = k · p:
      k × p is orthogonal to both k and p, and |k × p|² = |p|² - d². */
  lemma RotatedExpansion(c: real, s: real, x: real, y: real, z: real, u: real, v: real, w: real,
                         d: real, e: real, pp: real)
    requires x * x + y * y + z * z == 1.0
    requires d == x * u + y * v + z * w && pp == u * u + v * v + w * w
    ensures SquaredSum(c * u + e * x + s * (y * w - z * v), c * v + e * y + s * (z * u - x * w),
                       c * w + e * z + s * (x * v - y * u))
         == RotatedSquare(c, s, d, e, pp)
  {
    var m0, m1, m2 := y * w - z * v, z * u - x * w, x * v - y * u;
    Lagrange(x, y, z, u, v, w);
    assert SquaredSum(x, y, z) == 1.0 && SquaredSum(u, v, w) == pp;
    assert SquaredSum(x, y, z) * SquaredSum(u, v, w) == pp;
    assert SquaredSum(m0, m1, m2) == pp - d * d;
    assert u * m0 + v * m1 + w * m2 == 0.0;
    assert x * m0 + y * m1 + z * m2 == 0.0;
    SumOfThreeTerms(c, e, s, u, v, w, x, y, z, m0, m1, m2);
  }

  /** The scalar step of `RotatedLength`: with a = 1 - c and e = a d, the
      terms in d² cancel and c² + s² = 1 leaves |p|². */
  lemma RotationAlgebra(c: real, s: real, a: real, d: real, e: real, pp: real)
    requires c * c + s * s == 1.0 && a == 1.0 - c && e == a * d
    ensures RotatedSquare(c, s, d, e, pp) == pp
  {
    assert c * c * pp + s * s * pp == (c * c + s * s) * pp;
    assert e * e == (a * a) * (d * d);
    assert 2.0 * c * e * d == (2.0 * c * a) * (d * d);
    assert a * a + 2.0 * c * a == 1.0 - c * c;
    assert s * s * (pp - d * d) == s * s * pp - (s * s) * (d * d);
    assert (a * a) * (d * d) + (2.0 * c * a) * (d * d) == (a * a + 2.0 * c * a) * (d * d);
  }

  /** Lagrange's identity: |k × p|² = |k|² |p|² - (k · p)². */
  lemma Lagrange(x: real, y: real, z: real, u: real, v: real, w: real)
    ensures SquaredSum(y * w - z * v, z * u - x * w, x * v - y * u)
         == SquaredSum(x, y, z) * SquaredSum(u, v, w) - (x * u + y * v + z * w) * (x * u + y * v + z * w)
  {
  }

  /** |c p + e k + s m|² expanded into squared lengths and dot products. */
  lemma SumOfThreeTerms(c: real, e: real, s: real, u: real, v: real, w: real,
                        x: real, y: real, z: real, m0: real, m1: real, m2: real)
    ensures SquaredSum(c * u + e * x + s * m0, c * v + e * y + s * m1, c * w + e * z + s * m2)
         == c * c * SquaredSum(u, v, w) + e * e * SquaredSum(x, y, z) + s * s * SquaredSum(m0, m1, m2)
          + 2.0 * c * e * (x * u + y * v + z * w) + 2.0 * c * s * (u * m0 + v * m1 + w * m2)
          + 2.0 * e * s * (x * m0 + y * m1 + z * m2)
  {
  }

  /** As written, the axis-angle matrix about (0, 0, 1) sends (1, 0, 0, 0)
      to (cos r, 0, 0, 0), which is shorter whenever sin r is not 0: it is
      not a rotation. */
  lemma AxisAngleShrinks(trig: Trig, r: real)
    requires trig.sin(r) != 0.0
    requires trig.cos(r) * trig.cos(r) + trig.sin(r) * trig.sin(r) == 1.0
    ensures Transform(FromAxisAngle(trig, Vec3.Vector3f(0.0, 0.0, 1.0), r), Vec4.Vector4f(1.0, 0.0, 0.0, 0.0))
         == Vec4.Vector4f(trig.cos(r), 0.0, 0.0, 0.0)
    ensures Vec4.MagnitudeSquared(Transform(FromAxisAngle(trig, Vec3.Vector3f(0.0, 0.0, 1.0), r), Vec4.Vector4f(1.0, 0.0, 0.0, 0.0)))
         != Vec4.MagnitudeSquared(Vec4.Vector4f(1.0, 0.0, 0.0, 0.0))
  {
    AxisAngleZUnitX(trig, r);
    ShorterWhenSinNonZero(trig.cos(r), trig.sin(r));
  }

  /** The axis-angle matrix about (0, 0, 1), as written, sends (1, 0, 0, 0)
      to (cos r, 0, 0, 0). */
  lemma AxisAngleZUnitX(trig: Trig, r: real)
    ensures Transform(FromAxisAngle(trig, Vec3.Vector3f(0.0, 0.0, 1.0), r), Vec4.Vector4f(1.0, 0.0, 0.0, 0.0))
         == Vec4.Vector4f(trig.cos(r), 0.0, 0.0, 0.0)
  {
    var m := FromAxisAngle(trig, Vec3.Vector3f(0.0, 0.0, 1.0), r);
    assert m == AxisAngleWith(trig, 0.0, 0.0, 1.0, r, Times(0.0, trig.sin(r)));
    AxisAngleZColumn0(trig, r, Times(0.0, trig.sin(r)));
    TransformUnitX(m);
  }

  /** Column 0 of the axis-angle matrix about (0, 0, 1), when its `zsin`
      term is 0. */
  lemma AxisAngleZColumn0(trig: Trig, r: real, zsin: real)
    requires zsin == 0.0
    ensures Col(AxisAngleWith(trig, 0.0, 0.0, 1.0, r, zsin), 0) == Vec4.Vector4f(trig.cos(r), 0.0, 0.0, 0.0)
  {
  }

  /** Transforming the first unit vector picks out column 0. */
  lemma TransformUnitX(m: Matrix4f)
    ensures Transform(m, Vec4.Vector4f(1.0, 0.0, 0.0, 0.0)) == Col(m, 0)
  {
    Vec4.DotUnits(Row(m, 0));
    Vec4.DotUnits(Row(m, 1));
    Vec4.DotUnits(Row(m, 2));
    Vec4.DotUnits(Row(m, 3));
  }

  /** (c, 0, 0, 0) is shorter than a unit vector when c² + s² = 1, s ≠ 0. */
  lemma ShorterWhenSinNonZero(c: real, s: real)
    requires s != 0.0 && c * c + s * s == 1.0
    ensures Vec4.MagnitudeSquared(Vec4.Vector4f(c, 0.0, 0.0, 0.0)) != Vec4.MagnitudeSquared(Vec4.Vector4f(1.0, 0.0, 0.0, 0.0))
  {
    assert Times(c, c) + Times(s, s) == 1.0;
    SquarePositive(s);
    assert Times(c, c) < 1.0;
  }

  // ---------------------------------------------------------------------
  // View and projection

  /** The columns of `look_at_rh` are the right, up and backward axes, each
      closed by minus its component along the eye position; the last
      column is (0, 0, 0, 1). */
  lemma LookAtRhColumns(normalize: Vec3.Vector3f -> Vec3.Vector3f,
                        eye: Vec3.Vector3f, center: Vec3.Vector3f, up: Vec3.Vector3f)
    ensures var (xa, ya, za) := LookAtAxes(normalize, eye, center, up);
      var m := LookAtRh(normalize, eye, center, up);
      Col(m, 0) == Vec4.Extend(xa, -Vec3.Dot(eye, xa))
      && Col(m, 1) == Vec4.Extend(ya, -Vec3.Dot(eye, ya))
      && Col(m, 2) == Vec4.Vector4f(-za.x, -za.y, -za.z, Vec3.Dot(eye, za))
      && Col(m, 3) == Vec4.Vector4f(0.0, 0.0, 0.0, 1.0)
  {
    var (xa, ya, za) := LookAtAxes(normalize, eye, center, up);
    TransposeRowsCols(New(xa.x, xa.y, xa.z, -Vec3.Dot(eye, xa),
        ya.x, ya.y, ya.z, -Vec3.Dot(eye, ya),
        -za.x, -za.y, -za.z, Vec3.Dot(eye, za),
        0.0, 0.0, 0.0, 1.0));
  }

  /** Transposed back, the view matrix takes the eye to the origin. */
  lemma LookAtRhEyeToOrigin(normalize: Vec3.Vector3f -> Vec3.Vector3f,
                            eye: Vec3.Vector3f, center: Vec3.Vector3f, up: Vec3.Vector3f)
    ensures Transform(Transpose(LookAtRh(normalize, eye, center, up)), Vec4.Extend(eye, 1.0)) == Vec4.Vector4f(0.0, 0.0, 0.0, 1.0)
  {
    var (xa, ya, za) := LookAtAxes(normalize, eye, center, up);
    var n := New(xa.x, xa.y, xa.z, -Vec3.Dot(eye, xa),
        ya.x, ya.y, ya.z, -Vec3.Dot(eye, ya),
        -za.x, -za.y, -za.z, Vec3.Dot(eye, za),
        0.0, 0.0, 0.0, 1.0);
    assert Transpose(LookAtRh(normalize, eye, center, up)) == n;
    assert Row(n, 0) == Vec4.Extend(xa, -Vec3.Dot(eye, xa));
    assert Row(n, 1) == Vec4.Extend(ya, -Vec3.Dot(eye, ya));
    assert Row(n, 2) == Vec4.Extend(Vec3.Sub(Vec3.Zero(), za), Vec3.Dot(eye, za));
    Vec4.ExtendAdd(xa, eye, -Vec3.Dot(eye, xa), 1.0);
    Vec4.ExtendAdd(ya, eye, -Vec3.Dot(eye, ya), 1.0);
    Vec4.ExtendAdd(Vec3.Sub(Vec3.Zero(), za), eye, Vec3.Dot(eye, za), 1.0);
    Vec3.DotSymmetric(eye, xa);
    Vec3.DotSymmetric(eye, ya);
    Vec3.DotSymmetric(eye, za);
  }

  /** The entries of `perspective`: c / aspect, c, the two depth terms and
      -1, with c = 1 / tan(fovy / 2), and zero everywhere else. */
  lemma PerspectiveEntries(trig: Trig, fovy: real, aspect: real, near: real, far: real)
    requires trig.tan(fovy / 2.0) != 0.0 && aspect != 0.0 && near != far
    ensures var m, c := Perspective(trig, fovy, aspect, near, far), 1.0 / trig.tan(fovy / 2.0);
      m.data[0] == c / aspect && m.data[5] == c
      && m.data[10] == (far + near) / (near - far) && m.data[14] == Times(Times(2.0, far), near) / (near - far)
      && m.data[11] == -1.0
    ensures var m := Perspective(trig, fovy, aspect, near, far);
      forall k | 0 <= k < 16 && k !in {0, 5, 10, 11, 14} :: m.data[k] == 0.0
  {
  }

  /** Transposed back, the projection sends a point on the near plane
      (z = -near) to clip depth -w and one on the far plane (z = -far) to
      clip depth +w, with w the distance in front of the eye. */
  lemma PerspectiveDepthRange(trig: Trig, fovy: real, aspect: real, near: real, far: real, x: real, y: real)
    requires trig.tan(fovy / 2.0) != 0.0 && aspect != 0.0 && near != far
    ensures var p := Transpose(Perspective(trig, fovy, aspect, near, far));
      var n := Transform(p, Vec4.Vector4f(x, y, -near, 1.0));
      n.z == -near && n.w == near
    ensures var p := Transpose(Perspective(trig, fovy, aspect, near, far));
      var f := Transform(p, Vec4.Vector4f(x, y, -far, 1.0));
      f.z == far && f.w == far
  {
    var c := 1.0 / trig.tan(fovy / 2.0);
    var c2r2 := (far + near) / (near - far);
    var c3r2 := Times(Times(2.0, far), near) / (near - far);
    var q := New(c / aspect, 0.0, 0.0, 0.0,
        0.0, c, 0.0, 0.0,
        0.0, 0.0, c2r2, c3r2,
        0.0, 0.0, -1.0, 0.0);
    assert Transpose(Perspective(trig, fovy, aspect, near, far)) == q;
    DepthTerms(near, far);
  }

  /** The two depth terms of `perspective` at z = -near and z = -far. */
  lemma DepthTerms(near: real, far: real)
    requires near != far
    ensures Times((far + near) / (near - far), -near) + Times(Times(2.0, far), near) / (near - far) == -near
    ensures Times((far + near) / (near - far), -far) + Times(Times(2.0, far), near) / (near - far) == far
  {
    var d := near - far;
    assert (far + near) / d * -near + 2.0 * far * near / d == (-(far + near) * near + 2.0 * far * near) / d;
    assert -(far + near) * near + 2.0 * far * near == -near * d;
    assert (far + near) / d * -far + 2.0 * far * near / d == (-(far + near) * far + 2.0 * far * near) / d;
    assert -(far + near) * far + 2.0 * far * near == far * d;
  }

  // ---------------------------------------------------------------------
  // The product as written and the textbook product

  /** Entry (i, j) of each product is row i of `a` times the column the
      product uses. */
  lemma MulEntries(a: Matrix4f, b: Matrix4f, i: nat, j: nat)
    requires i < 4 && j < 4
    ensures Entry(Mul(a, b), i, j) == Vec4.Dot(Row(a, i), MulColumn(a, b, j))
    ensures Entry(MulTextbook(a, b), i, j) == Vec4.Dot(Row(a, i), Col(b, j))
  {
    IndexSplit(i, j);
  }

  /** Two matrices that agree entry by entry are equal. */
  lemma SameEntries(a: Matrix4f, b: Matrix4f)
    requires forall i: nat, j: nat | i < 4 && j < 4 :: Entry(a, i, j) == Entry(b, i, j)
    ensures a == b
  {
    forall k | 0 <= k < 16
      ensures a.data[k] == b.data[k]
    {
      IndexSplit(k / 4, k % 4);
      assert Entry(a, k / 4, k % 4) == Entry(b, k / 4, k % 4);
    }
    SameData(a, b);
  }

  /** The product as written differs from the textbook product only in the
      last component of the column it multiplies by: it agrees exactly when
      the last column of `a` is zero or `a` and `b` have the same bottom row. */
  lemma MulMatchesTextbook(a: Matrix4f, b: Matrix4f)
    ensures Mul(a, b) == MulTextbook(a, b) <==> (Col(a, 3) == Vec4.Zero() || Row(a, 3) == Row(b, 3))
  {
    if Col(a, 3) == Vec4.Zero() || Row(a, 3) == Row(b, 3) {
      forall i: nat, j: nat | i < 4 && j < 4
        ensures Entry(Mul(a, b), i, j) == Entry(MulTextbook(a, b), i, j)
      {
        MulEntries(a, b, i, j);
        assert a.data[4 * i + 3] == 0.0 || MulColumn(a, b, j) == Col(b, j);
      }
      SameEntries(Mul(a, b), MulTextbook(a, b));
    } else {
      var i: nat := if a.data[3] != 0.0 then 0 else if a.data[7] != 0.0 then 1 else if a.data[11] != 0.0 then 2 else 3;
      var j: nat := if a.data[12] != b.data[12] then 0 else if a.data[13] != b.data[13] then 1 else if a.data[14] != b.data[14] then 2 else 3;
      MulEntries(a, b, i, j);
      if Entry(Mul(a, b), i, j) == Entry(MulTextbook(a, b), i, j) {
        TimesCancel(a.data[4 * i + 3], a.data[12 + j], b.data[12 + j]);
      }
    }
  }

  /** The rows and the columns of the identity are the unit vectors. */
  lemma IdentityUnits()
    ensures Row(Identity(), 0) == Col(Identity(), 0) == Vec4.Vector4f(1.0, 0.0, 0.0, 0.0)
    ensures Row(Identity(), 1) == Col(Identity(), 1) == Vec4.Vector4f(0.0, 1.0, 0.0, 0.0)
    ensures Row(Identity(), 2) == Col(Identity(), 2) == Vec4.Vector4f(0.0, 0.0, 1.0, 0.0)
    ensures Row(Identity(), 3) == Col(Identity(), 3) == Vec4.Vector4f(0.0, 0.0, 0.0, 1.0)
  {
  }

  /** The identity is a left identity of the textbook product. */
  lemma MulTextbookIdentityLeft(m: Matrix4f)
    ensures MulTextbook(Identity(), m) == m
  {
    IdentityUnits();
    forall i: nat, j: nat | i < 4 && j < 4
      ensures Entry(MulTextbook(Identity(), m), i, j) == Entry(m, i, j)
    {
      MulEntries(Identity(), m, i, j);
      Vec4.DotUnits(Col(m, j));
      assert i == 0 || i == 1 || i == 2 || i == 3;
    }
    SameEntries(MulTextbook(Identity(), m), m);
  }

  /** The identity is a right identity of the textbook product. */
  lemma MulTextbookIdentityRight(m: Matrix4f)
    ensures MulTextbook(m, Identity()) == m
  {
    IdentityUnits();
    forall i: nat, j: nat | i < 4 && j < 4
      ensures Entry(MulTextbook(m, Identity()), i, j) == Entry(m, i, j)
    {
      MulEntries(m, Identity(), i, j);
      Vec4.DotUnits(Row(m, i));
      assert j == 0 || j == 1 || j == 2 || j == 3;
    }
    SameEntries(MulTextbook(m, Identity()), m);
  }

  /** `identity * m` AS WRITTEN always has bottom row (0, 0, 0, 1): the
      bottom row of the identity picks the last components of the columns
      it multiplies by, and those come from the identity itself. */
  lemma MulIdentityBottomRow(m: Matrix4f)
    ensures Row(Mul(Identity(), m), 3) == Vec4.Vector4f(0.0, 0.0, 0.0, 1.0)
  {
    var r := Row(Identity(), 3);
    assert r == Vec4.Vector4f(0.0, 0.0, 0.0, 1.0);
    MulEntries(Identity(), m, 3, 0);
    MulEntries(Identity(), m, 3, 1);
    MulEntries(Identity(), m, 3, 2);
    MulEntries(Identity(), m, 3, 3);
    Vec4.DotUnits(MulColumn(Identity(), m, 0));
    Vec4.DotUnits(MulColumn(Identity(), m, 1));
    Vec4.DotUnits(MulColumn(Identity(), m, 2));
    Vec4.DotUnits(MulColumn(Identity(), m, 3));
  }

  /** Hence `identity * m` AS WRITTEN is `m` exactly when `m`'s bottom row
      is (0, 0, 0, 1). */
  lemma MulIdentityLeft(m: Matrix4f)
    ensures Mul(Identity(), m) == m <==> Row(m, 3) == Vec4.Vector4f(0.0, 0.0, 0.0, 1.0)
  {
    MulIdentityBottomRow(m);
    MulTextbookIdentityLeft(m);
    IdentityUnits();
    MulMatchesTextbook(Identity(), m);
  }

  /** Transforming by a textbook product is transforming by the right
      factor, then by the left one. */
  lemma MulTextbookTransform(a: Matrix4f, b: Matrix4f, v: Vec4.Vector4f)
    ensures Transform(MulTextbook(a, b), v) == Transform(a, Transform(b, v))
  {
    forall i: nat, j: nat | i < 4 && j < 4
      ensures Entry(MulTextbook(a, b), i, j) == Vec4.Dot(Row(a, i), Col(b, j))
    {
      MulEntries(a, b, i, j);
    }
    RowTimesProduct(Row(a, 0), b, v);
    RowTimesProduct(Row(a, 1), b, v);
    RowTimesProduct(Row(a, 2), b, v);
    RowTimesProduct(Row(a, 3), b, v);
  }

  /** A row `p` times `b`, then times `v`, is `p` times the transform of
      `v` by `b`: the row of the product is a combination of the rows of `b`. */
  lemma RowTimesProduct(p: Vec4.Vector4f, b: Matrix4f, v: Vec4.Vector4f)
    ensures Vec4.Dot(Vec4.Vector4f(Vec4.Dot(p, Col(b, 0)), Vec4.Dot(p, Col(b, 1)), Vec4.Dot(p, Col(b, 2)), Vec4.Dot(p, Col(b, 3))), v)
         == Vec4.Dot(p, Transform(b, v))
  {
    var s0, s1, s2, s3 := Vec4.Scale(Row(b, 0), p.x), Vec4.Scale(Row(b, 1), p.y), Vec4.Scale(Row(b, 2), p.z), Vec4.Scale(Row(b, 3), p.w);
    assert Vec4.Vector4f(Vec4.Dot(p, Col(b, 0)), Vec4.Dot(p, Col(b, 1)), Vec4.Dot(p, Col(b, 2)), Vec4.Dot(p, Col(b, 3)))
        == Vec4.Add(Vec4.Add(Vec4.Add(s0, s1), s2), s3);
    Vec4.DotAdd(Vec4.Add(Vec4.Add(s0, s1), s2), s3, v);
    Vec4.DotAdd(Vec4.Add(s0, s1), s2, v);
    Vec4.DotAdd(s0, s1, v);
    Vec4.DotScale(Row(b, 0), v, p.x);
    Vec4.DotScale(Row(b, 1), v, p.y);
    Vec4.DotScale(Row(b, 2), v, p.z);
    Vec4.DotScale(Row(b, 3), v, p.w);
    var t := Transform(b, v);
    TimesCommutative(t.x, p.x);
    TimesCommutative(t.y, p.y);
    TimesCommutative(t.z, p.z);
    TimesCommutative(t.w, p.w);
  }

  /** A translation by (1, 0, 0) times the identity scaled by 2: the
      product as written has 1 at entry (0, 3), the textbook product 2. */
  lemma MulCounterexample()
    ensures Mul(FromTranslation(Vec3.Vector3f(1.0, 0.0, 0.0)), Scale(Identity(), 2.0)).data[3] == 1.0
    ensures MulTextbook(FromTranslation(Vec3.Vector3f(1.0, 0.0, 0.0)), Scale(Identity(), 2.0)).data[3] == 2.0
  {
    var a, b := FromTranslation(Vec3.Vector3f(1.0, 0.0, 0.0)), Scale(Identity(), 2.0);
    MulEntries(a, b, 0, 3);
  }

  // ---------------------------------------------------------------------
  // In-place operators

  /** A `Matrix4f` place that `+=`, `-=` and `*=` overwrite (`&mut self`);
      each assignment replaces its `Vec` of entries. */
  class Matrix4fMut {
    var data: Entries16

    function Value(): Matrix4f
      reads this
    {
      Matrix4f(data)
    }

    constructor (m: Matrix4f)
      ensures Value() == m
    {
      data := m.data;
    }

    /** `AddAssign`: the new value is the sum of the old value and `other`. */
    method AddAssign(other: Matrix4f)
      modifies this
      ensures Value() == Add(old(Value()), other)
    {
      data := Add(Value(), other).data;
    }

    /** `SubAssign`: the new value is the old value minus `other`. */
    method SubAssign(other: Matrix4f)
      modifies this
      ensures Value() == Sub(old(Value()), other)
    {
      data := Sub(Value(), other).data;
    }

    /** `MulAssign`: the new value is the old value times `other`, with the
      product as written. */
    method MulAssign(other: Matrix4f)
      modifies this
      ensures Value() == Mul(old(Value()), other)
    {
      data := Mul(Value(), other).data;
    }
  }
}
