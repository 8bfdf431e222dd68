# ember_math core: vectors, matrices and angles in Dafny

This project models the linear-algebra core of the `ember_math` crate:

- the value types `Vector2f`, `Vector3f`, `Vector4f`, `Matrix3f` and `Matrix4f`;
- their operators `+`, `-`, `*` and the in-place `+=`, `-=`, `*=`;
- the transformation constructors of `Matrix4f`: translation, scale, rotations about the axes and about an arbitrary axis, the right-handed look-at view and the perspective projection;
- the degree/radian conversions of `angles.rs`.

There is one Dafny module per source file:

| module | file |
|---|---|
| `Angles` | `angles.dfy` |
| `Vec2` | `vector2f.dfy` |
| `Vec3` | `vector3f.dfy` |
| `Vec4` | `vector4f.dfy` |
| `Mat3` | `matrix3f.dfy` |
| `Mat4` | `matrix4f.dfy` |

`F32` in `f32.dfy` holds the scalar multiplication that every module shares.

Modelling choices:

- **Scalars.** `f32` is modelled as `real`, so every result is the exact value that single-precision arithmetic approximates.
  - Every product is written `F32.Times(x, y)`, so that the same product met in two definitions is one term.
- **Pi.** `Angles.PI` is the exact value of the single-precision constant `std::f32::consts::PI`.
- **Functions supplied as parameters.**
  - `sin`, `cos` and `tan` are the fields of the `Mat4.Trig` parameter. The rotation and projection constructors receive them, and no property of the trigonometric functions is assumed.
  - A lemma that needs `cos² + sin² = 1` or `cos = 1, sin = 0` states it as a precondition.
  - `Vector3f::normalize`, used by `look_at_rh`, is a function parameter of `LookAtRh`.
- **Value types.** Vectors and matrices are datatypes, because the source passes them by value.
  - `Matrix3f` holds its `[f32; 9]` as a sequence of exactly nine entries.
  - `Matrix4f` holds its `Vec<f32>` as `Entries16`, a sequence of exactly sixteen entries.
  - Both are stored row-major, as in the source.
- **In-place operators.** The `&mut self` operators are methods of small classes that own the fields being overwritten: `Vec2.Vector2fMut`, `Vec3.Vector3fMut`, `Vec4.Vector4fMut`, `Mat3.Matrix3fMut` and `Mat4.Matrix4fMut`.
  - `Matrix3fMut` keeps its nine entries in an `array<real>`, the counterpart of the fixed-size `[f32; 9]`.
  - `Matrix4fMut` reassigns its whole `Vec` of entries.
- **Transposed storage.** `look_at_rh` and `perspective` build their matrix and then return its transpose. `LookAtRhColumns` and `PerspectiveEntries` describe the stored matrix. `LookAtRhEyeToOrigin` and `PerspectiveDepthRange` apply `Transpose` once more, and describe the matrix before that transpose, acting on column vectors.
- **`extend`.** `Vector3f::extend` builds a `Vector4f`, so it is modelled in `Vec4` beside its inverse `truncate`. That keeps the two modules free of an import cycle.

`look_at_rh` stores the translation in the bottom row, because it transposes after building.

## Model

| member | source | states |
|---|---|---|
| Angles.Deg | src/core/angles.rs:3-6 | the result in degrees times PI equals the angle in radians times 180 |
| Angles.Rad | src/core/angles.rs:8-11 | the result in radians times 180 equals the angle in degrees times PI |
| Angles.RadOfDeg | src/core/angles.rs:3-11 | converting radians to degrees and back returns the original angle |
| Angles.DegOfRad | src/core/angles.rs:3-11 | converting degrees to radians and back returns the original angle |
| Angles.HalfTurn | src/core/angles.rs:3-11 | 180 degrees is PI radians and PI radians is 180 degrees |
| Angles.ConversionsAreLinear | src/core/angles.rs:3-11 | both conversions are additive, homogeneous and map 0 to 0 |
| Vec2.MagnitudeSquared | src/core/vector2f.rs:46-50 | the squared length is the dot product of the vector with itself and is never negative |
| Vec2.Equal | src/core/vector2f.rs:116-120 | `==` holds exactly when the two vectors are the same value |
| Vec2.ToArray | src/core/vector2f.rs:110-114 | the array has two entries, and rebuilding a vector from them gives the original |
| Vec2.DotSymmetric | src/core/vector2f.rs:42-44 | the dot product is symmetric |
| Vec2.DotAdd | src/core/vector2f.rs:42-44 | the dot product distributes over vector addition in both arguments |
| Vec2.DotScale | src/core/vector2f.rs:61-63 | scaling either argument of the dot product by s scales the product by s |
| Vec2.ScaleMagnitudeSquared | src/core/vector2f.rs:61-63 | scaling by s multiplies the squared length by s² |
| Vec2.AddSubCancel | src/core/vector2f.rs:70-99 | subtracting b undoes adding b, and adding b undoes subtracting b |
| Vec2.AddCommutative | src/core/vector2f.rs:70-79 | addition is commutative, and `zero()` is its identity |
| Vec2.DotOrthogonalAxesExample | tests/vector2f_tests.rs:54-71 | the two unit axes have dot product 0 |
| Vec2.DotSameAxisExample | tests/vector2f_tests.rs:54-71 | a unit axis has dot product 1 with itself |
| Vec2.DotExample | tests/vector2f_tests.rs:54-71 | (1,2)·(3,4) = 11 |
| Vec2.MagnitudeSquaredExamples | tests/vector2f_tests.rs:32-39 | the squared lengths that the repository's test asserts: 25, 5 and 0 |
| Vec2.AddExample | tests/vector2f_tests.rs:100-104 | (1,−1) + (−1,1) = (0,0) |
| Vec2.Vector2fMut.AddAssign | src/core/vector2f.rs:81-88 | after `+=`, the place holds the old value plus the operand |
| Vec2.Vector2fMut.SubAssign | src/core/vector2f.rs:101-108 | after `-=`, the place holds the old value minus the operand |
| Vec3.MagnitudeSquared | src/core/vector3f.rs:60-65 | the squared length is the dot product of the vector with itself and is never negative |
| Vec3.Equal | src/core/vector3f.rs:140-144 | `==` holds exactly when the two vectors are the same value |
| Vec3.ToArray | src/core/vector3f.rs:133-138 | the array has three entries, and rebuilding a vector from them gives the original |
| Vec3.DotSymmetric | src/core/vector3f.rs:49-51 | the dot product is symmetric |
| Vec3.DotAdd | src/core/vector3f.rs:49-51 | the dot product distributes over vector addition in both arguments |
| Vec3.DotScale | src/core/vector3f.rs:76-78 | scaling either argument of the dot product by s scales the product by s |
| Vec3.ScaleMagnitudeSquared | src/core/vector3f.rs:76-78 | scaling by s multiplies the squared length by s² |
| Vec3.CrossOrthogonal | src/core/vector3f.rs:53-58 | the cross product is orthogonal to both of its arguments |
| Vec3.TripleProductCyclic | src/core/vector3f.rs:53-58 | a·(b×c) is unchanged by a cyclic shift of a, b and c |
| Vec3.TripleExpansion | src/core/vector3f.rs:53-58 | a·(b×c) equals the six-term determinant polynomial of a, b and c |
| Vec3.CrossAntiCommutative | src/core/vector3f.rs:53-58 | b×a is the negation of a×b, so the two sum to zero, and a×a is zero |
| Vec3.AddSubCancel | src/core/vector3f.rs:89-121 | subtracting b undoes adding b, and adding b undoes subtracting b |
| Vec3.AddCommutative | src/core/vector3f.rs:89-99 | addition is commutative, and `zero()` is its identity |
| Vec3.DotExamples | tests/vector3f_tests.rs:53-70 | orthogonal axes have dot product 0, and (1,2,−2)·(3,4,1) = 9 |
| Vec3.CrossExample | tests/vector3f_tests.rs:73-78 | (2,3,4)×(5,6,7) = (−3,6,−3) |
| Vec3.MagnitudeSquaredExamples | tests/vector3f_tests.rs:31-38 | the squared lengths that the repository's test asserts: 26, 9 and 0 |
| Vec3.SubExample | tests/vector3f_tests.rs:108-115 | (1,1,1) − (0.5,−0.5,0.1) = (0.5,1.5,0.9) |
| Vec3.Vector3fMut.AddAssign | src/core/vector3f.rs:101-109 | after `+=`, the place holds the old value plus the operand |
| Vec3.Vector3fMut.SubAssign | src/core/vector3f.rs:123-131 | after `-=`, the place holds the old value minus the operand |
| Vec4.Default | src/core/vector4f.rs:29-33 | the default vector is the zero vector, and it is a two-sided identity of addition |
| Vec4.MagnitudeSquared | src/core/vector4f.rs:67-73 | the squared length is the dot product of the vector with itself and is never negative |
| Vec4.Truncate | src/core/vector4f.rs:88-90 | extending the truncated vector with the old w gives the original vector back |
| Vec4.Extend | src/core/vector3f.rs:80-82 | the result has the given w, and its first three components are the original vector |
| Vec4.Equal | src/core/vector4f.rs:149-153 | `==` holds exactly when the two vectors are the same value |
| Vec4.ToArray | src/core/vector4f.rs:142-147 | the array has four entries, and rebuilding a vector from them gives the original |
| Vec4.TruncateExtend | src/core/vector4f.rs:88-90 | truncate undoes extend, whatever w was appended |
| Vec4.ExtendAdd | src/core/vector3f.rs:80-82 | extend commutes with addition, and the 4-D dot product of extended vectors is the 3-D dot product plus the product of the w's |
| Vec4.DotSymmetric | src/core/vector4f.rs:63-65 | the dot product is symmetric |
| Vec4.DotAdd | src/core/vector4f.rs:63-65 | the dot product distributes over vector addition in both arguments |
| Vec4.DotUnits | src/core/vector4f.rs:63-65 | the dot product with each unit axis, on either side, picks out that component |
| Vec4.DotScale | src/core/vector4f.rs:84-86 | scaling either argument of the dot product by s scales the product by s |
| Vec4.ScaleMagnitudeSquared | src/core/vector4f.rs:84-86 | scaling by s multiplies the squared length by s² |
| Vec4.AddSubCancel | src/core/vector4f.rs:94-129 | subtracting b undoes adding b, and adding b undoes subtracting b |
| Vec4.AddCommutative | src/core/vector4f.rs:94-105 | addition is commutative, and the default (zero) vector is its identity |
| Vec4.DotOrthogonalAxesExample | tests/vector4f_tests.rs:54-70 | two different unit axes have dot product 0 |
| Vec4.DotSameAxisExample | tests/vector4f_tests.rs:54-70 | a unit axis has dot product 1 with itself |
| Vec4.DotExample | tests/vector4f_tests.rs:54-70 | (1,2,−2,3)·(3,4,1,1.5) = 13.5 |
| Vec4.MagnitudeSquaredExamples | tests/vector4f_tests.rs:32-39 | the squared lengths that the repository's test asserts: 27, 13 and 0 |
| Vec4.Vector4fMut.AddAssign | src/core/vector4f.rs:107-116 | after `+=`, the place holds the old value plus the operand |
| Vec4.Vector4fMut.SubAssign | src/core/vector4f.rs:131-140 | after `-=`, the place holds the old value minus the operand |
| Mat3.OneAndIdentityEntries | src/core/matrix3f.rs:37-55 | `one()` has every entry 1, and `identity()` has 1 exactly on the diagonal and 0 elsewhere |
| Mat3.EntrywiseOperations | src/core/matrix3f.rs:57-65 | scale, `+` and `-` act entry by entry on all nine entries |
| Mat3.TransposeEntries | src/core/matrix3f.rs:67-75 | entry (i,j) of the transpose is entry (j,i), so row i of the transpose is column i |
| Mat3.TransposeInvolution | src/core/matrix3f.rs:67-75 | transposing twice gives the original matrix |
| Mat3.TransposeExample | tests/matrix3f_tests.rs:75-89 | the transpose of the matrix 1..9 that the repository's test asserts |
| Mat3.TransformTranspose | src/core/matrix3f.rs:77-83 | (Mᵀu)·v = u·(Mv): transform by the transpose is the adjoint map |
| Mat3.DeterminantByMinors | src/core/matrix3f.rs:85-90 | the determinant is the Laplace expansion along row 0, with alternating signs on the minors |
| Mat3.CofactorMinors | src/core/matrix3f.rs:92-110 | `cofactor` as written stores the unsigned minor at every position |
| Mat3.AdjugateMinors | src/core/matrix3f.rs:112-114 | entry (i,j) of the adjugate as written is the unsigned minor (j,i) |
| Mat3.InverseEntries | src/core/matrix3f.rs:116-118 | entry (i,j) of the inverse as written is minor (j,i) times 1/det |
| Mat3.DeterminantByCofactor | src/core/matrix3f.rs:85-110 | the determinant is row 0 against row 0 of the cofactor matrix as written, with the alternating signs |
| Mat3.DeterminantTripleProduct | src/core/matrix3f.rs:85-90 | the determinant is the scalar triple product of the three rows |
| Mat3.DeterminantTranspose | src/core/matrix3f.rs:85-90 | transposing leaves the determinant unchanged |
| Mat3.DeterminantExamples | tests/matrix3f_tests.rs:92-102 | the determinants that the repository's test asserts: 0 and −88 |
| Mat3.DeterminantNegate | src/core/matrix3f.rs:85-90 | negating every entry negates the determinant |
| Mat3.Invertible | src/core/matrix3f.rs:120-122 | when `invertible` reports true, the determinant is non-zero |
| Mat3.InvertibleOneSided | src/core/matrix3f.rs:120-122 | a matrix whose determinant is below −1e-6 is non-singular yet reported not invertible, while its negation is reported invertible |
| Mat3.InvertibleExample | src/core/matrix3f.rs:120-122 | the test matrix with determinant −88 is reported not invertible |
| Mat3.MulIdentity | src/core/matrix3f.rs:177-195 | the identity is a two-sided unit of the product |
| Mat3.TransformIdentity | src/core/matrix3f.rs:77-83 | transform by the identity leaves every vector unchanged |
| Mat3.TransformMul | src/core/matrix3f.rs:177-195 | transforming by a product equals transforming by the right factor and then by the left one |
| Mat3.TransformIdentityExample | src/core/matrix3f.rs:77-83 | the identity maps (1,2,3) to itself |
| Mat3.TransformExample | tests/matrix3f_tests.rs:105-124 | the transformed vector that the repository's test asserts, as an exact real value |
| Mat3.MulExample | tests/matrix3f_tests.rs:175-194 | the product that the repository's test asserts |
| Mat3.AddSubCancel | src/core/matrix3f.rs:125-163 | subtracting b undoes adding b, and addition is commutative |
| Mat3.AddExample | tests/matrix3f_tests.rs:197-214 | the sum that the repository's test asserts |
| Mat3.ToRows | src/core/matrix3f.rs:215-223 | the nested array has three rows, and row i holds the matrix's row i |
| Mat3.CofactorSignPattern | src/core/matrix3f.rs:92-110 | the corrected cofactor matrix is the as-written one with the sign flipped at exactly the checkerboard positions |
| Mat3.AdjugateSignedColumns | src/core/matrix3f.rs:112-114 | the columns of the corrected adjugate are the cross products of pairs of rows |
| Mat3.AdjugateSignedRows | src/core/matrix3f.rs:112-114 | the rows of the corrected adjugate are the cross products of pairs of columns |
| Mat3.MulAdjugateSignedRight | src/core/matrix3f.rs:112-114 | M · adj(M) = det(M) · I for the corrected adjugate |
| Mat3.MulAdjugateSignedLeft | src/core/matrix3f.rs:112-114 | adj(M) · M = det(M) · I for the corrected adjugate |
| Mat3.InverseSignedInverts | src/core/matrix3f.rs:116-118 | for a non-zero determinant, the corrected inverse is a two-sided inverse |
| Mat3.CofactorUnsignedExample | tests/matrix3f_tests.rs:127-141 | on the matrix 1..9, `cofactor` as written gives −6 where the test expects +6, while the corrected cofactor gives the test's values |
| Mat3.InverseExample | tests/matrix3f_tests.rs:158-172 | the test matrix has determinant 1, but the inverse as written is not the test's expected matrix, and its product with the matrix has 31 in entry 0 |
| Mat3.InverseSignedExample | tests/matrix3f_tests.rs:158-172 | the corrected inverse of the test matrix is the test's expected matrix |
| Mat3.Matrix3fMut.AddAssign | src/core/matrix3f.rs:139-149 | after `+=`, the nine entries hold the old value plus the operand |
| Mat3.Matrix3fMut.SubAssign | src/core/matrix3f.rs:165-175 | after `-=`, the nine entries hold the old value minus the operand |
| Mat3.Matrix3fMut.MulAssign | src/core/matrix3f.rs:197-213 | after `*=`, the nine entries hold the old value times the operand |
| Mat4.Default | src/core/matrix4f.rs:30-34 | the default matrix is the identity, and transforming any vector by it leaves the vector unchanged |
| Mat4.OneAndIdentityEntries | src/core/matrix4f.rs:53-73 | `one()` has every entry 1, and `identity()` has 1 exactly at 0, 5, 10 and 15 and 0 elsewhere (the entries that test_identity checks) |
| Mat4.EntrywiseOperations | src/core/matrix4f.rs:75-84 | scale, `+` and `-` act entry by entry on all sixteen entries |
| Mat4.AddSubCancel | src/core/matrix4f.rs:265-306 | subtracting b undoes adding b, and addition is commutative |
| Mat4.TransposeRowsCols | src/core/matrix4f.rs:86-95 | row i of the transpose is column i, and column i of the transpose is row i |
| Mat4.TransposeInvolution | src/core/matrix4f.rs:86-95 | transposing twice gives the original matrix |
| Mat4.TransformIdentity | src/core/matrix4f.rs:97-104 | transform by the identity leaves every vector unchanged |
| Mat4.FromTranslationTransform | src/core/matrix4f.rs:106-115 | a point (w = 1) is moved by t, and a direction (w = 0) is left unchanged |
| Mat4.FromScaleUniform | src/core/matrix4f.rs:117-126 | uniform scale by s is the per-axis scale by (s, s, s) |
| Mat4.FromScaleVecTransform | src/core/matrix4f.rs:128-137 | per-axis scale multiplies each of x, y, z by its factor and keeps w |
| Mat4.RotationDegrees | src/core/matrix4f.rs:139-174 | each `_deg` constructor is its radian counterpart at `Rad(d)` |
| Mat4.IsLinear3Transform | src/core/matrix4f.rs:97-104 | a matrix whose last row and column are those of the identity keeps w, and its x, y, z output does not depend on w |
| Mat4.ConstructorsAreLinear3 | src/core/matrix4f.rs:128-213 | scale, the three axis rotations and the axis-angle rotation leave the homogeneous coordinate alone |
| Mat4.RotationXTransform | src/core/matrix4f.rs:144-153 | rotation about x keeps x and w and turns (y, z) by the angle |
| Mat4.RotationYTransform | src/core/matrix4f.rs:160-169 | rotation about y keeps y and w and turns (z, x) by the angle |
| Mat4.RotationZTransform | src/core/matrix4f.rs:176-185 | rotation about z keeps z and w and turns (x, y) by the angle |
| Mat4.RotationsAtZeroAngle | src/core/matrix4f.rs:144-213 | where cos = 1 and sin = 0, every rotation constructor (axis-angle as written and corrected) yields the identity |
| Mat4.RotationXKeepsLength | src/core/matrix4f.rs:144-153 | when cos² + sin² = 1, rotation about x preserves the squared length |
| Mat4.RotationYKeepsLength | src/core/matrix4f.rs:160-169 | when cos² + sin² = 1, rotation about y preserves the squared length |
| Mat4.RotationZKeepsLength | src/core/matrix4f.rs:176-185 | when cos² + sin² = 1, rotation about z preserves the squared length |
| Mat4.AxisAngleXAxis | src/core/matrix4f.rs:187-213 | axis-angle as written about (1,0,0) equals the x rotation |
| Mat4.AxisAngleDefect | src/core/matrix4f.rs:191-213 | axis-angle as written differs from the Rodrigues matrix only in entry (1,0), by (y − z)·sin |
| Mat4.AxisAngleCounterexample | src/core/matrix4f.rs:197 | when sin ≠ 0, axis-angle as written about (0,0,1) has 0 at entry (1,0) where the z rotation has sin, and about (0,1,0) it is not the y rotation |
| Mat4.RodriguesUnitAxes | src/core/matrix4f.rs:191-213 | the corrected axis-angle matrix about each unit axis equals that axis's rotation |
| Mat4.RodriguesParts | src/core/matrix4f.rs:191-213 | the antisymmetric parts of the corrected matrix are 2·axis·sin, and its symmetric off-diagonal parts are 2·(products of axis components)·(1 − cos) |
| Mat4.AxisAngleRow0 | src/core/matrix4f.rs:191-207 | row 0 of the axis-angle matrix: (cos + x²(1 − cos), xy(1 − cos) − z·sin, xz(1 − cos) + y·sin, 0), whatever the z·sin term |
| Mat4.AxisAngleRow1 | src/core/matrix4f.rs:197-210 | row 1 of the axis-angle matrix, with the z·sin term as supplied (y·sin as written, z·sin when corrected) |
| Mat4.AxisAngleRow2 | src/core/matrix4f.rs:191-209 | row 2 of the axis-angle matrix: (xz(1 − cos) − y·sin, yz(1 − cos) + x·sin, cos + z²(1 − cos), 0), whatever the z·sin term |
| Mat4.AxisAngleRow3 | src/core/matrix4f.rs:205-210 | row 3 of the axis-angle matrix is (0, 0, 0, 1) |
| Mat4.RodriguesFixesAxis | src/core/matrix4f.rs:191-213 | for a unit axis, the corrected axis-angle matrix leaves the axis itself unchanged, for any angle |
| Mat4.RodriguesKeepsLength | src/core/matrix4f.rs:191-213 | for a unit axis and cos² + sin² = 1, the corrected axis-angle matrix keeps the squared length of every vector |
| Mat4.RodriguesRowAction0 | src/core/matrix4f.rs:191-207 | row 0 of the corrected matrix applied to p is the x component of cos·p + (1 − cos)(k·p)·k + sin·(k × p), k the axis |
| Mat4.RodriguesRowAction1 | src/core/matrix4f.rs:191-208 | row 1 of the corrected matrix applied to p is the y component of the same Rodrigues formula |
| Mat4.RodriguesRowAction2 | src/core/matrix4f.rs:191-209 | row 2 of the corrected matrix applied to p is the z component of the same Rodrigues formula |
| Mat4.AxisAngleZUnitX | src/core/matrix4f.rs:187-213 | as written, the axis-angle matrix about (0,0,1) sends (1,0,0,0) to (cos, 0, 0, 0) |
| Mat4.AxisAngleShrinks | src/core/matrix4f.rs:197 | as written, when sin ≠ 0 and cos² + sin² = 1, the axis-angle matrix about (0,0,1) sends (1,0,0,0) to (cos, 0, 0, 0), whose squared length is not 1: it does not keep length |
| Mat4.LookAtRhColumns | src/core/matrix4f.rs:215-227 | the stored matrix's columns are the x, y and negated z axes, each with its eye term in the bottom row, and (0,0,0,1) |
| Mat4.LookAtRhEyeToOrigin | src/core/matrix4f.rs:215-227 | the transpose of the stored view matrix sends the eye point to the origin |
| Mat4.PerspectiveEntries | src/core/matrix4f.rs:229-262 | the five non-zero entries of the stored projection (focal term over aspect, focal term, depth scale, depth offset, −1), with every other entry 0 |
| Mat4.PerspectiveDepthRange | src/core/matrix4f.rs:229-262 | the transpose of the stored projection matrix sends the near plane z = −near to clip depth −near with w = near, and the far plane z = −far to depth far with w = far |
| Mat4.MulEntries | src/core/matrix4f.rs:321-349 | entry (i,j) of the product as written is row i of the left matrix against a column whose last entry comes from the left matrix; the textbook entry is row i against column j |
| Mat4.MulMatchesTextbook | src/core/matrix4f.rs:327-345 | the product as written equals the textbook product exactly when the left matrix's last column is zero or the two bottom rows agree |
| Mat4.MulTextbookIdentityLeft | src/core/matrix4f.rs:321-349 | the identity is a left unit of the corrected product |
| Mat4.MulTextbookIdentityRight | src/core/matrix4f.rs:321-349 | the identity is a right unit of the corrected product |
| Mat4.MulIdentityBottomRow | src/core/matrix4f.rs:321-349 | the product as written of the identity with any matrix has bottom row (0,0,0,1) |
| Mat4.MulIdentityLeft | src/core/matrix4f.rs:321-349 | I · M as written equals M exactly when M's bottom row is (0,0,0,1) |
| Mat4.MulTextbookTransform | src/core/matrix4f.rs:321-349 | transforming by the corrected product equals transforming by the right factor and then by the left one |
| Mat4.MulCounterexample | src/core/matrix4f.rs:327-345 | translation by (1,0,0) times the identity scaled by 2 (entry 15 = 2) has entry 3 equal to 1 as written, where the textbook product has 2 |
| Mat4.ToRows | src/core/matrix4f.rs:379-388 | the nested array has four rows, and row i holds the matrix's row i |
| Mat4.Equal | src/core/matrix4f.rs:390-398 | the loop over the sixteen entries returns true exactly when the two matrices are the same value |
| Mat4.Matrix4fMut.AddAssign | src/core/matrix4f.rs:280-291 | after `+=`, the place holds the old value plus the operand |
| Mat4.Matrix4fMut.SubAssign | src/core/matrix4f.rs:308-319 | after `-=`, the place holds the old value minus the operand |
| Mat4.Matrix4fMut.MulAssign | src/core/matrix4f.rs:351-377 | after `*=`, the place holds the old value times the operand, using the product as written |

## Left out

- **Floating point.** IEEE single-precision rounding, infinities and NaN are not modelled, because every scalar is an exact `real`.
  - The repository's tests compare some results within 1e-5 and others by exact `f32` equality. The example lemmas state the exact real values instead.
- **Functions with square roots or inverse cosines.** `magnitude`, `normalize` and `angle_between_rad` are not modelled, for all three vector types, because `real` has neither.
  - `normalize` enters `LookAtRh` as a parameter.
- **Trigonometric functions.** `sin`, `cos` and `tan` are parameters with no properties assumed. Rotation facts that need `cos² + sin² = 1` take it as a precondition.
- **Division by zero.**
  - Mat3.Inverse: requires a non-zero determinant. For a zero determinant `f32` division yields infinities or NaN, which `real` cannot represent.
  - Mat4.Perspective: requires `tan(fovy/2)`, `aspect` and `near − far` to be non-zero, for the same reason.
- **`Matrix4f` entry count.** A `Matrix4f` whose `Vec` does not have exactly sixteen entries is excluded by the type `Entries16`. The source panics on fewer entries and ignores extra ones.
- **Invertibility threshold.** The threshold of `Matrix3f::invertible` is the exact real 1e-6, not its nearest `f32`.
- **Missing members of `Matrix3f`.** The repository's tests call `Matrix3f::zero` and compare `Matrix3f` values with `==`, but the source defines neither `zero` nor `PartialEq` for `Matrix3f`. Neither is modelled.
  - The example lemmas compare `Matrix3f` values with Dafny's value equality.
- **Derived traits.** The serde derives (`Serialize`, `Deserialize`), the bevy_reflect derives (`Reflect`, `FromReflect`), bevy_ecs's `Resource` derive on `Vector4f`, `Debug`, `Clone`, `Copy` and `#[repr(C)]` have no counterpart. They concern serialisation, reflection, ECS registration, copy semantics and memory layout; datatypes are values, so copying is implicit.
- **Other files.** `lib.rs`, `mod.rs` and the quaternion module are not part of this model.

## Findings

| source | as written | input that shows it | evidently intended | confidence | as-written member | corrected member |
|---|---|---|---|---|---|---|
| src/core/matrix3f.rs:92-110 | `cofactor` stores each unsigned 2×2 minor, with no checkerboard sign, so `adjugate` and `inverse` inherit the missing signs | the matrix [[0,−3,−2],[1,−4,−2],[−3,4,1]] has determinant 1, but the product with its computed inverse has 31 in entry 0; for the matrix 1..9, entry 1 of the cofactor matrix is −6 where the test expects +6 | cofactor (i,j) = (−1)^(i+j)·minor(i,j), which makes M · inverse(M) = I | not executed | Mat3.Cofactor (Mat3.CofactorUnsignedExample, Mat3.InverseExample) | Mat3.CofactorSigned / Mat3.InverseSigned (Mat3.InverseSignedInverts, Mat3.MulAdjugateSignedRight) |
| src/core/matrix4f.rs:327-345 | each entry's fourth term multiplies `self.data[4i+3]` by `self.data[12+j]`, taken from the left matrix, instead of `other.data[12+j]`; `*=` at 351-377 repeats it | translation by (1,0,0) times the identity scaled by 2 (entry 15 = 2): entry 3 is 1, where the matrix product has 2 | the row-by-column product, with the fourth term taken from `other` | not executed | Mat4.Mul (Mat4.MulCounterexample, Mat4.MulMatchesTextbook, Mat4.MulIdentityLeft) | Mat4.MulTextbook (Mat4.MulTextbookIdentityLeft, Mat4.MulTextbookTransform) |
| src/core/matrix4f.rs:197 | `zsin` is computed as `y * sinr`, so entry (1,0) is `xy(1−cos) + y·sin` | axis (0,0,1) with sin r ≠ 0: entry (1,0) is 0 where the z rotation has sin r, and (1,0,0,0) goes to (cos r,0,0,0), which is shorter | `zsin = z * sinr`, the Rodrigues rotation matrix | not executed | Mat4.FromAxisAngleComp (Mat4.AxisAngleCounterexample, Mat4.AxisAngleDefect, Mat4.AxisAngleShrinks) | Mat4.FromAxisAngleRodrigues (Mat4.RodriguesUnitAxes, Mat4.RodriguesFixesAxis, Mat4.RodriguesKeepsLength) |
