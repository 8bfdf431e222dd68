/** 3x3 matrices (`Matrix3f`): nine `real` entries in row-major order.

    `Matrix3f::cofactor` returns the unsigned 2x2 minors, with no
    checkerboard sign, so `adjugate` and `inverse` are not the classical
    adjugate and inverse. `Cofactor`, `Adjugate` and `Inverse` model the code
    as written; `CofactorSigned`, `AdjugateSigned` and `InverseSigned` are the
    corrected definitions, proved to invert every matrix with a non-zero
    determinant.

    The operations are plain functions; the lemmas after them state what
    each one computes and how they fit together. */
module Mat3 {
  import opened F32
  import Vec3

  /** Entry (i, j) is at index 3 * i + j. */
  type Entries9 = s: seq<real> | |s| == 9
    witness [0.0, 0.0, 0.0, 0.0, 0.0, 0.0, 0.0, 0.0, 0.0]

  datatype Matrix3f = Matrix3f(data: Entries9)

  /** `Matrix3f::invertible` compares the determinant with 1e-6. */
  const InvertibleThreshold: real := 0.000001

  function Entry(m: Matrix3f, i: nat, j: nat): real
    requires i < 3 && j < 3
  {
    m.data[3 * i + j]
  }

  function Row(m: Matrix3f, i: nat): Vec3.Vector3f
    requires i < 3
  {
    Vec3.Vector3f(m.data[3 * i], m.data[3 * i + 1], m.data[3 * i + 2])
  }

  function Col(m: Matrix3f, j: nat): Vec3.Vector3f
    requires j < 3
  {
    Vec3.Vector3f(m.data[j], m.data[3 + j], m.data[6 + j])
  }

  /** `Matrix3f::new`: the arguments in row-major order. */
  function New(m00: real, m01: real, m02: real,
               m10: real, m11: real, m12: real,
               m20: real, m21: real, m22: real): Matrix3f
  {
    Matrix3f([m00, m01, m02,
              m10, m11, m12,
              m20, m21, m22])
  }

  function One(): Matrix3f
  {
    New(1.0, 1.0, 1.0,
        1.0, 1.0, 1.0,
        1.0, 1.0, 1.0)
  }

  function Identity(): Matrix3f
  {
    New(1.0, 0.0, 0.0,
        0.0, 1.0, 0.0,
        0.0, 0.0, 1.0)
  }

  function Scale(m: Matrix3f, s: real): Matrix3f
  {
    var d := m.data;
    New(Times(d[0], s), Times(d[1], s), Times(d[2], s),
        Times(d[3], s), Times(d[4], s), Times(d[5], s),
        Times(d[6], s), Times(d[7], s), Times(d[8], s))
  }

  function Transpose(m: Matrix3f): Matrix3f
  {
    var d := m.data;
    New(d[0], d[3], d[6],
        d[1], d[4], d[7],
        d[2], d[5], d[8])
  }

  /** `transform(v)`: component i is row i dotted with `v`. */
  function Transform(m: Matrix3f, v: Vec3.Vector3f): Vec3.Vector3f
  {
    Vec3.Vector3f(Vec3.Dot(Row(m, 0), v), Vec3.Dot(Row(m, 1), v), Vec3.Dot(Row(m, 2), v))
  }

  /** `determinant`: the expansion along the first row. */
  function Determinant(m: Matrix3f): real
  {
    var d := m.data;
    Times(d[0], Times(d[4], d[8]) - Times(d[5], d[7]))
      - Times(d[1], Times(d[3], d[8]) - Times(d[5], d[6]))
      + Times(d[2], Times(d[3], d[7]) - Times(d[4], d[6]))
  }

  /** The determinant of the 2x2 matrix left when row i and column j are
      removed, written independently of the code's index lists. */
  function Minor(m: Matrix3f, i: nat, j: nat): real
    requires i < 3 && j < 3
  {
    var r0, r1 := if i == 0 then 1 else 0, if i == 2 then 1 else 2;
    var c0, c1 := if j == 0 then 1 else 0, if j == 2 then 1 else 2;
    Times(Entry(m, r0, c0), Entry(m, r1, c1)) - Times(Entry(m, r0, c1), Entry(m, r1, c0))
  }

  /** `cofactor` AS WRITTEN: the nine 2x2 minors, with no sign applied. */
  function Cofactor(m: Matrix3f): Matrix3f
  {
    var d := m.data;
    New(Times(d[4], d[8]) - Times(d[5], d[7]), Times(d[3], d[8]) - Times(d[5], d[6]), Times(d[3], d[7]) - Times(d[4], d[6]),
        Times(d[1], d[8]) - Times(d[2], d[7]), Times(d[0], d[8]) - Times(d[2], d[6]), Times(d[0], d[7]) - Times(d[1], d[6]),
        Times(d[1], d[5]) - Times(d[2], d[4]), Times(d[0], d[5]) - Times(d[2], d[3]), Times(d[0], d[4]) - Times(d[1], d[3]))
  }

  /** `adjugate` AS WRITTEN: the transposed unsigned cofactors. */
  function Adjugate(m: Matrix3f): Matrix3f
  {
    Transpose(Cofactor(m))
  }

  /** `inverse` AS WRITTEN: the adjugate scaled by 1 / determinant. The
      source divides by zero when the determinant is 0; the model requires it
      to be non-zero. */
  function Inverse(m: Matrix3f): Matrix3f
    requires Determinant(m) != 0.0
  {
    Scale(Adjugate(m), 1.0 / Determinant(m))
  }

  /** `invertible`: only a determinant above the positive threshold counts,
      so whenever it reports true the determinant is non-zero and `Inverse`
      may be called. */
  function Invertible(m: Matrix3f): (b: bool)
    ensures b ==> Determinant(m) != 0.0
  {
    Determinant(m) > InvertibleThreshold
  }

  function Add(a: Matrix3f, b: Matrix3f): Matrix3f
  {
    var x, y := a.data, b.data;
    New(x[0] + y[0], x[1] + y[1], x[2] + y[2],
        x[3] + y[3], x[4] + y[4], x[5] + y[5],
        x[6] + y[6], x[7] + y[7], x[8] + y[8])
  }

  function Sub(a: Matrix3f, b: Matrix3f): Matrix3f
  {
    var x, y := a.data, b.data;
    New(x[0] - y[0], x[1] - y[1], x[2] - y[2],
        x[3] - y[3], x[4] - y[4], x[5] - y[5],
        x[6] - y[6], x[7] - y[7], x[8] - y[8])
  }

  /** `*`: entry (i, j) is row i of `a` dotted with column j of `b`. */
  function Mul(a: Matrix3f, b: Matrix3f): Matrix3f
  {
    New(Vec3.Dot(Row(a, 0), Col(b, 0)), Vec3.Dot(Row(a, 0), Col(b, 1)), Vec3.Dot(Row(a, 0), Col(b, 2)),
        Vec3.Dot(Row(a, 1), Col(b, 0)), Vec3.Dot(Row(a, 1), Col(b, 1)), Vec3.Dot(Row(a, 1), Col(b, 2)),
        Vec3.Dot(Row(a, 2), Col(b, 0)), Vec3.Dot(Row(a, 2), Col(b, 1)), Vec3.Dot(Row(a, 2), Col(b, 2)))
  }

  /** `From<Matrix3f> for [[f32; 3]; 3]`: the rows, in order. */
  function ToRows(m: Matrix3f): (r: seq<seq<real>>)
    ensures |r| == 3
    ensures forall i :: 0 <= i < 3 ==> r[i] == Vec3.ToArray(Row(m, i))
  {
    var d := m.data;
    [[d[0], d[1], d[2]],
     [d[3], d[4], d[5]],
     [d[6], d[7], d[8]]]
  }

  // ---------------------------------------------------------------------
  // Corrected cofactor, adjugate and inverse

  /** Positions whose cofactor carries a minus sign in the checkerboard
      + - + / - + - / + - +. */
  predicate Negated(i: nat, j: nat)
  {
    (i + j) % 2 == 1
  }

  /** The classical cofactor matrix: the minors with the checkerboard sign. */
  function CofactorSigned(m: Matrix3f): Matrix3f
  {
    var d := m.data;
    New(Times(d[4], d[8]) - Times(d[5], d[7]), -(Times(d[3], d[8]) - Times(d[5], d[6])), Times(d[3], d[7]) - Times(d[4], d[6]),
        -(Times(d[1], d[8]) - Times(d[2], d[7])), Times(d[0], d[8]) - Times(d[2], d[6]), -(Times(d[0], d[7]) - Times(d[1], d[6])),
        Times(d[1], d[5]) - Times(d[2], d[4]), -(Times(d[0], d[5]) - Times(d[2], d[3])), Times(d[0], d[4]) - Times(d[1], d[3]))
  }

  /** The classical adjugate, the transposed signed cofactors. */
  function AdjugateSigned(m: Matrix3f): Matrix3f
  {
    Transpose(CofactorSigned(m))
  }

  /** The inverse the source evidently intends: the classical adjugate
      scaled by 1 / determinant. */
  function InverseSigned(m: Matrix3f): Matrix3f
    requires Determinant(m) != 0.0
  {
    Scale(AdjugateSigned(m), 1.0 / Determinant(m))
  }

  // ---------------------------------------------------------------------
  // What each operation computes


  /** Two matrices that agree at each of the nine indices are equal. */
  lemma SameData(a: Matrix3f, b: Matrix3f)
    requires a.data[0] == b.data[0] && a.data[1] == b.data[1] && a.data[2] == b.data[2]
    requires a.data[3] == b.data[3] && a.data[4] == b.data[4] && a.data[5] == b.data[5]
    requires a.data[6] == b.data[6] && a.data[7] == b.data[7] && a.data[8] == b.data[8]
    ensures a == b
  {
    assert a.data == b.data;
  }

  /** `one()` is all ones; the identity has 1 on the diagonal and 0
      elsewhere. */
  lemma OneAndIdentityEntries()
    ensures forall k :: 0 <= k < 9 ==> One().data[k] == 1.0
    ensures forall i: nat, j: nat | i < 3 && j < 3 :: Entry(Identity(), i, j) == if i == j then 1.0 else 0.0
  {
    forall i: nat, j: nat | i < 3 && j < 3
      ensures Entry(Identity(), i, j) == if i == j then 1.0 else 0.0
    {
      assert i == 0 || i == 1 || i == 2;
      assert j == 0 || j == 1 || j == 2;
    }
  }

  /** `scale(s)` multiplies each of the nine entries by `s`; `+` and `-`
      work entry by entry. */
  lemma EntrywiseOperations(a: Matrix3f, b: Matrix3f, s: real)
    ensures forall k :: 0 <= k < 9 ==> Scale(a, s).data[k] == Times(a.data[k], s)
    ensures forall k :: 0 <= k < 9 ==> Add(a, b).data[k] == a.data[k] + b.data[k]
    ensures forall k :: 0 <= k < 9 ==> Sub(a, b).data[k] == a.data[k] - b.data[k]
  {
  }

  /** `transpose` moves entry (i, j) to (j, i), so its rows are the columns
      of the matrix. */
  lemma TransposeEntries(m: Matrix3f)
    ensures forall i: nat, j: nat | i < 3 && j < 3 :: Entry(Transpose(m), i, j) == Entry(m, j, i)
    ensures forall i: nat | i < 3 :: Row(Transpose(m), i) == Col(m, i)
  {
    forall i: nat, j: nat | i < 3 && j < 3
      ensures Entry(Transpose(m), i, j) == Entry(m, j, i)
    {
      assert i == 0 || i == 1 || i == 2;
      assert j == 0 || j == 1 || j == 2;
    }
  }

  /** Transposing twice gives the matrix back. */
  lemma TransposeInvolution(m: Matrix3f)
    ensures Transpose(Transpose(m)) == m
  {
    SameData(Transpose(Transpose(m)), m);
  }

  /** The value asserted by the repository's `test_matrix3f_transpose`. */
  lemma TransposeExample()
    ensures Transpose(New(1.0, 2.0, 3.0, 4.0, 5.0, 6.0, 7.0, 8.0, 9.0))
         == New(1.0, 4.0, 7.0, 2.0, 5.0, 8.0, 3.0, 6.0, 9.0)
  {
  }

  /** The transpose is the adjoint of `transform` for the dot product. */
  lemma TransformTranspose(m: Matrix3f, u: Vec3.Vector3f, v: Vec3.Vector3f)
    ensures Vec3.Dot(Transform(Transpose(m), u), v) == Vec3.Dot(u, Transform(m, v))
  {
  }

  /** `determinant` is the first-row Laplace expansion by minors. */
  lemma DeterminantByMinors(m: Matrix3f)
    ensures Determinant(m) == Entry(m, 0, 0) * Minor(m, 0, 0) - Entry(m, 0, 1) * Minor(m, 0, 1) + Entry(m, 0, 2) * Minor(m, 0, 2)
  {
  }

  /** `cofactor` entry (i, j) is the minor (i, j), with no sign. */
  lemma CofactorMinors(m: Matrix3f)
    ensures forall i: nat, j: nat | i < 3 && j < 3 :: Entry(Cofactor(m), i, j) == Minor(m, i, j)
  {
    var c := Cofactor(m);
    assert c.data[0] == Minor(m, 0, 0) && c.data[1] == Minor(m, 0, 1) && c.data[2] == Minor(m, 0, 2);
    assert c.data[3] == Minor(m, 1, 0) && c.data[4] == Minor(m, 1, 1) && c.data[5] == Minor(m, 1, 2);
    assert c.data[6] == Minor(m, 2, 0) && c.data[7] == Minor(m, 2, 1) && c.data[8] == Minor(m, 2, 2);
    forall i: nat, j: nat | i < 3 && j < 3
      ensures Entry(c, i, j) == Minor(m, i, j)
    {
      assert i == 0 || i == 1 || i == 2;
      assert j == 0 || j == 1 || j == 2;
    }
  }

  /** `adjugate` entry (i, j) is the unsigned minor (j, i). */
  lemma AdjugateMinors(m: Matrix3f)
    ensures forall i: nat, j: nat | i < 3 && j < 3 :: Entry(Adjugate(m), i, j) == Minor(m, j, i)
  {
    CofactorMinors(m);
    TransposeEntries(Cofactor(m));
  }

  /** `inverse` entry (i, j) is the unsigned minor (j, i) times
      1 / determinant. */
  lemma InverseEntries(m: Matrix3f)
    requires Determinant(m) != 0.0
    ensures forall i: nat, j: nat | i < 3 && j < 3 :: Entry(Inverse(m), i, j) == Times(Minor(m, j, i), 1.0 / Determinant(m))
  {
    AdjugateMinors(m);
    EntrywiseOperations(Adjugate(m), Adjugate(m), 1.0 / Determinant(m));
    forall i: nat, j: nat | i < 3 && j < 3
      ensures Entry(Inverse(m), i, j) == Times(Minor(m, j, i), 1.0 / Determinant(m))
    {
      assert Entry(Adjugate(m), i, j) == Minor(m, j, i);
      assert Inverse(m).data[3 * i + j] == Times(Adjugate(m).data[3 * i + j], 1.0 / Determinant(m));
    }
  }

  /** The first-row expansion uses the same three minors that `cofactor`
      puts in its first row. */
  lemma DeterminantByCofactor(m: Matrix3f)
    ensures Determinant(m) == m.data[0] * Cofactor(m).data[0] - m.data[1] * Cofactor(m).data[1] + m.data[2] * Cofactor(m).data[2]
  {
  }

  /** The determinant is the scalar triple product of the rows. */
  lemma DeterminantTripleProduct(m: Matrix3f)
    ensures Determinant(m) == Vec3.Dot(Row(m, 0), Vec3.Cross(Row(m, 1), Row(m, 2)))
  {
  }

  /** A matrix and its transpose have the same determinant. */
  lemma DeterminantTranspose(m: Matrix3f)
    ensures Determinant(Transpose(m)) == Determinant(m)
  {
  }

  /** The values asserted by the repository's `test_determinant`. */
  lemma DeterminantExamples()
    ensures Determinant(New(1.0, 2.0, 3.0, 4.0, 5.0, 6.0, 7.0, 8.0, 9.0)) == 0.0
    ensures Determinant(New(1.0, 4.0, 3.0, -4.0, 0.0, 2.0, -7.0, -8.0, -9.0)) == -88.0
  {
  }

  /** Negating every entry negates the determinant. */
  lemma DeterminantNegate(m: Matrix3f)
    ensures Determinant(Scale(m, -1.0)) == -Determinant(m)
  {
  }

  /** `invertible` is one-sided: a matrix whose determinant is below minus
      the threshold is reported non-invertible although its determinant is
      non-zero, while its negation is reported invertible. */
  lemma InvertibleOneSided(m: Matrix3f)
    requires Determinant(m) < -InvertibleThreshold
    ensures Determinant(m) != 0.0 && !Invertible(m)
    ensures Invertible(Scale(m, -1.0))
  {
    DeterminantNegate(m);
  }

  /** The matrix of `test_determinant`, with determinant -88, is reported
      non-invertible. */
  lemma InvertibleExample()
    ensures !Invertible(New(1.0, 4.0, 3.0, -4.0, 0.0, 2.0, -7.0, -8.0, -9.0))
  {
    DeterminantExamples();
  }

  /** The identity is neutral for `*` on both sides. */
  lemma MulIdentity(m: Matrix3f)
    ensures Mul(Identity(), m) == m
    ensures Mul(m, Identity()) == m
  {
    SameData(Mul(Identity(), m), m);
    SameData(Mul(m, Identity()), m);
  }

  /** The identity leaves every vector unchanged. */
  lemma TransformIdentity(v: Vec3.Vector3f)
    ensures Transform(Identity(), v) == v
  {
  }

  /** Transforming by a product is transforming by the right factor, then
      by the left one. */
  lemma TransformMul(a: Matrix3f, b: Matrix3f, v: Vec3.Vector3f)
    ensures Transform(Mul(a, b), v) == Transform(a, Transform(b, v))
  {
    RowTimesProduct(Row(a, 0), b, v);
    RowTimesProduct(Row(a, 1), b, v);
    RowTimesProduct(Row(a, 2), b, v);
  }

  /** A row p times the product of b with a column v, bracketed either way. */
  lemma RowTimesProduct(p: Vec3.Vector3f, b: Matrix3f, v: Vec3.Vector3f)
    ensures Vec3.Dot(Vec3.Vector3f(Vec3.Dot(p, Col(b, 0)), Vec3.Dot(p, Col(b, 1)), Vec3.Dot(p, Col(b, 2))), v)
         == Vec3.Dot(p, Transform(b, v))
  {
  }

  /** The identity case of the repository's `test_transform`. */
  lemma TransformIdentityExample()
    ensures Transform(Identity(), Vec3.Vector3f(1.0, 2.0, 3.0)) == Vec3.Vector3f(1.0, 2.0, 3.0)
  {
    TransformIdentity(Vec3.Vector3f(1.0, 2.0, 3.0));
  }

  /** The general case of the repository's `test_transform`, which that test
      compares up to 1e-5; over the reals the values are exact. */
  lemma TransformExample()
    ensures Transform(New(-1.0, 2.0, 4.5, 1.43, 1.0, 93.2, 0.0, 1.1, 0.5), Vec3.Vector3f(-0.2, 1.04, 12.2))
         == Vec3.Vector3f(57.18, 1137.794, 7.244)
  {
  }

  /** The product of the repository's `test_multiplication`, over the reals. */
  lemma MulExample()
    ensures Mul(New(1.0, -2.0, 3.51, 4.0, 5.0, 6.0, 2.0, 3.0, 5.0),
                New(3.0, 2.0, 4.0, 3.0, 3.0, 9.0, 4.0, 4.0, 2.0))
         == New(11.04, 10.04, -6.98, 51.0, 47.0, 73.0, 35.0, 33.0, 45.0)
  {
  }

  /** Subtraction undoes addition, and addition commutes. */
  lemma AddSubCancel(a: Matrix3f, b: Matrix3f)
    ensures Sub(Add(a, b), b) == a
    ensures Add(a, b) == Add(b, a)
  {
    assert Sub(Add(a, b), b).data == a.data;
    assert Add(a, b).data == Add(b, a).data;
  }

  /** The sum asserted by the repository's `test_add`, over the reals. */
  lemma AddExample()
    ensures Add(New(1.1, 2.2, -1.0, 0.0, 1.0, 0.0, 2.0, 1.0, -1.0),
                New(-0.01, 1.0, -0.3, 1.0, 1.0, 1.0, 1.2, 3.3, 43.0))
         == New(1.09, 3.2, -1.3, 1.0, 2.0, 1.0, 3.2, 4.3, 42.0)
  {
  }

  // ---------------------------------------------------------------------
  // The corrected cofactor, adjugate and inverse

  /** The checkerboard sign is the only difference between `cofactor` as
      written and the classical cofactor matrix. */
  lemma CofactorSignPattern(m: Matrix3f)
    ensures forall i: nat, j: nat | i < 3 && j < 3 ::
      Entry(CofactorSigned(m), i, j) == if Negated(i, j) then -Entry(Cofactor(m), i, j) else Entry(Cofactor(m), i, j)
  {
    var c, t := Cofactor(m), CofactorSigned(m);
    assert t.data[0] == c.data[0] && t.data[1] == -c.data[1] && t.data[2] == c.data[2];
    assert t.data[3] == -c.data[3] && t.data[4] == c.data[4] && t.data[5] == -c.data[5];
    assert t.data[6] == c.data[6] && t.data[7] == -c.data[7] && t.data[8] == c.data[8];
    forall i: nat, j: nat | i < 3 && j < 3
      ensures Entry(t, i, j) == if Negated(i, j) then -Entry(c, i, j) else Entry(c, i, j)
    {
      assert i == 0 || i == 1 || i == 2;
      assert j == 0 || j == 1 || j == 2;
    }
  }

  /** The columns of the classical adjugate are the cross products of pairs
      of rows. */
  lemma AdjugateSignedColumns(m: Matrix3f)
    ensures Col(AdjugateSigned(m), 0) == Vec3.Cross(Row(m, 1), Row(m, 2))
    ensures Col(AdjugateSigned(m), 1) == Vec3.Cross(Row(m, 2), Row(m, 0))
    ensures Col(AdjugateSigned(m), 2) == Vec3.Cross(Row(m, 0), Row(m, 1))
  {
  }

  /** The rows of the classical adjugate are the cross products of pairs
      of columns. */
  lemma AdjugateSignedRows(m: Matrix3f)
    ensures Row(AdjugateSigned(m), 0) == Vec3.Cross(Col(m, 1), Col(m, 2))
    ensures Row(AdjugateSigned(m), 1) == Vec3.Cross(Col(m, 2), Col(m, 0))
    ensures Row(AdjugateSigned(m), 2) == Vec3.Cross(Col(m, 0), Col(m, 1))
  {
    AdjugateSignedRow0(m);
    AdjugateSignedRow1(m);
    AdjugateSignedRow2(m);
  }

  lemma AdjugateSignedRow0(m: Matrix3f)
    ensures Row(AdjugateSigned(m), 0) == Vec3.Cross(Col(m, 1), Col(m, 2))
  {
    var d := m.data;
    TimesCommutative(d[5], d[7]);
    TimesCommutative(d[2], d[7]);
    TimesCommutative(d[2], d[4]);
  }

  lemma AdjugateSignedRow1(m: Matrix3f)
    ensures Row(AdjugateSigned(m), 1) == Vec3.Cross(Col(m, 2), Col(m, 0))
  {
    var d := m.data;
    TimesCommutative(d[5], d[6]);
    TimesCommutative(d[2], d[6]);
    TimesCommutative(d[2], d[3]);
  }

  lemma AdjugateSignedRow2(m: Matrix3f)
    ensures Row(AdjugateSigned(m), 2) == Vec3.Cross(Col(m, 0), Col(m, 1))
  {
    var d := m.data;
    TimesCommutative(d[4], d[6]);
    TimesCommutative(d[1], d[6]);
    TimesCommutative(d[1], d[3]);
  }

  /** The classical adjugate satisfies m * adj(m) == det(m) I. */
  lemma MulAdjugateSignedRight(m: Matrix3f)
    ensures Mul(m, AdjugateSigned(m)) == Scale(Identity(), Determinant(m))
  {
    AdjugateSignedColumns(m);
    DeterminantTripleProduct(m);
    Vec3.TripleProductCyclic(Row(m, 0), Row(m, 1), Row(m, 2));
    Vec3.CrossOrthogonal(Row(m, 1), Row(m, 2));
    Vec3.CrossOrthogonal(Row(m, 2), Row(m, 0));
    Vec3.CrossOrthogonal(Row(m, 0), Row(m, 1));
    SameData(Mul(m, AdjugateSigned(m)), Scale(Identity(), Determinant(m)));
  }

  /** The classical adjugate satisfies adj(m) * m == det(m) I. */
  lemma MulAdjugateSignedLeft(m: Matrix3f)
    ensures Mul(AdjugateSigned(m), m) == Scale(Identity(), Determinant(m))
  {
    AdjugateSignedRows(m);
    DeterminantTranspose(m);
    DeterminantTripleProduct(Transpose(m));
    TransposeEntries(m);
    Vec3.TripleProductCyclic(Col(m, 0), Col(m, 1), Col(m, 2));
    Vec3.CrossOrthogonal(Col(m, 1), Col(m, 2));
    Vec3.CrossOrthogonal(Col(m, 2), Col(m, 0));
    Vec3.CrossOrthogonal(Col(m, 0), Col(m, 1));
    Vec3.DotSymmetric(Vec3.Cross(Col(m, 1), Col(m, 2)), Col(m, 0));
    Vec3.DotSymmetric(Vec3.Cross(Col(m, 1), Col(m, 2)), Col(m, 1));
    Vec3.DotSymmetric(Vec3.Cross(Col(m, 1), Col(m, 2)), Col(m, 2));
    Vec3.DotSymmetric(Vec3.Cross(Col(m, 2), Col(m, 0)), Col(m, 0));
    Vec3.DotSymmetric(Vec3.Cross(Col(m, 2), Col(m, 0)), Col(m, 1));
    Vec3.DotSymmetric(Vec3.Cross(Col(m, 2), Col(m, 0)), Col(m, 2));
    Vec3.DotSymmetric(Vec3.Cross(Col(m, 0), Col(m, 1)), Col(m, 0));
    Vec3.DotSymmetric(Vec3.Cross(Col(m, 0), Col(m, 1)), Col(m, 1));
    Vec3.DotSymmetric(Vec3.Cross(Col(m, 0), Col(m, 1)), Col(m, 2));
    SameData(Mul(AdjugateSigned(m), m), Scale(Identity(), Determinant(m)));
  }

  /** Scaling the right factor of a product by s scales the product by s. */
  lemma MulScaleRight(a: Matrix3f, b: Matrix3f, s: real)
    ensures Mul(a, Scale(b, s)) == Scale(Mul(a, b), s)
  {
    ScaleRowCol(b, s, 0); ScaleRowCol(b, s, 1); ScaleRowCol(b, s, 2);
    Vec3.DotScale(Row(a, 0), Col(b, 0), s); Vec3.DotScale(Row(a, 0), Col(b, 1), s); Vec3.DotScale(Row(a, 0), Col(b, 2), s);
    Vec3.DotScale(Row(a, 1), Col(b, 0), s); Vec3.DotScale(Row(a, 1), Col(b, 1), s); Vec3.DotScale(Row(a, 1), Col(b, 2), s);
    Vec3.DotScale(Row(a, 2), Col(b, 0), s); Vec3.DotScale(Row(a, 2), Col(b, 1), s); Vec3.DotScale(Row(a, 2), Col(b, 2), s);
    SameData(Mul(a, Scale(b, s)), Scale(Mul(a, b), s));
  }

  /** Scaling the left factor of a product by s scales the product by s. */
  lemma MulScaleLeft(a: Matrix3f, b: Matrix3f, s: real)
    ensures Mul(Scale(a, s), b) == Scale(Mul(a, b), s)
  {
    ScaleRowCol(a, s, 0); ScaleRowCol(a, s, 1); ScaleRowCol(a, s, 2);
    Vec3.DotScale(Row(a, 0), Col(b, 0), s); Vec3.DotScale(Row(a, 0), Col(b, 1), s); Vec3.DotScale(Row(a, 0), Col(b, 2), s);
    Vec3.DotScale(Row(a, 1), Col(b, 0), s); Vec3.DotScale(Row(a, 1), Col(b, 1), s); Vec3.DotScale(Row(a, 1), Col(b, 2), s);
    Vec3.DotScale(Row(a, 2), Col(b, 0), s); Vec3.DotScale(Row(a, 2), Col(b, 1), s); Vec3.DotScale(Row(a, 2), Col(b, 2), s);
    SameData(Mul(Scale(a, s), b), Scale(Mul(a, b), s));
  }

  /** Row and column k of a scaled matrix are row and column k scaled. */
  lemma ScaleRowCol(m: Matrix3f, s: real, k: nat)
    requires k < 3
    ensures Row(Scale(m, s), k) == Vec3.Scale(Row(m, k), s)
    ensures Col(Scale(m, s), k) == Vec3.Scale(Col(m, k), s)
  {
  }

  /** Scaling det(m) I by 1 / det(m) gives the identity. */
  lemma ScaledIdentityBack(d: real)
    requires d != 0.0
    ensures Scale(Scale(Identity(), d), 1.0 / d) == Identity()
  {
    assert d * (1.0 / d) == 1.0;
    SameData(Scale(Scale(Identity(), d), 1.0 / d), Identity());
  }

  /** The corrected inverse is a two-sided inverse of every matrix with a
      non-zero determinant. */
  lemma InverseSignedInverts(m: Matrix3f)
    requires Determinant(m) != 0.0
    ensures Mul(m, InverseSigned(m)) == Identity()
    ensures Mul(InverseSigned(m), m) == Identity()
  {
    MulAdjugateSignedRight(m);
    MulAdjugateSignedLeft(m);
    MulScaleRight(m, AdjugateSigned(m), 1.0 / Determinant(m));
    MulScaleLeft(AdjugateSigned(m), m, 1.0 / Determinant(m));
    ScaledIdentityBack(Determinant(m));
  }

  /** The sequential matrix of `test_cofactor`: the code returns the
      unsigned minors, not the signed values that test expects; the
      corrected cofactor matrix is those values. */
  lemma CofactorUnsignedExample()
    ensures Cofactor(New(1.0, 2.0, 3.0, 4.0, 5.0, 6.0, 7.0, 8.0, 9.0))
         == New(-3.0, -6.0, -3.0, -6.0, -12.0, -6.0, -3.0, -6.0, -3.0)
    ensures CofactorSigned(New(1.0, 2.0, 3.0, 4.0, 5.0, 6.0, 7.0, 8.0, 9.0))
         == New(-3.0, 6.0, -3.0, 6.0, -12.0, 6.0, -3.0, 6.0, -3.0)
  {
  }

  /** The matrix of `test_inverse` has determinant 1, yet `inverse` as
      written returns the transposed unsigned minors, not the value that test
      expects, and entry (0, 0) of its product with the matrix is 31. */
  lemma InverseExample()
    ensures Determinant(New(0.0, -3.0, -2.0, 1.0, -4.0, -2.0, -3.0, 4.0, 1.0)) == 1.0
    ensures Inverse(New(0.0, -3.0, -2.0, 1.0, -4.0, -2.0, -3.0, 4.0, 1.0))
         == New(4.0, 5.0, -2.0, -5.0, -6.0, 2.0, -8.0, -9.0, 3.0)
    ensures Mul(New(0.0, -3.0, -2.0, 1.0, -4.0, -2.0, -3.0, 4.0, 1.0),
                Inverse(New(0.0, -3.0, -2.0, 1.0, -4.0, -2.0, -3.0, 4.0, 1.0))).data[0] == 31.0
  {
    var m := New(0.0, -3.0, -2.0, 1.0, -4.0, -2.0, -3.0, 4.0, 1.0);
    var adj := New(4.0, 5.0, -2.0, -5.0, -6.0, 2.0, -8.0, -9.0, 3.0);
    assert Determinant(m) == 1.0;
    assert Cofactor(m) == New(4.0, -5.0, -8.0, 5.0, -6.0, -9.0, -2.0, 2.0, 3.0);
    assert Adjugate(m) == adj;
    SameData(Inverse(m), adj);
    assert Mul(m, adj).data[0] == Vec3.Dot(Row(m, 0), Col(adj, 0));
  }

  /** The corrected inverse of the `test_inverse` matrix is the value that
      test expects. */
  lemma InverseSignedExample()
    ensures InverseSigned(New(0.0, -3.0, -2.0, 1.0, -4.0, -2.0, -3.0, 4.0, 1.0))
         == New(4.0, -5.0, -2.0, 5.0, -6.0, -2.0, -8.0, 9.0, 3.0)
  {
  }

  // ---------------------------------------------------------------------
  // In-place operators

  /** A `Matrix3f` place that `+=`, `-=` and `*=` overwrite (`&mut self`);
      its nine entries are a fixed-size array. */
  class Matrix3fMut {
    const data: array<real>

    ghost predicate Valid()
      reads this
    {
      data.Length == 9
    }

    function Value(): Matrix3f
      reads this, data
      requires Valid()
    {
      Matrix3f(data[..])
    }

    constructor (m: Matrix3f)
      ensures Valid() && fresh(data)
      ensures Value() == m
    {
      data := new real[9](k requires 0 <= k < 9 => m.data[k]);
    }

    /** Overwrites all nine entries with those of `m`. */
    method Store(m: Matrix3f)
      requires Valid()
      modifies data
      ensures Value() == m
    {
      forall k | 0 <= k < 9 {
        data[k] := m.data[k];
      }
      assert data[..] == m.data;
    }

    /** `AddAssign`: the new value is the sum of the old value and `other`. */
    method AddAssign(other: Matrix3f)
      requires Valid()
      modifies data
      ensures Value() == Add(old(Value()), other)
    {
      Store(Add(Value(), other));
    }

    /** `SubAssign`: the new value is the old value minus `other`. */
    method SubAssign(other: Matrix3f)
      requires Valid()
      modifies data
      ensures Value() == Sub(old(Value()), other)
    {
      Store(Sub(Value(), other));
    }

    /** `MulAssign`: the new value is the old value times `other`. */
    method MulAssign(other: Matrix3f)
      requires Valid()
      modifies data
      ensures Value() == Mul(old(Value()), other)
    {
      Store(Mul(Value(), other));
    }
  }
}
