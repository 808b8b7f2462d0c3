/** code26.c: the 3x3 determinant, inverse and matrix-vector product, and
    `solve_matrix_problem_simplified`, which rebuilds the first column of a
    matrix A from the eigenpairs A·v1 = 2·v1, A·v2 = 2·v2, A·v3 = 4·v3 and
    reports a11 + a21 + a31 plus the degree of the minimal polynomial. */
module MatrixProblem {
  import opened Numeric
  import opened Mat3

  /** `determinant_3x3`: the expansion along row 0. */
  function Determinant3x3(m: Mat3): (det: real)
    ensures det == Det(m)
  {
    CofactorDet(m)
  }

  /** The status code and the contents of `inv` after `inverse_3x3`. */
  datatype InverseOut = InverseOut(status: int, inv: Mat3)

  /** Each entry of `m` times `s`, in the order the C code writes it. */
  function TimesRight(m: Mat3, s: real): (r: Mat3)
    ensures r == Scale(s, m)
  {
    ScaleEntries(s, m);
    Mat3(m.a * s, m.b * s, m.c * s, m.d * s, m.e * s, m.f * s, m.g * s, m.h * s, m.i * s)
  }

  /** `inverse_3x3(m, inv)`, where `inv` is what the output array held
      before the call. */
  function Inverse3x3(m: Mat3, inv: Mat3): (out: InverseOut)
    ensures out.status == 0 || out.status == 1
    ensures out.status == 0 <==> Abs(Det(m)) < Eps
    ensures out.status == 0 ==> out.inv == inv
    ensures out.status == 1 ==> Det(m) != 0.0 && out.inv == Inverse(m)
    ensures out.status == 1 ==> Mul(m, out.inv) == Identity && Mul(out.inv, m) == Identity
  {
    var det := Determinant3x3(m);
    if Abs(det) < Eps then InverseOut(0, inv)
    else
      var invDet := 1.0 / det;
      InverseIsTwoSided(m);
      InverseOut(1, TimesRight(Adj(m), invDet))
  }

  /** `multiply_mat_vec_3x3`: the columns of `mat` weighted by the entries
      of `vec`. */
  function MultiplyMatVec3x3(mat: Mat3, vec: Vec3): (result: Vec3)
    ensures result == Combine(vec.x, Column(mat, 0), vec.y, Column(mat, 1), vec.z, Column(mat, 2))
  {
    Vec3(mat.a * vec.x + mat.b * vec.y + mat.c * vec.z,
         mat.d * vec.x + mat.e * vec.y + mat.f * vec.z,
         mat.g * vec.x + mat.h * vec.y + mat.i * vec.z)
  }

  lemma MultiplyIsMulVec(mat: Mat3, vec: Vec3)
    ensures MultiplyMatVec3x3(mat, vec) == MulVec(mat, vec)
  {
  }

  // ---------------------------------------------------------------------
  // The eigen data of the problem

  const V1: Vec3 := Vec3(1.0, 2.0, 1.0)
  const V2: Vec3 := Vec3(0.0, 1.0, 1.0)
  const V3: Vec3 := Vec3(-1.0, 1.0, 0.0)
  const Lambda1: real := 2.0
  const Lambda2: real := 2.0
  const Lambda3: real := 4.0
  const E1: Vec3 := Vec3(1.0, 0.0, 0.0)

  /** P = [v1 | v2 | v3], written out row by row as in the C source. */
  const P: Mat3 := Mat3(1.0, 0.0, -1.0,
                        2.0, 1.0, 1.0,
                        1.0, 1.0, 0.0)

  lemma PHasEigenvectorColumns()
    ensures P == FromColumns(V1, V2, V3)
  {
  }

  /** det P = −2, so `inverse_3x3(P, ·)` succeeds whatever `inv` held, and
      c = P⁻¹·e1 = (1/2, −1/2, −1/2) solves P·c = e1. */
  lemma InvertP(inv: Mat3)
    ensures Det(P) == -2.0
    ensures Inverse3x3(P, inv).status == 1
    ensures MulVec(P, MulVec(Inverse3x3(P, inv).inv, E1)) == E1
    ensures MulVec(Inverse3x3(P, inv).inv, E1) == Vec3(0.5, -0.5, -0.5)
  {
    assert Det(P) == -2.0;
    assert Adj(P) == Mat3(-1.0, -1.0, 1.0, 1.0, 1.0, -3.0, 1.0, -1.0, 1.0);
    assert 1.0 / Det(P) == -0.5;
    var pInv := Mat3(0.5, 0.5, -0.5, -0.5, -0.5, 1.5, -0.5, 0.5, -0.5);
    assert Inverse(P) == pInv;
    assert Inverse3x3(P, inv) == InverseOut(1, pInv);
    InverseSolves(P, E1);
  }

  /** The three `+=` blocks: c1·2·v1 + c2·2·v2 + c3·4·v3, entry by entry. */
  function Accumulate(c: Vec3): (acc: Vec3)
    ensures acc == Combine(c.x * Lambda1, V1, c.y * Lambda2, V2, c.z * Lambda3, V3)
  {
    var a0 := 0.0 + c.x * 2.0 * V1.x + c.y * 2.0 * V2.x + c.z * 4.0 * V3.x;
    var a1 := 0.0 + c.x * 2.0 * V1.y + c.y * 2.0 * V2.y + c.z * 4.0 * V3.y;
    var a2 := 0.0 + c.x * 2.0 * V1.z + c.y * 2.0 * V2.z + c.z * 4.0 * V3.z;
    Vec3(a0, a1, a2)
  }

  /** For any matrix with the three eigenpairs, whenever c combines the
      eigenvectors into e1, the accumulated vector is A·e1, the first
      column of A. */
  lemma AccumulateIsFirstColumn(a: Mat3, c: Vec3)
    requires MulVec(a, V1) == ScaleVec(Lambda1, V1)
    requires MulVec(a, V2) == ScaleVec(Lambda2, V2)
    requires MulVec(a, V3) == ScaleVec(Lambda3, V3)
    requires Combine(c.x, V1, c.y, V2, c.z, V3) == E1
    ensures Accumulate(c) == MulVec(a, E1)
  {
    MulVecCombination(a, c.x, V1, c.y, V2, c.z, V3);
    ScaleVecAssoc(c.x, Lambda1, V1);
    ScaleVecAssoc(c.y, Lambda2, V2);
    ScaleVecAssoc(c.z, Lambda3, V3);
  }

  /** The two outputs `*result_sum` and `*minimal_poly_degree`. */
  datatype SolveOut = SolveOut(resultSum: real, minimalPolyDegree: int)

  /** The final steps shared by both versions: accumulate and add up. */
  function Finish(c: Vec3): (out: SolveOut)
    ensures out.minimalPolyDegree == 2
    ensures out.resultSum == 8.0 * c.x + 4.0 * c.y + 2.0
  {
    var degree := 2;
    var col := Accumulate(c);
    SolveOut(col.x + col.y + col.z + degree as real, degree)
  }

  /** `solve_matrix_problem_simplified` as written: `P_inverse` is never
      filled in, so c = P_inverse·e1 is the first column of whatever the
      uninitialised array held (`garbage`), and the result depends on it. */
  function SolveAsWritten(garbage: Mat3): (out: SolveOut)
    ensures out.minimalPolyDegree == 2
    ensures out.resultSum == 8.0 * garbage.a + 4.0 * garbage.d + 2.0
  {
    var c := MultiplyMatVec3x3(garbage, E1);
    Finish(c)
  }

  /** With a zeroed array the as-written routine reports 2, not 4. */
  lemma AsWrittenWithZeroedInverse()
    ensures SolveAsWritten(Mat3(0.0, 0.0, 0.0, 0.0, 0.0, 0.0, 0.0, 0.0, 0.0)).resultSum == 2.0
  {
  }

  /** The routine with the missing `inverse_3x3(P_matrix, P_inverse)` call
      put back before the product. The result no longer depends on what the
      array held: the degree is 2 and the sum is 4. */
  function SolveMatrixProblemSimplified(pInverse: Mat3): (out: SolveOut)
    ensures out == SolveOut(4.0, 2)
  {
    var r := Inverse3x3(P, pInverse);
    InvertP(pInverse);
    var c := MultiplyMatVec3x3(r.inv, E1);
    Finish(c)
  }

  /** c = (1/2, −1/2, −1/2) combines the eigenvectors into e1, so for every
      matrix A with the given eigenpairs A·e1 = (3, −1, 0). */
  lemma FirstColumnFromEigenpairs(a: Mat3)
    requires MulVec(a, V1) == ScaleVec(Lambda1, V1)
    requires MulVec(a, V2) == ScaleVec(Lambda2, V2)
    requires MulVec(a, V3) == ScaleVec(Lambda3, V3)
    ensures Accumulate(Vec3(0.5, -0.5, -0.5)) == MulVec(a, E1)
    ensures MulVec(a, E1) == Vec3(3.0, -1.0, 0.0)
  {
    CoefficientsCombine();
    AccumulateCoefficients();
    AccumulateIsFirstColumn(a, Vec3(0.5, -0.5, -0.5));
  }

  /** (1/2)·v1 − (1/2)·v2 − (1/2)·v3 = e1. */
  lemma CoefficientsCombine()
    ensures Combine(0.5, V1, -0.5, V2, -0.5, V3) == E1
  {
    assert ScaleVec(0.5, V1) == Vec3(0.5, 1.0, 0.5);
    assert ScaleVec(-0.5, V2) == Vec3(0.0, -0.5, -0.5);
    assert ScaleVec(-0.5, V3) == Vec3(0.5, -0.5, 0.0);
  }

  /** The three `+=` blocks with c = (1/2, −1/2, −1/2) give (3, −1, 0). */
  lemma AccumulateCoefficients()
    ensures Accumulate(Vec3(0.5, -0.5, -0.5)) == Vec3(3.0, -1.0, 0.0)
  {
  }

  /** The corrected routine accumulates exactly A·e1. */
  lemma CorrectedColumnIsFirstColumn(a: Mat3, pInverse: Mat3)
    requires MulVec(a, V1) == ScaleVec(Lambda1, V1)
    requires MulVec(a, V2) == ScaleVec(Lambda2, V2)
    requires MulVec(a, V3) == ScaleVec(Lambda3, V3)
    ensures Accumulate(MultiplyMatVec3x3(Inverse3x3(P, pInverse).inv, E1)) == MulVec(a, E1)
  {
    InvertP(pInverse);
    MultiplyIsMulVec(Inverse3x3(P, pInverse).inv, E1);
    FirstColumnFromEigenpairs(a);
  }
}
