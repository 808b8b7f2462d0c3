/** mat262.py: `solve_matrix_problem_pure_python`, the NumPy twin of
    code26.c. The eigen data are parameters here; the script fixes them to
    v1 = (1,2,1), v2 = (0,1,1), v3 = (−1,1,0) with eigenvalues 2, 2, 4.
    `np.linalg.det` and `np.linalg.inv` are modelled by the exact
    determinant and inverse. */
module MatrixProblemPython {
  import opened Numeric
  import opened Mat3
  import MatrixProblem

  /** `np.linalg.inv` raises on a singular matrix. */
  datatype Error = LinAlgError

  /** What the script computes, in the order it computes it. */
  datatype Report = Report(
    detP: real,          // det of the eigenvector matrix
    independent: bool,   // the branch of the `np.isclose(det_P, 0)` test
    m: nat,              // number of distinct eigenvalues
    c: Vec3,             // P⁻¹·e1
    firstColumn: Vec3,   // Σ cᵢ·λᵢ·vᵢ
    finalSum: real)      // a11 + a21 + a31 + m

  /** `np.isclose(x, 0)` with NumPy's default tolerances: |x| ≤ 1e-8. */
  predicate IsCloseToZero(x: real) {
    Abs(x) <= 0.00000001
  }

  /** `len({l1, l2, l3})`. */
  function DistinctCount(l1: real, l2: real, l3: real): (n: nat)
    ensures n == |{l1, l2, l3}|
  {
    if l1 == l2 && l2 == l3 then 1
    else if l1 == l2 || l2 == l3 || l1 == l3 then 2
    else 3
  }

  /** The count is between 1 and 3; it is 1 exactly when all three agree
      and 3 exactly when they are pairwise different. */
  lemma DistinctCountBounds(l1: real, l2: real, l3: real)
    ensures 1 <= DistinctCount(l1, l2, l3) <= 3
    ensures DistinctCount(l1, l2, l3) == 1 <==> l1 == l2 == l3
    ensures DistinctCount(l1, l2, l3) == 3 <==> l1 != l2 && l2 != l3 && l1 != l3
  {
  }

  /** The whole script for given eigen data. */
  function SolvePurePython(v1: Vec3, v2: Vec3, v3: Vec3, l1: real, l2: real, l3: real)
    : (r: Result<Report, Error>)
    ensures r.Failure? <==> Det(FromColumns(v1, v2, v3)) == 0.0
    ensures r.Success? ==> (r.value.independent <==> !IsCloseToZero(Det(FromColumns(v1, v2, v3))))
    ensures r.Success? ==> r.value.m == |{l1, l2, l3}|
    ensures r.Success? ==> r.value.detP == Det(FromColumns(v1, v2, v3))
    ensures r.Success? ==> MulVec(FromColumns(v1, v2, v3), r.value.c) == MatrixProblem.E1
    ensures r.Success? ==> r.value.firstColumn
                           == Rebuild(r.value.c, v1, v2, v3, l1, l2, l3)
    ensures r.Success? ==> r.value.finalSum
                           == r.value.firstColumn.x + r.value.firstColumn.y + r.value.firstColumn.z
                              + r.value.m as real
  {
    var p := FromColumns(v1, v2, v3);
    var detP := Det(p);
    var independent := !IsCloseToZero(detP);
    var m := DistinctCount(l1, l2, l3);
    if detP == 0.0 then Failure(LinAlgError)
    else
      var c := Coefficients(p);
      var col := Rebuild(c, v1, v2, v3, l1, l2, l3);
      Success(Report(detP, independent, m, c, col, col.x + col.y + col.z + m as real))
  }

  /** `np.dot(np.linalg.inv(P), e1)`. */
  function Coefficients(p: Mat3): (c: Vec3)
    requires Det(p) != 0.0
    ensures MulVec(p, c) == MatrixProblem.E1
  {
    InverseSolves(p, MatrixProblem.E1);
    MulVec(Inverse(p), MatrixProblem.E1)
  }

  /** `(c1 * lambda1 * v1) + (c2 * lambda2 * v2) + (c3 * lambda3 * v3)`. */
  function Rebuild(c: Vec3, v1: Vec3, v2: Vec3, v3: Vec3, l1: real, l2: real, l3: real): Vec3 {
    Combine(c.x * l1, v1, c.y * l2, v2, c.z * l3, v3)
  }

  /** For any eigen data with independent eigenvectors and any matrix A
      having those eigenpairs, the rebuilt column is A·e1. */
  lemma FirstColumnIsAe1(a: Mat3, v1: Vec3, v2: Vec3, v3: Vec3, l1: real, l2: real, l3: real)
    requires MulVec(a, v1) == ScaleVec(l1, v1)
    requires MulVec(a, v2) == ScaleVec(l2, v2)
    requires MulVec(a, v3) == ScaleVec(l3, v3)
    requires Det(FromColumns(v1, v2, v3)) != 0.0
    ensures SolvePurePython(v1, v2, v3, l1, l2, l3).Success?
    ensures SolvePurePython(v1, v2, v3, l1, l2, l3).value.firstColumn == MulVec(a, MatrixProblem.E1)
  {
    var r := SolvePurePython(v1, v2, v3, l1, l2, l3);
    FromColumnsCombines(v1, v2, v3, r.value.c);
    RebuildIsImage(a, r.value.c, v1, v2, v3, l1, l2, l3, MatrixProblem.E1);
  }

  /** Whenever c combines the eigenvectors into e (the script uses e1),
      the same combination of the eigenvalue-scaled eigenvectors is A·e. */
  lemma RebuildIsImage(a: Mat3, c: Vec3, v1: Vec3, v2: Vec3, v3: Vec3, l1: real, l2: real, l3: real, e: Vec3)
    requires MulVec(a, v1) == ScaleVec(l1, v1)
    requires MulVec(a, v2) == ScaleVec(l2, v2)
    requires MulVec(a, v3) == ScaleVec(l3, v3)
    requires Combine(c.x, v1, c.y, v2, c.z, v3) == e
    ensures Rebuild(c, v1, v2, v3, l1, l2, l3) == MulVec(a, e)
  {
    ImageOfCombination(a, c.x, v1, c.y, v2, c.z, v3, l1, l2, l3);
    RebuildFromImage(a, c, v1, v2, v3, l1, l2, l3, e);
  }

  /** The second half of `RebuildIsImage`: once A·(Σcᵢvᵢ) is known to be
      Σcᵢ(λᵢvᵢ), it is the rebuilt column. */
  lemma RebuildFromImage(a: Mat3, c: Vec3, v1: Vec3, v2: Vec3, v3: Vec3, l1: real, l2: real, l3: real, e: Vec3)
    requires MulVec(a, Combine(c.x, v1, c.y, v2, c.z, v3))
          == Combine(c.x, ScaleVec(l1, v1), c.y, ScaleVec(l2, v2), c.z, ScaleVec(l3, v3))
    requires Combine(c.x, v1, c.y, v2, c.z, v3) == e
    ensures Rebuild(c, v1, v2, v3, l1, l2, l3) == MulVec(a, e)
  {
    CombineScaled(c.x, l1, v1, c.y, l2, v2, c.z, l3, v3);
    RebuildUnfold(c, v1, v2, v3, l1, l2, l3);
  }

  lemma RebuildUnfold(c: Vec3, v1: Vec3, v2: Vec3, v3: Vec3, l1: real, l2: real, l3: real)
    ensures Rebuild(c, v1, v2, v3, l1, l2, l3) == Combine(c.x * l1, v1, c.y * l2, v2, c.z * l3, v3)
  {
  }

  /** A applied to a combination of its eigenvectors scales each term by
      its eigenvalue. */
  lemma ImageOfCombination(a: Mat3, s: real, u: Vec3, t: real, v: Vec3, w: real, z: Vec3,
                           l1: real, l2: real, l3: real)
    requires MulVec(a, u) == ScaleVec(l1, u)
    requires MulVec(a, v) == ScaleVec(l2, v)
    requires MulVec(a, z) == ScaleVec(l3, z)
    ensures MulVec(a, Combine(s, u, t, v, w, z))
         == Combine(s, ScaleVec(l1, u), t, ScaleVec(l2, v), w, ScaleVec(l3, z))
  {
    MulVecCombination(a, s, u, t, v, w, z);
  }

  /** The script itself: the eigen data of code26.c. */
  function Script(): Result<Report, Error> {
    SolvePurePython(MatrixProblem.V1, MatrixProblem.V2, MatrixProblem.V3,
                    MatrixProblem.Lambda1, MatrixProblem.Lambda2, MatrixProblem.Lambda3)
  }

  /** P = [v1 | v2 | v3] is the matrix code26.c writes out, det P = −2 and
      P·(1/2, −1/2, −1/2) = e1. */
  lemma ScriptMatrix()
    ensures FromColumns(MatrixProblem.V1, MatrixProblem.V2, MatrixProblem.V3) == MatrixProblem.P
    ensures Det(MatrixProblem.P) == -2.0
    ensures MulVec(MatrixProblem.P, Vec3(0.5, -0.5, -0.5)) == MatrixProblem.E1
  {
    MatrixProblem.PHasEigenvectorColumns();
    MatrixProblem.InvertP(MatrixProblem.P);
  }

  /** det P is −2, far from 0, so the "linearly independent" branch is
      taken and the inverse exists; m = |{2, 2, 4}| = 2. */
  lemma ScriptBranch()
    ensures Script().Success?
    ensures Script().value.detP == -2.0
    ensures Script().value.independent
    ensures Script().value.m == 2
  {
    ScriptSucceeds();
    ScriptDeterminant();
    ScriptIndependent();
    ScriptDistinctCount();
  }

  // The four facts of `ScriptBranch`, one per lemma to keep each query small.

  lemma ScriptSucceeds()
    ensures Script().Success?
  {
    ScriptMatrix();
    IndependentBranch(MatrixProblem.V1, MatrixProblem.V2, MatrixProblem.V3,
                      MatrixProblem.Lambda1, MatrixProblem.Lambda2, MatrixProblem.Lambda3);
  }

  lemma ScriptDeterminant()
    ensures Script().Success? ==> Script().value.detP == -2.0
  {
    ScriptMatrix();
    IndependentBranch(MatrixProblem.V1, MatrixProblem.V2, MatrixProblem.V3,
                      MatrixProblem.Lambda1, MatrixProblem.Lambda2, MatrixProblem.Lambda3);
  }

  lemma ScriptIndependent()
    ensures Script().Success? ==> Script().value.independent
  {
    ScriptMatrix();
    IndependentBranch(MatrixProblem.V1, MatrixProblem.V2, MatrixProblem.V3,
                      MatrixProblem.Lambda1, MatrixProblem.Lambda2, MatrixProblem.Lambda3);
  }

  lemma ScriptDistinctCount()
    ensures Script().Success? ==> Script().value.m == 2
  {
    RepeatedValueCount(MatrixProblem.Lambda1, MatrixProblem.Lambda3);
  }

  /** Eigenvectors whose matrix has determinant −2 take the independent branch. */
  lemma IndependentBranch(v1: Vec3, v2: Vec3, v3: Vec3, l1: real, l2: real, l3: real)
    requires Det(FromColumns(v1, v2, v3)) == -2.0
    ensures SolvePurePython(v1, v2, v3, l1, l2, l3).Success?
    ensures SolvePurePython(v1, v2, v3, l1, l2, l3).value.detP == -2.0
    ensures SolvePurePython(v1, v2, v3, l1, l2, l3).value.independent
  {
    assert !IsCloseToZero(-2.0);
  }

  /** {x, x, y} with x ≠ y has two elements. */
  lemma RepeatedValueCount(x: real, y: real)
    requires x != y
    ensures |{x, x, y}| == 2
  {
    assert {x, x, y} == {x} + {y};
  }

  /** c = (1/2, −1/2, −1/2): the unique solution of P·c = e1. */
  lemma ScriptCoefficients()
    ensures Script().Success?
    ensures Script().value.c == Vec3(0.5, -0.5, -0.5)
  {
    ScriptMatrix();
    MulVecInjective(MatrixProblem.P, Script().value.c, Vec3(0.5, -0.5, -0.5));
  }

  /** The first column is (3, −1, 0) and the returned value is 4. */
  lemma ScriptResult()
    ensures Script().Success?
    ensures Script().value.firstColumn == Vec3(3.0, -1.0, 0.0)
    ensures Script().value.finalSum == 4.0
  {
    ScriptBranch();
    ScriptCoefficients();
    MatrixProblem.AccumulateCoefficients();
    assert Rebuild(Vec3(0.5, -0.5, -0.5), MatrixProblem.V1, MatrixProblem.V2, MatrixProblem.V3,
                   MatrixProblem.Lambda1, MatrixProblem.Lambda2, MatrixProblem.Lambda3)
        == Vec3(3.0, -1.0, 0.0);
  }

  /** The script and the corrected code26.c routine report the same sum,
      and the C routine's fixed degree 2 is the distinct-eigenvalue count. */
  lemma AgreesWithCorrectedC(pInverse: Mat3)
    ensures Script().Success?
    ensures Script().value.finalSum == MatrixProblem.SolveMatrixProblemSimplified(pInverse).resultSum
    ensures Script().value.m == MatrixProblem.SolveMatrixProblemSimplified(pInverse).minimalPolyDegree
  {
    ScriptBranch();
    ScriptResult();
    assert MatrixProblem.SolveMatrixProblemSimplified(pInverse) == MatrixProblem.SolveOut(4.0, 2);
  }
}
