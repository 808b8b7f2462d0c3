/** mat212.py: the pure-Python 3x3 determinant with its shape check, and
    the unique/infinite classification of the homogeneous system A·x = 0. */
module HomogeneousSystem {
  import opened Numeric
  import opened Mat3
  import DeterminantSolver

  datatype Error = ValueError(message: string)

  /** A two-dimensional array, given by its rows, has shape (3, 3). */
  predicate Is3x3(matrix: seq<seq<real>>) {
    |matrix| == 3 && forall r :: 0 <= r < 3 ==> |matrix[r]| == 3
  }

  function MatrixOf(matrix: seq<seq<real>>): Mat3
    requires Is3x3(matrix)
  {
    Mat3(matrix[0][0], matrix[0][1], matrix[0][2],
         matrix[1][0], matrix[1][1], matrix[1][2],
         matrix[2][0], matrix[2][1], matrix[2][2])
  }

  /** Row-major flattening, the layout the C routine takes. */
  function Flatten(matrix: seq<seq<real>>): (s: seq<real>)
    requires Is3x3(matrix)
    ensures |s| == 9
    ensures forall r, c :: 0 <= r < 3 && 0 <= c < 3 ==> s[3 * r + c] == matrix[r][c]
  {
    matrix[0] + matrix[1] + matrix[2]
  }

  /** `calculate_determinant_3x3_python`: ValueError unless the shape is
      (3, 3); otherwise the expansion along the first row. */
  function CalculateDeterminant3x3Python(matrix: seq<seq<real>>): (r: Result<real, Error>)
    ensures r.Failure? <==> !Is3x3(matrix)
    ensures r.Failure? ==> r.error == ValueError("Input matrix must be 3x3.")
    ensures r.Success? ==> r.value == Det(MatrixOf(matrix))
  {
    if !Is3x3(matrix) then Failure(ValueError("Input matrix must be 3x3."))
    else Success(CofactorDet(MatrixOf(matrix)))
  }

  /** On a 3x3 array the Python function and code21.c agree on the
      row-major flattening. */
  lemma PythonAgreesWithC(matrix: seq<seq<real>>)
    requires Is3x3(matrix)
    ensures CalculateDeterminant3x3Python(matrix)
         == Success(DeterminantSolver.CalculateDeterminant3x3(Flatten(matrix)))
  {
    assert FromFlat(Flatten(matrix)) == MatrixOf(matrix);
  }

  datatype SolutionKind = Unique | Infinite

  /** The script's conclusion and its `has_intersection_line` flag. */
  datatype Conclusion = Conclusion(kind: SolutionKind, hasIntersectionLine: bool)

  /** |det| > 1e-9 means a unique solution; anything else is read as
      infinitely many, drawn as a line of intersection. */
  function Classify(det: real): (c: Conclusion)
    ensures c.kind == Unique <==> Abs(det) > Eps
    ensures c.hasIntersectionLine <==> c.kind == Infinite
  {
    if Abs(det) > Eps then Conclusion(Unique, false) else Conclusion(Infinite, true)
  }

  /** When the verdict is "unique", the origin is the only solution. */
  lemma UniqueMeansOnlyTrivial(m: Mat3, x: Vec3)
    requires Classify(Det(m)).kind == Unique
    requires MulVec(m, x) == Zero3
    ensures x == Zero3
  {
    NonSingularKernelTrivial(m, x);
  }

  /** The origin solves every homogeneous system. */
  lemma OriginSolves(m: Mat3)
    ensures MulVec(m, Zero3) == Zero3
  {
  }

  /** The coefficient matrix of 2x1 + x2 + x3 = 0, x2 − x3 = 0, x1 + x2 = 0. */
  const Coefficients: seq<seq<real>> := [[2.0, 1.0, 1.0], [0.0, 1.0, -1.0], [1.0, 1.0, 0.0]]

  /** Its determinant is exactly 0, so the infinite branch is taken. */
  lemma ExampleIsInfinite()
    ensures CalculateDeterminant3x3Python(Coefficients) == Success(0.0)
    ensures Classify(0.0) == Conclusion(Infinite, true)
  {
  }

  /** The solutions of the example system are exactly the points (−t, t, t). */
  lemma ExampleSolutionsAreTheLine(x: Vec3)
    ensures MulVec(MatrixOf(Coefficients), x) == Zero3 <==> x == Vec3(-x.y, x.y, x.y)
  {
  }

  /** mat211.py passes the same matrix as a flat array to code21.c and
      concludes "infinite number of solutions". */
  lemma Mat211IsInfinite()
    ensures DeterminantSolver.CalculateDeterminant3x3([2.0, 1.0, 1.0, 0.0, 1.0, -1.0, 1.0, 1.0, 0.0]) == 0.0
    ensures Classify(0.0).kind == Infinite
  {
  }
}
