# Exact algebra of the matgeo homework scripts

The repository is a set of homework scripts in C and Python. Under the plotting sits a small layer of closed-form algebra, and this project models that layer in Dafny. C `double` and Python floats become `real`, and C `int` becomes the unbounded `int`, so every property below holds over exact arithmetic.

The modules:

- `Numeric`: `Option`/`Result`, the 1e-9 tolerance `Eps`, `Abs` for `fabs`, and square-root witnesses (`IsSqrt`).
- `Mat3`: 3×3 real matrices and vectors. It has the Leibniz determinant, the adjugate and inverse, products, and the laws the scripts rely on: M·M⁻¹ = M⁻¹·M = I, that the inverse solves the system, that the kernel is trivial when det ≠ 0, and linearity.
- `RankElimination`: `swapRows` and `calculate_rank` from `12.680/codes/code25.c`. The rank routine does fraction-free Gauss–Jordan elimination over a row-major flat `int` array. It is written as Dafny methods with loop invariants and checked against a functional model of the outer loop (`Step`/`Reduce`). The result is proved to be the number of pivots, which equals the number of non-zero rows of the reduced matrix. The module also proves the example matrix of `mat251.py` has rank 2.
- `DeterminantSolver`: `calculate_determinant_3x3` of `12.264/codes/code21.c` over a flat array of nine entries.
- `HomogeneousSystem`: `calculate_determinant_3x3_python` of `12.264/codes/mat212.py` (the shape check raises `ValueError`), the unique/infinite classification, and the example system whose solutions are the line (−t, t, t).
- `KMatrixDeterminant`: `calculate_determinant` of `12.368/codes/code22.c`, applied to the k-matrix of `mat221.py`/`mat222.py`. It shows det = −2k − 2, which is zero iff k = −1, and rank 2 / nullity 1 at k = −1.
- `MatrixProblem`: `determinant_3x3`, `inverse_3x3`, `multiply_mat_vec_3x3` and `solve_matrix_problem_simplified` of `12.784/codes/code26.c`. This module covers the defect described under Findings.
- `MatrixProblemPython`: `solve_matrix_problem_pure_python` of `12.784/codes/mat262.py`. The first column of A is rebuilt from three eigenpairs, giving (3, −1, 0) and a final sum of 4.
- `Eigen2x2`: `findEigenvalues` of `12.888/codes/code27.c` and the candidate search of `mat271.py`.
- `TangentLength`: `calculateTangentLength` of `10.5.10/codes/code17.c` and its use in `mat172.py`.
- `LatusRectum`: `findIntersectionOfTangents` of `10.7.91/codes/code18.c` and its Python twin in `mat182.py`.

Conventions:

- `sqrt` is never computed. A function that needs √x takes a parameter `root` and requires `IsSqrt(root, x)`, that is `root >= 0 && root * root == x`, on the branch where the source calls `sqrt`.
- A C output cell that the routine does not write keeps its earlier value. That value is passed in and returned unchanged: `inv` in `inverse_3x3` on failure, `lambda1`/`lambda2` in `findEigenvalues` on status −1, `P_inverse` in `solve_matrix_problem_simplified`.
- Two-dimensional C arrays are `Mat3` records, and flat arrays are `seq<real>` read through `FromFlat`. `calculate_rank` works on the flat array, and its result is stated over the unflattened `seq<seq<int>>`.

The `mat251.py` matrix has rank 2: every row is the previous one plus (2, 2, 0, 2) (`RankElimination.Mat251Rank`).

## Model

| member | source | states |
|---|---|---|
| Numeric.Abs | ee25btech11043/matgeo/12.784/codes/code26.c:15 | `fabs`: the result is non-negative and is either x or −x |
| Numeric.SqrtUnique | ee25btech11043/matgeo/10.5.10/codes/code17.c:13 | the non-negative square root is unique, so any witness for `sqrt(x)` is the value the library returns |
| RankElimination.UnflattenEntry | ee25btech11043/matgeo/12.680/codes/code25.c:22 | the flat index `i * cols + j` read by the C code is entry (i, j) of the row-major matrix the model works on |
| RankElimination.Swapped | ee25btech11043/matgeo/12.680/codes/code25.c:6-12 | rows r1 and r2 trade places and every other row is unchanged |
| RankElimination.SwapSelf | ee25btech11043/matgeo/12.680/codes/code25.c:6-12 | swapping a row with itself leaves the matrix as it was |
| RankElimination.SwapInvolution | ee25btech11043/matgeo/12.680/codes/code25.c:6-12 | swapping the same two rows twice restores the matrix |
| RankElimination.SwapRows | ee25btech11043/matgeo/12.680/codes/code25.c:6-12 | the entry-by-entry swap loop computes exactly `Swapped` |
| RankElimination.PivotRow | ee25btech11043/matgeo/12.680/codes/code25.c:20-24 | the search stops at the first row at or after r with a non-zero entry in column `lead`, or at `rows` when every such entry is 0 |
| RankElimination.PivotRowUnique | ee25btech11043/matgeo/12.680/codes/code25.c:20-24 | any index with the first-non-zero property is the one the search returns |
| RankElimination.FindPivotRow | ee25btech11043/matgeo/12.680/codes/code25.c:20-24 | the `while` loop returns `PivotRow` |
| RankElimination.EliminateRow | ee25btech11043/matgeo/12.680/codes/code25.c:43-54 | one row's update keeps the columns left of `lead` and clears column `lead` when the factor and pivot are that row's and the pivot row's entries there |
| RankElimination.Eliminated | ee25btech11043/matgeo/12.680/codes/code25.c:41-56 | the pivot row is untouched, columns left of `lead` are untouched, and with a non-zero pivot every other row has 0 in column `lead` |
| RankElimination.EliminatedFrame | ee25btech11043/matgeo/12.680/codes/code25.c:41-56 | each entry afterwards is either the old entry or pivot·mᵢⱼ − mᵢ,lead·m_r,j, and which one it is |
| RankElimination.PivotGuardDead | ee25btech11043/matgeo/12.680/codes/code25.c:44-47 | after the swap the pivot entry is never 0, so the `pivot_val != 0` test always passes |
| RankElimination.EliminateColumn | ee25btech11043/matgeo/12.680/codes/code25.c:41-56 | the nested elimination loops compute `Eliminated` |
| RankElimination.Step | ee25btech11043/matgeo/12.680/codes/code25.c:19-57 | one pass of the outer loop: `lead` always advances, r advances exactly when a pivot exists, and without one the matrix is unchanged |
| RankElimination.Reduce | ee25btech11043/matgeo/12.680/codes/code25.c:19-57 | the outer loop ends with r == rows or lead == cols, r never outruns lead, and the loop terminates because lead rises each pass |
| RankElimination.CountNonZeroRows | ee25btech11043/matgeo/12.680/codes/code25.c:60-68 | the count of non-zero rows never exceeds the number of rows |
| RankElimination.CountRows | ee25btech11043/matgeo/12.680/codes/code25.c:60-68 | the counting loop returns `CountNonZeroRows` |
| RankElimination.Pass | ee25btech11043/matgeo/12.680/codes/code25.c:20-57 | one execution of the loop body (search, then swap and eliminate on a pivot, advance `lead`) moves the state exactly as `Step` |
| RankElimination.CalculateRank | ee25btech11043/matgeo/12.680/codes/code25.c:15-71 | the C routine returns `Rank` of the unflattened matrix: the pivot count, bounded by rows and cols through `RankIsPivotCount` |
| RankElimination.StartIsEchelon | ee25btech11043/matgeo/12.680/codes/code25.c:17-19 | before the first pass the (empty) echelon invariant holds |
| RankElimination.NoPivotStep | ee25btech11043/matgeo/12.680/codes/code25.c:26-31 | a pass without a pivot keeps the echelon invariant |
| RankElimination.PivotStep | ee25btech11043/matgeo/12.680/codes/code25.c:33-57 | a pass with a pivot keeps the echelon invariant: rows above r are non-zero and rows from r on are 0 in every column already passed |
| RankElimination.StepEchelon | ee25btech11043/matgeo/12.680/codes/code25.c:19-57 | every pass of the outer loop keeps the echelon invariant |
| RankElimination.ReduceEchelon | ee25btech11043/matgeo/12.680/codes/code25.c:19-57 | the invariant holds when the outer loop stops |
| RankElimination.CountSplit | ee25btech11043/matgeo/12.680/codes/code25.c:60-68 | with r non-zero rows on top and only zero rows below, the count is r |
| RankElimination.EchelonCount | ee25btech11043/matgeo/12.680/codes/code25.c:60-70 | at the end of elimination the number of non-zero rows equals the final r |
| RankElimination.RankIsPivotCount | ee25btech11043/matgeo/12.680/codes/code25.c:60-70 | the returned rank is the number of pivots found, and is bounded by rows and cols |
| RankElimination.PivotsPlusFree | ee25btech11043/matgeo/12.680/codes/code25.c:19-30 | from any state, the pivots still to be found plus the columns still to be skipped make up every remaining column |
| RankElimination.ReducedShape | ee25btech11043/matgeo/12.680/codes/code25.c:60-70 | after elimination the first `rank` rows are non-zero and all later rows are entirely 0 |
| RankElimination.ZeroNoPivot | ee25btech11043/matgeo/12.680/codes/code25.c:26-31 | on a zero matrix no pivot is ever found |
| RankElimination.NoPivotKeepsMatrix | ee25btech11043/matgeo/12.680/codes/code25.c:26-31 | when no pass finds a pivot, the matrix is never modified |
| RankElimination.RankZeroIff | ee25btech11043/matgeo/12.680/codes/code25.c:15-70 | the rank is 0 if and only if the matrix is all zeros |
| RankElimination.Mat251RowsDiffer | ee25btech11043/matgeo/12.680/codes/mat251.py:18-23 | consecutive rows of the example differ by (2, 2, 0, 2) |
| RankElimination.Mat251FirstPass | ee25btech11043/matgeo/12.680/codes/mat251.py:18-23 | the first pass on the example matrix, entry by entry |
| RankElimination.Mat251SecondPass | ee25btech11043/matgeo/12.680/codes/mat251.py:18-23 | the second pass, after which rows 2 and 3 are zero |
| RankElimination.Mat251LastPasses | ee25btech11043/matgeo/12.680/codes/mat251.py:18-23 | the remaining passes find no pivot and change nothing |
| RankElimination.Mat251Rank | ee25btech11043/matgeo/12.680/codes/mat251.py:18-23 | the example matrix has rank 2 |
| Mat3.CofactorDet | ee25btech11043/matgeo/12.784/codes/code26.c:5-9 | the expansion along row 0 equals the Leibniz determinant |
| Mat3.MulAdj | ee25btech11043/matgeo/12.784/codes/code26.c:21-31 | m times the adjugate is det(m) times the identity |
| Mat3.RightInverse | ee25btech11043/matgeo/12.784/codes/code26.c:19-31 | for det ≠ 0, m times adj(m)/det is the identity |
| Mat3.InverseIsTwoSided | ee25btech11043/matgeo/12.784/codes/code26.c:19-31 | for det ≠ 0, adj(m)/det is an inverse on both sides |
| Mat3.InverseSolves | ee25btech11043/matgeo/12.784/codes/code26.c:63-67 | for det ≠ 0, c = m⁻¹·b solves m·c = b |
| Mat3.NonSingularKernelTrivial | ee25btech11043/matgeo/12.264/codes/mat212.py:47-50 | for det ≠ 0, only the zero vector solves m·x = 0 |
| Mat3.MulVecInjective | ee25btech11043/matgeo/12.784/codes/mat262.py:57-63 | for det ≠ 0, m·x = m·y implies x = y |
| Mat3.MulVecCombination | ee25btech11043/matgeo/12.784/codes/mat262.py:66-72 | a matrix applied to a linear combination is the combination of the images |
| Mat3.FromColumnsCombines | ee25btech11043/matgeo/12.784/codes/mat262.py:48-53 | P·c for P = [v1 | v2 | v3] is c₁v₁ + c₂v₂ + c₃v₃ |
| DeterminantSolver.CalculateDeterminant3x3 | ee25btech11043/matgeo/12.264/codes/code21.c:7-15 | the formula a(ei−fh) − b(di−fg) + c(dh−eg) over m[0..8] is the determinant of the row-major matrix |
| DeterminantSolver.ReadsFirstNine | ee25btech11043/matgeo/12.264/codes/code21.c:7-15 | two arrays that agree on indices 0..8 give the same value |
| DeterminantSolver.SwapRowsNegates | ee25btech11043/matgeo/12.264/codes/code21.c:10-12 | swapping two rows negates the result |
| DeterminantSolver.EqualRowsZero | ee25btech11043/matgeo/12.264/codes/code21.c:10-12 | two equal rows give 0 |
| DeterminantSolver.IdentityGivesOne | ee25btech11043/matgeo/12.264/codes/code21.c:10-12 | the identity gives 1 |
| DeterminantSolver.TransposedLayout | ee25btech11043/matgeo/12.264/codes/code21.c:10-12 | the column-major layout gives the same value |
| HomogeneousSystem.Flatten | ee25btech11043/matgeo/12.264/codes/mat212.py:15-17 | a 3×3 array flattens to nine entries in row-major order: entry 3r + c is row r, column c |
| HomogeneousSystem.CalculateDeterminant3x3Python | ee25btech11043/matgeo/12.264/codes/mat212.py:7-20 | fails with ValueError("Input matrix must be 3x3.") exactly when the shape is not (3, 3), and otherwise returns the determinant |
| HomogeneousSystem.PythonAgreesWithC | ee25btech11043/matgeo/12.264/codes/mat212.py:15-20 | on 3×3 input the Python function returns what code21.c returns on the row-major flattening |
| HomogeneousSystem.Classify | ee25btech11043/matgeo/12.264/codes/mat212.py:47-54 | unique exactly when |det| > 1e-9, and `has_intersection_line` exactly when infinite |
| HomogeneousSystem.UniqueMeansOnlyTrivial | ee25btech11043/matgeo/12.264/codes/mat212.py:47-50 | in the unique case the origin is the only solution |
| HomogeneousSystem.OriginSolves | ee25btech11043/matgeo/12.264/codes/mat212.py:98 | the origin solves every homogeneous system |
| HomogeneousSystem.ExampleIsInfinite | ee25btech11043/matgeo/12.264/codes/mat212.py:32-54 | the script's coefficient matrix has determinant exactly 0, so the infinite branch is taken |
| HomogeneousSystem.ExampleSolutionsAreTheLine | ee25btech11043/matgeo/12.264/codes/mat212.py:84-96 | x solves the example system if and only if it is (−t, t, t) for t = x.y |
| HomogeneousSystem.Mat211IsInfinite | ee25btech11043/matgeo/12.264/codes/mat211.py:25-49 | code21.c on the caller's flat matrix returns 0, selecting the infinite branch |
| KMatrixDeterminant.CalculateDeterminant | ee25btech11043/matgeo/12.368/codes/code22.c:5-12 | the cofactor formula of the comment is the determinant of the row-major matrix |
| KMatrixDeterminant.AgreesWithCode21 | ee25btech11043/matgeo/12.368/codes/code22.c:5-12 | code22.c and code21.c agree on every input of at least nine entries |
| KMatrixDeterminant.KDeterminant | ee25btech11043/matgeo/12.368/codes/mat221.py:28-46 | for [[k,1,2],[1,−1,−2],[1,1,4]] the determinant is −2k − 2 |
| KMatrixDeterminant.KDeterminantZeroIff | ee25btech11043/matgeo/12.368/codes/mat221.py:48-52 | that determinant is 0 if and only if k = −1 |
| KMatrixDeterminant.KVerificationBranch | ee25btech11043/matgeo/12.368/codes/mat221.py:60-61 | at k = −1 the `< 1e-9` verification branch is taken |
| KMatrixDeterminant.NullityIsFreeColumns | ee25btech11043/matgeo/12.368/codes/mat222.py:59-61 | the nullity, columns minus rank, is the number of columns the elimination gives no pivot |
| KMatrixDeterminant.KRowsDependent | ee25btech11043/matgeo/12.368/codes/mat222.py:41 | at k = −1 row 2 is the negation of row 1 |
| KMatrixDeterminant.KFirstPass | ee25btech11043/matgeo/12.368/codes/mat222.py:41-61 | first elimination pass on the k = −1 matrix |
| KMatrixDeterminant.KSecondPass | ee25btech11043/matgeo/12.368/codes/mat222.py:41-61 | second pass, after which row 3 is 0 |
| KMatrixDeterminant.KNullityOne | ee25btech11043/matgeo/12.368/codes/mat222.py:59-67 | at k = −1 the rank is 2 and the nullity 1, so the nullity check passes |
| MatrixProblem.Determinant3x3 | ee25btech11043/matgeo/12.784/codes/code26.c:5-9 | the row-0 expansion is the determinant |
| MatrixProblem.Inverse3x3 | ee25btech11043/matgeo/12.784/codes/code26.c:13-34 | status 0 exactly when |det| < 1e-9, with `inv` left as it was; status 1 with inv = adj(m)/det and m·inv = inv·m = I |
| MatrixProblem.MultiplyMatVec3x3 | ee25btech11043/matgeo/12.784/codes/code26.c:37-41 | the result is the combination of the matrix columns weighted by the vector |
| MatrixProblem.MultiplyIsMulVec | ee25btech11043/matgeo/12.784/codes/code26.c:37-41 | result[i] = Σⱼ mat[i][j]·vec[j] |
| MatrixProblem.PHasEigenvectorColumns | ee25btech11043/matgeo/12.784/codes/code26.c:57-61 | P has v1, v2, v3 as its columns |
| MatrixProblem.InvertP | ee25btech11043/matgeo/12.784/codes/code26.c:57-67 | det P = −2, inversion succeeds, and c = P⁻¹e1 = (1/2, −1/2, −1/2) satisfies P·c = e1 |
| MatrixProblem.Accumulate | ee25btech11043/matgeo/12.784/codes/code26.c:82-97 | the accumulated vector is 2c₁v₁ + 2c₂v₂ + 4c₃v₃ |
| MatrixProblem.AccumulateIsFirstColumn | ee25btech11043/matgeo/12.784/codes/code26.c:73-97 | for any A with these eigenpairs and any c with Σcᵢvᵢ = e1, the accumulated vector is A·e1 |
| MatrixProblem.Finish | ee25btech11043/matgeo/12.784/codes/code26.c:50-104 | the degree is always 2 and `result_sum` = a11 + a21 + a31 + 2 in terms of c |
| MatrixProblem.SolveAsWritten | ee25btech11043/matgeo/12.784/codes/code26.c:46-105 | as written, the sum depends only on what `P_inverse` held: 8·g₀₀ + 4·g₁₀ + 2 |
| MatrixProblem.AsWrittenWithZeroedInverse | ee25btech11043/matgeo/12.784/codes/code26.c:63-67 | with a zero-filled `P_inverse` the routine reports 2 instead of 4 |
| MatrixProblem.SolveMatrixProblemSimplified | ee25btech11043/matgeo/12.784/codes/code26.c:46-105 | once P is actually inverted the routine reports sum 4 and degree 2, whatever the array held before |
| MatrixProblem.FirstColumnFromEigenpairs | ee25btech11043/matgeo/12.784/codes/code26.c:73-101 | any A with the three eigenpairs has first column (3, −1, 0), which the accumulation reproduces |
| MatrixProblem.CoefficientsCombine | ee25btech11043/matgeo/12.784/codes/code26.c:52-56 | (1/2)v₁ − (1/2)v₂ − (1/2)v₃ = e1 |
| MatrixProblem.AccumulateCoefficients | ee25btech11043/matgeo/12.784/codes/code26.c:82-101 | the accumulation on c = (1/2, −1/2, −1/2) gives (3, −1, 0) |
| MatrixProblem.CorrectedColumnIsFirstColumn | ee25btech11043/matgeo/12.784/codes/code26.c:63-97 | with the inverse computed, the accumulated vector is A·e1 for every A with these eigenpairs |
| MatrixProblemPython.DistinctCount | ee25btech11043/matgeo/12.784/codes/mat262.py:40-41 | m is the size of the set of the three eigenvalues |
| MatrixProblemPython.DistinctCountBounds | ee25btech11043/matgeo/12.784/codes/mat262.py:40-41 | m is between 1 and 3; 1 exactly when all are equal, 3 exactly when all differ |
| MatrixProblemPython.SolvePurePython | ee25btech11043/matgeo/12.784/codes/mat262.py:3-88 | fails with LinAlgError exactly when P is singular; otherwise reports det P, the isclose branch, m, c with P·c = e1, the rebuilt column and their sum |
| MatrixProblemPython.Coefficients | ee25btech11043/matgeo/12.784/codes/mat262.py:57-63 | `inv(P)·e1` solves P·c = e1 |
| MatrixProblemPython.FirstColumnIsAe1 | ee25btech11043/matgeo/12.784/codes/mat262.py:66-76 | for any A with the given eigenpairs and independent eigenvectors, the rebuilt column is A·e1 |
| MatrixProblemPython.RebuildIsImage | ee25btech11043/matgeo/12.784/codes/mat262.py:66-72 | Σcᵢλᵢvᵢ is A·e whenever Σcᵢvᵢ = e, for any vector e (the script takes e = e1) |
| MatrixProblemPython.ScriptMatrix | ee25btech11043/matgeo/12.784/codes/mat262.py:29-35 | the script's P has the eigenvectors as columns, det −2, and P·(1/2, −1/2, −1/2) = e1 |
| MatrixProblemPython.ScriptBranch | ee25btech11043/matgeo/12.784/codes/mat262.py:29-41 | the independent branch is taken and m = 2 |
| MatrixProblemPython.ScriptCoefficients | ee25btech11043/matgeo/12.784/codes/mat262.py:62-63 | c = (1/2, −1/2, −1/2) |
| MatrixProblemPython.ScriptResult | ee25btech11043/matgeo/12.784/codes/mat262.py:70-88 | the first column is (3, −1, 0) and the returned sum is 4 |
| MatrixProblemPython.AgreesWithCorrectedC | ee25btech11043/matgeo/12.784/codes/code26.c:104 | the script's sum and m equal the corrected C routine's `result_sum` and degree |
| Eigen2x2.FindEigenvalues | ee25btech11043/matgeo/12.888/codes/code27.c:7-25 | status −1 exactly when the discriminant is negative, leaving both output cells as they were; otherwise status 0 with λ1 ≥ λ2 |
| Eigen2x2.EigenSumProduct | ee25btech11043/matgeo/12.888/codes/code27.c:11-19 | on status 0, λ1 + λ2 = trace and λ1·λ2 = det |
| Eigen2x2.EigenvaluesAreRoots | ee25btech11043/matgeo/12.888/codes/code27.c:11-19 | on status 0 both values are roots of λ² − trace·λ + det, and they are its only roots |
| Eigen2x2.ComplexMeansNoRealRoot | ee25btech11043/matgeo/12.888/codes/code27.c:20-24 | on status −1 the characteristic polynomial has no real root |
| Eigen2x2.Check | ee25btech11043/matgeo/12.888/codes/mat271.py:30-54 | a candidate is reported complex exactly when its discriminant is negative |
| Eigen2x2.PairIsOneSix | ee25btech11043/matgeo/12.888/codes/mat271.py:44-49 | {u, v} = {1, 6} exactly when (u, v) is (6, 1) or (1, 6) |
| Eigen2x2.MatchIff | ee25btech11043/matgeo/12.888/codes/mat271.py:44-49 | a matrix matches exactly when its trace is 7 and its determinant 6 |
| Eigen2x2.CandidateAMatches | ee25btech11043/matgeo/12.888/codes/mat271.py:21-49 | candidate "a" has discriminant 25 and matches |
| Eigen2x2.OtherCandidatesMismatch | ee25btech11043/matgeo/12.888/codes/mat271.py:21-49 | candidates "b", "c", "d" have real eigenvalues but do not match |
| TangentLength.CalculateTangentLength | ee25btech11043/matgeo/10.5.10/codes/code17.c:8-15 | never negative; exactly 0 when d ≤ r; otherwise L² + r² = d² |
| TangentLength.TangentLengthUnique | ee25btech11043/matgeo/10.5.10/codes/code17.c:12-13 | outside the circle the length is the only non-negative L with L² + r² = d² |
| TangentLength.TangentShorterThanDistance | ee25btech11043/matgeo/10.5.10/codes/code17.c:13 | for d > r > 0, 0 < L < d |
| TangentLength.ScriptTangentLength | ee25btech11043/matgeo/10.5.10/codes/mat172.py:50-55 | for r = 4 and d = 6 the script's length satisfies L² = 20 and 4 < L < 6 |
| TangentLength.ScriptBounds | ee25btech11043/matgeo/10.5.10/codes/mat172.py:39-40 | √20 lies strictly between the radius 4 and the distance 6 |
| TangentLength.ScriptAgreesWithC | ee25btech11043/matgeo/10.5.10/codes/mat172.py:50-55 | the script's branch gives what code17.c gives on the same data |
| LatusRectum.FindIntersectionOfTangents | ee25btech11043/matgeo/10.7.91/codes/code18.c:10-13 | the point lies on y = x + a and y = −x − a, and on the tangents at both ends of the latus rectum |
| LatusRectum.FindIntersectionPython | ee25btech11043/matgeo/10.7.91/codes/mat182.py:4-30 | the returned pair lies on the tangents at both ends |
| LatusRectum.PythonAgreesWithC | ee25btech11043/matgeo/10.7.91/codes/mat182.py:27-30 | the Python function and code18.c agree for every a |
| LatusRectum.EndsOnParabola | ee25btech11043/matgeo/10.7.91/codes/code18.c:3-9 | (a, 2a) and (a, −2a) lie on y² = 4ax |
| LatusRectum.TangentLines | ee25btech11043/matgeo/10.7.91/codes/mat182.py:13-19 | for a ≠ 0 the tangent at (a, 2a) is y = x + a and the one at (a, −2a) is y = −x − a, both directions |
| LatusRectum.IntersectionUnique | ee25btech11043/matgeo/10.7.91/codes/mat182.py:13-30 | for a ≠ 0 (−a, 0) is the only point on both tangents |
| LatusRectum.ScriptExample | ee25btech11043/matgeo/10.7.91/codes/mat182.py:35-38 | for a = 1 the result is (−1, 0) |

## Left out

- Plotting: all matplotlib code, `line_gen_num` and `circ_gen`, and the scripts that only draw.
- The `ctypes` wrappers (`mat211.py`, `mat221.py`, `mat251.py`, `mat271.py` and the others). They only pass arguments to shared libraries. The data they pass is modelled as constants, for example `HomogeneousSystem.Mat211IsInfinite` and `Eigen2x2.CandidateA`.
- Trigonometric and transcendental code: the tangent-point rotation in `mat172.py`, W·tan θ in `code23.c`, and `pow` in `code19.c`.
- NumPy/LAPACK: `np.linalg.det`, `inv`, `matrix_rank` and `eig` are replaced by the exact determinant, the adjugate inverse and `RankElimination.Rank`. `np.linalg.inv` is taken to raise only on an exactly singular matrix.
- Fixed-width and floating-point behaviour. Overflow of the cross-multiplication in `calculate_rank`, IEEE rounding, NaN from `sqrt` of a negative number, and the 6-digit `round` in `mat271.py` are not modelled; all arithmetic is exact. The tolerances 1e-9 (`Eps`) and NumPy's `isclose` default 1e-8 are kept as real constants.
- `sqrt` is a parameter (`root`), not a computation.
- Console output (`printf`, `print`) is not modelled.
- `calculate_rank` updates the caller's array in place. The model returns the rank and does not describe the array the caller sees afterwards.
- RankElimination.Rank: is proved to be the number of pivots and the number of non-zero rows after elimination, and to be 0 exactly for the zero matrix. It is not proved equal to the linear-algebra rank (the dimension of the row space).
- `12.368/codes/code22.c` is cut off in the middle of its return expression. `KMatrixDeterminant.CalculateDeterminant` models the formula stated in its comment, which is the one code21.c uses.
- LatusRectum.TangentLines: for a = 0 the parabola degenerates and both tangent equations hold everywhere, so the lemma requires a ≠ 0. `FindIntersectionOfTangents` itself covers every a.
- `Eigen2x2.Check` compares the exact values. The script compares them after rounding to 6 digits, which makes no difference for the four candidates, whose eigenvalues are 6 and 1, (5 ± 3)/2 and (5 ± √5)/2.

## Findings

| source | as written | input that shows it | evidently intended | confidence | as-written member | corrected member |
|---|---|---|---|---|---|---|
| ee25btech11043/matgeo/12.784/codes/code26.c:63-67 | `P_inverse` is declared but `inverse_3x3` is never called, so `multiply_mat_vec_3x3` reads uninitialised memory and `result_sum` is 8·P_inverse[0][0] + 4·P_inverse[1][0] + 2 | a `P_inverse` array that happens to hold zeros gives `result_sum` = 2 | call `inverse_3x3(P_matrix, P_inverse)` first, giving c = (1/2, −1/2, −1/2), first column (3, −1, 0) and `result_sum` = 4, as `mat262.py` computes | not executed | MatrixProblem.AsWrittenWithZeroedInverse | MatrixProblem.SolveMatrixProblemSimplified |
