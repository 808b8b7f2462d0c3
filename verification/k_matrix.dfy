/** `calculate_determinant` of code22.c and its use on the matrix
    [[k, 1, 2], [1, −1, −2], [1, 1, 4]] whose nullity the scripts study.
    The C file is cut off in the middle of the return expression; the model
    uses the formula its comment states, which is the one code21.c
    completes. */
module KMatrixDeterminant {
  import opened Numeric
  import opened Mat3
  import DeterminantSolver
  import RankElimination

  /** The nine entries are read into a..i and expanded along the first row. */
  function CalculateDeterminant(elements: seq<real>): (det: real)
    requires |elements| >= 9
    ensures det == Det(FromFlat(elements))
  {
    var m := Mat3(elements[0], elements[1], elements[2],
                  elements[3], elements[4], elements[5],
                  elements[6], elements[7], elements[8]);
    CofactorDet(m)
  }

  /** The same value as code21.c's routine on every input. */
  lemma AgreesWithCode21(elements: seq<real>)
    requires |elements| >= 9
    ensures CalculateDeterminant(elements) == DeterminantSolver.CalculateDeterminant3x3(elements)
  {
  }

  /** The flat layout the caller builds for a given k. */
  function KMatrix(k: real): seq<real> {
    [k, 1.0, 2.0,
     1.0, -1.0, -2.0,
     1.0, 1.0, 4.0]
  }

  /** det = −2k − 2, the closed form the scripts derive. */
  lemma KDeterminant(k: real)
    ensures CalculateDeterminant(KMatrix(k)) == -2.0 * k - 2.0
  {
  }

  /** The determinant vanishes exactly at k = −1. */
  lemma KDeterminantZeroIff(k: real)
    ensures CalculateDeterminant(KMatrix(k)) == 0.0 <==> k == -1.0
  {
    KDeterminant(k);
  }

  /** At k = −1 the "approximately zero" branch (|det| < 1e-9) is taken. */
  lemma KVerificationBranch()
    ensures Abs(CalculateDeterminant(KMatrix(-1.0))) < Eps
  {
    KDeterminant(-1.0);
  }

  /** The integer matrix for k, the input of the rank routine. */
  function KIntMatrix(k: int): RankElimination.Matrix {
    [[k, 1, 2], [1, -1, -2], [1, 1, 4]]
  }

  /** Nullity as the scripts compute it: number of columns minus rank. */
  function Nullity(m: RankElimination.Matrix, cols: nat): (n: nat)
    requires RankElimination.Shaped(m, cols)
    ensures n + RankElimination.Rank(m, cols) == cols
  {
    RankElimination.RankIsPivotCount(m, cols);
    cols - RankElimination.Rank(m, cols)
  }

  /** The nullity is the number of free columns of the elimination: the
      columns that receive no pivot. */
  lemma NullityIsFreeColumns(m: RankElimination.Matrix, cols: nat)
    requires RankElimination.Shaped(m, cols)
    ensures Nullity(m, cols) == RankElimination.FreeColumns(RankElimination.State(m, 0, 0), cols)
  {
    RankElimination.RankIsPivotCount(m, cols);
    RankElimination.PivotsPlusFree(RankElimination.State(m, 0, 0), cols);
  }

  /** At k = −1 the second row is the negation of the first. */
  lemma KRowsDependent()
    ensures forall j :: 0 <= j < 3 ==> KIntMatrix(-1)[1][j] == -KIntMatrix(-1)[0][j]
  {
  }

  /** After the first pivot −1, and after the swap and second pivot −2. */
  const KPass1: RankElimination.Matrix := [[-1, 1, 2], [0, 0, 0], [0, -2, -6]]
  const KSwapped: RankElimination.Matrix := [[-1, 1, 2], [0, -2, -6], [0, 0, 0]]
  const KPass2: RankElimination.Matrix := [[-1, 0, 2], [0, -2, -6], [0, 0, 0]]

  /** Pivot −1 in row 0: the two rows below become −row − 1·(row 0). */
  lemma KFirstPass()
    ensures RankElimination.Step(RankElimination.State(KIntMatrix(-1), 0, 0), 3)
         == RankElimination.State(KPass1, 1, 1)
  {
    var m0 := KIntMatrix(-1);
    RankElimination.PivotRowUnique(m0, 3, 0, 0, 0);
    RankElimination.SwapSelf(m0, 3, 0);
    var e := RankElimination.Eliminated(m0, 3, 0, 0);
    assert e[1] == RankElimination.EliminateRow(m0[1], m0[0], -1, 1, 0) == KPass1[1];
    assert e[2] == RankElimination.EliminateRow(m0[2], m0[0], -1, 1, 0) == KPass1[2];
    assert e == KPass1;
  }

  /** Row 1 is now zero, so the pivot for column 1 is row 2, swapped up. */
  lemma KSecondPass()
    ensures RankElimination.Step(RankElimination.State(KPass1, 1, 1), 3)
         == RankElimination.State(KPass2, 2, 2)
  {
    RankElimination.PivotRowUnique(KPass1, 3, 1, 1, 2);
    assert RankElimination.Swapped(KPass1, 3, 1, 2) == KSwapped;
    var e := RankElimination.Eliminated(KSwapped, 3, 1, 1);
    assert e[0] == RankElimination.EliminateRow(KSwapped[0], KSwapped[1], -2, 1, 1) == KPass2[0];
    assert e[2] == RankElimination.EliminateRow(KSwapped[2], KSwapped[1], -2, 0, 1) == KPass2[2];
    assert e == KPass2;
  }

  /** At k = −1 elimination finds two pivots, so the nullity is 1. */
  lemma KNullityOne()
    ensures RankElimination.Rank(KIntMatrix(-1), 3) == 2
    ensures Nullity(KIntMatrix(-1), 3) == 1
  {
    KFirstPass();
    KSecondPass();
    RankElimination.PivotRowUnique(KPass2, 3, 2, 2, 3);
    assert RankElimination.Step(RankElimination.State(KPass2, 2, 2), 3) == RankElimination.State(KPass2, 2, 3);
    assert RankElimination.Reduce(RankElimination.State(KIntMatrix(-1), 0, 0), 3)
        == RankElimination.State(KPass2, 2, 3);
    RankElimination.RankIsPivotCount(KIntMatrix(-1), 3);
  }
}
