/** `calculate_determinant_3x3` of code21.c: the determinant of a 3x3
    matrix passed as a row-major array of doubles. */
module DeterminantSolver {
  import opened Mat3

  /** The expansion along the first row over a[0..8]; it equals the
      Leibniz determinant of the matrix those nine entries lay out. */
  function CalculateDeterminant3x3(matrix: seq<real>): (det: real)
    requires |matrix| >= 9
    ensures det == Det(FromFlat(matrix))
  {
    CofactorDet(FromFlat(matrix))
  }

  /** Only the first nine entries are read. */
  lemma ReadsFirstNine(m1: seq<real>, m2: seq<real>)
    requires |m1| >= 9 && |m2| >= 9 && m1[..9] == m2[..9]
    ensures CalculateDeterminant3x3(m1) == CalculateDeterminant3x3(m2)
  {
    forall k | 0 <= k < 9
      ensures m1[k] == m2[k]
    {
      assert m1[k] == m1[..9][k];
    }
  }

  /** Laying out a matrix with two rows exchanged negates the result. */
  lemma SwapRowsNegates(m: Mat3, p: nat, q: nat)
    requires p < 3 && q < 3 && p != q
    ensures CalculateDeterminant3x3(ToFlat(SwapRows(m, p, q))) == -CalculateDeterminant3x3(ToFlat(m))
  {
    DetSwapRows(m, p, q);
  }

  /** A layout with two equal rows gives 0. */
  lemma EqualRowsZero(m: Mat3, p: nat, q: nat)
    requires p < 3 && q < 3 && p != q && Row(m, p) == Row(m, q)
    ensures CalculateDeterminant3x3(ToFlat(m)) == 0.0
  {
    DetEqualRows(m, p, q);
  }

  /** The identity layout gives 1. */
  lemma IdentityGivesOne()
    ensures CalculateDeterminant3x3([1.0, 0.0, 0.0, 0.0, 1.0, 0.0, 0.0, 0.0, 1.0]) == 1.0
  {
    assert FromFlat([1.0, 0.0, 0.0, 0.0, 1.0, 0.0, 0.0, 0.0, 1.0]) == Identity;
    DetIdentity();
  }

  /** The column-major (transposed) layout gives the same value. */
  lemma TransposedLayout(m: Mat3)
    ensures CalculateDeterminant3x3(ToFlat(Transpose(m))) == CalculateDeterminant3x3(ToFlat(m))
  {
    DetTranspose(m);
  }
}
