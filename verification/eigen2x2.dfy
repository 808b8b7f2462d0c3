/** code27.c: `findEigenvalues` for the 2x2 matrix [[a, b], [c, d]], from the
    trace, the determinant and the discriminant of the characteristic
    polynomial λ² − trace·λ + det; and mat271.py, which runs it on four
    candidate matrices and looks for the eigenvalues {1, 6}. */
module Eigen2x2 {
  import opened Numeric

  function Trace(a: real, d: real): real {
    a + d
  }

  function Det2(a: real, b: real, c: real, d: real): real {
    a * d - b * c
  }

  function Discriminant(a: real, b: real, c: real, d: real): real {
    Trace(a, d) * Trace(a, d) - 4.0 * Det2(a, b, c, d)
  }

  /** The characteristic polynomial at x. */
  function CharPoly(a: real, b: real, c: real, d: real, x: real): real {
    x * x - Trace(a, d) * x + Det2(a, b, c, d)
  }

  /** The status code and what `*lambda1`, `*lambda2` hold after the call. */
  datatype EigenOut = EigenOut(status: int, lambda1: real, lambda2: real)

  /** `findEigenvalues(a, b, c, d, lambda1, lambda2)`. `l1`, `l2` are what
      the two output cells held before the call; `root` is the value of
      `sqrt(discriminant)`, needed only when the discriminant is not
      negative. */
  function FindEigenvalues(a: real, b: real, c: real, d: real, l1: real, l2: real, root: real)
    : (out: EigenOut)
    requires Discriminant(a, b, c, d) >= 0.0 ==> IsSqrt(root, Discriminant(a, b, c, d))
    ensures out.status == 0 || out.status == -1
    ensures out.status == -1 <==> Discriminant(a, b, c, d) < 0.0
    ensures out.status == -1 ==> out.lambda1 == l1 && out.lambda2 == l2
    ensures out.status == 0 ==> out.lambda1 >= out.lambda2
  {
    var trace := Trace(a, d);
    var disc := Discriminant(a, b, c, d);
    if disc >= 0.0 then
      EigenOut(0, (trace + root) / 2.0, (trace - root) / 2.0)
    else
      EigenOut(-1, l1, l2)
  }

  /** On success the two values are the roots of the characteristic
      polynomial: their sum is the trace and their product the determinant. */
  lemma {:induction false} EigenSumProduct(a: real, b: real, c: real, d: real, l1: real, l2: real, root: real)
    requires Discriminant(a, b, c, d) >= 0.0 ==> IsSqrt(root, Discriminant(a, b, c, d))
    requires FindEigenvalues(a, b, c, d, l1, l2, root).status == 0
    ensures FindEigenvalues(a, b, c, d, l1, l2, root).lambda1
            + FindEigenvalues(a, b, c, d, l1, l2, root).lambda2 == Trace(a, d)
    ensures FindEigenvalues(a, b, c, d, l1, l2, root).lambda1
            * FindEigenvalues(a, b, c, d, l1, l2, root).lambda2 == Det2(a, b, c, d)
  {
    var t, det := Trace(a, d), Det2(a, b, c, d);
    HalfSumProduct(t, det, root);
  }

  /** (t + s)/2 and (t − s)/2 for s² = t² − 4·det add up to t and multiply to det. */
  lemma HalfSumProduct(t: real, det: real, s: real)
    requires s * s == t * t - 4.0 * det
    ensures (t + s) / 2.0 + (t - s) / 2.0 == t
    ensures ((t + s) / 2.0) * ((t - s) / 2.0) == det
  {
    assert ((t + s) / 2.0) * ((t - s) / 2.0) == (t * t - s * s) / 4.0;
  }

  /** Values with sum t and product det are exactly the roots of x² − t·x + det. */
  lemma VietaRoots(t: real, det: real, u: real, v: real, x: real)
    requires u + v == t && u * v == det
    ensures x * x - t * x + det == (x - u) * (x - v)
  {
  }

  /** On success each reported value is an eigenvalue, and every real root
      of the characteristic polynomial is one of the two reported values. */
  lemma {:induction false} EigenvaluesAreRoots(a: real, b: real, c: real, d: real, l1: real, l2: real, root: real, x: real)
    requires Discriminant(a, b, c, d) >= 0.0 ==> IsSqrt(root, Discriminant(a, b, c, d))
    requires FindEigenvalues(a, b, c, d, l1, l2, root).status == 0
    ensures CharPoly(a, b, c, d, FindEigenvalues(a, b, c, d, l1, l2, root).lambda1) == 0.0
    ensures CharPoly(a, b, c, d, FindEigenvalues(a, b, c, d, l1, l2, root).lambda2) == 0.0
    ensures CharPoly(a, b, c, d, x) == 0.0
            <==> x == FindEigenvalues(a, b, c, d, l1, l2, root).lambda1
                 || x == FindEigenvalues(a, b, c, d, l1, l2, root).lambda2
  {
    var out := FindEigenvalues(a, b, c, d, l1, l2, root);
    var t, det := Trace(a, d), Det2(a, b, c, d);
    EigenSumProduct(a, b, c, d, l1, l2, root);
    VietaRoots(t, det, out.lambda1, out.lambda2, out.lambda1);
    VietaRoots(t, det, out.lambda1, out.lambda2, out.lambda2);
    VietaRoots(t, det, out.lambda1, out.lambda2, x);
    if CharPoly(a, b, c, d, x) == 0.0 && x != out.lambda1 {
      ZeroProduct(x - out.lambda2, x - out.lambda1);
    }
  }

  /** The −1 status is exactly the case where the characteristic polynomial
      has no real root at all. */
  lemma {:induction false} ComplexMeansNoRealRoot(a: real, b: real, c: real, d: real, x: real)
    requires Discriminant(a, b, c, d) < 0.0
    ensures CharPoly(a, b, c, d, x) > 0.0
  {
    var t, det := Trace(a, d), Det2(a, b, c, d);
    assert 4.0 * CharPoly(a, b, c, d, x) == (2.0 * x - t) * (2.0 * x - t) - Discriminant(a, b, c, d);
  }

  // ---------------------------------------------------------------------
  // mat271.py: which candidate has eigenvalues {1, 6}?

  datatype Mat2 = Mat2(a: real, b: real, c: real, d: real)

  const CandidateA: Mat2 := Mat2(5.0, -2.0, -2.0, 2.0)
  const CandidateB: Mat2 := Mat2(3.0, -1.0, -2.0, 2.0)
  const CandidateC: Mat2 := Mat2(3.0, -1.0, -1.0, 2.0)
  const CandidateD: Mat2 := Mat2(2.0, -1.0, -1.0, 3.0)

  function Disc(m: Mat2): real {
    Discriminant(m.a, m.b, m.c, m.d)
  }

  /** The verdict the script prints for one matrix. */
  datatype Verdict = Match | Mismatch | Complex

  /** One pass of the loop: call the C routine on fresh output cells and
      compare the set of the two results with {1, 6}. */
  function Check(m: Mat2, root: real): (v: Verdict)
    requires Disc(m) >= 0.0 ==> IsSqrt(root, Disc(m))
    ensures v == Complex <==> Disc(m) < 0.0
  {
    var out := FindEigenvalues(m.a, m.b, m.c, m.d, 0.0, 0.0, root);
    if out.status == 0 then
      if {out.lambda1, out.lambda2} == {1.0, 6.0} then Match else Mismatch
    else Complex
  }

  /** Two reals form the set {1, 6} exactly when they are 6 and 1 in some order. */
  lemma PairIsOneSix(u: real, v: real)
    ensures {u, v} == {1.0, 6.0} <==> (u == 6.0 && v == 1.0) || (u == 1.0 && v == 6.0)
  {
    if {u, v} == {1.0, 6.0} {
      assert u in {1.0, 6.0} && v in {1.0, 6.0};
      assert 1.0 in {u, v} && 6.0 in {u, v};
    }
  }

  /** A matrix passes the test exactly when its trace is 7 and its
      determinant 6, the coefficients of (λ − 1)(λ − 6). */
  lemma {:induction false} MatchIff(m: Mat2, root: real)
    requires Disc(m) >= 0.0 ==> IsSqrt(root, Disc(m))
    ensures Check(m, root) == Match <==> Trace(m.a, m.d) == 7.0 && Det2(m.a, m.b, m.c, m.d) == 6.0
  {
    var out := FindEigenvalues(m.a, m.b, m.c, m.d, 0.0, 0.0, root);
    if Check(m, root) == Match {
      PairIsOneSix(out.lambda1, out.lambda2);
      EigenSumProduct(m.a, m.b, m.c, m.d, 0.0, 0.0, root);
    }
    if Trace(m.a, m.d) == 7.0 && Det2(m.a, m.b, m.c, m.d) == 6.0 {
      assert Disc(m) == 25.0;
      SqrtUnique(root, 5.0, 25.0);
      assert out == EigenOut(0, 6.0, 1.0);
      PairIsOneSix(out.lambda1, out.lambda2);
    }
  }

  /** Candidate "a" has trace 7 and determinant 6, so it passes; for it
      sqrt(25) = 5 and the routine returns 6 and 1. */
  lemma CandidateAMatches(root: real)
    requires IsSqrt(root, 25.0)
    ensures Disc(CandidateA) == 25.0
    ensures Check(CandidateA, root) == Match
  {
    MatchIff(CandidateA, root);
  }

  /** Candidates "b", "c" and "d" all have real eigenvalues (discriminant
      9, 5 and 5) but trace 5, so none of them passes. */
  lemma OtherCandidatesMismatch(rootB: real, rootC: real, rootD: real)
    requires IsSqrt(rootB, 9.0) && IsSqrt(rootC, 5.0) && IsSqrt(rootD, 5.0)
    ensures Disc(CandidateB) == 9.0 && Check(CandidateB, rootB) == Mismatch
    ensures Disc(CandidateC) == 5.0 && Check(CandidateC, rootC) == Mismatch
    ensures Disc(CandidateD) == 5.0 && Check(CandidateD, rootD) == Mismatch
  {
    MatchIff(CandidateB, rootB);
    MatchIff(CandidateC, rootC);
    MatchIff(CandidateD, rootD);
  }
}
