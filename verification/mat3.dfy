/** Exact 3x3 real matrices and 3-vectors: the algebra the determinant,
    inverse and eigenpair scripts compute with. The determinant is the
    Leibniz sum over the six permutations; the scripts' cofactor formulas
    are proved equal to it. */
module Mat3 {

  import Polynomial

  datatype Vec3 = Vec3(x: real, y: real, z: real)

  /** Row-major entries: a b c / d e f / g h i, the letters the scripts use. */
  datatype Mat3 = Mat3(a: real, b: real, c: real,
                       d: real, e: real, f: real,
                       g: real, h: real, i: real)

  const Zero3: Vec3 := Vec3(0.0, 0.0, 0.0)

  const Identity: Mat3 := Mat3(1.0, 0.0, 0.0,
                               0.0, 1.0, 0.0,
                               0.0, 0.0, 1.0)

  /** Row `k` of a matrix, 0-based. */
  function Row(m: Mat3, k: nat): Vec3
    requires k < 3
  {
    if k == 0 then Vec3(m.a, m.b, m.c)
    else if k == 1 then Vec3(m.d, m.e, m.f)
    else Vec3(m.g, m.h, m.i)
  }

  function FromRows(r0: Vec3, r1: Vec3, r2: Vec3): Mat3 {
    Mat3(r0.x, r0.y, r0.z, r1.x, r1.y, r1.z, r2.x, r2.y, r2.z)
  }

  /** The matrix whose columns are the three vectors (NumPy's `array([..]).T`). */
  function FromColumns(c0: Vec3, c1: Vec3, c2: Vec3): Mat3 {
    Mat3(c0.x, c1.x, c2.x, c0.y, c1.y, c2.y, c0.z, c1.z, c2.z)
  }

  /** Reads a row-major flat array of at least nine entries. */
  function FromFlat(s: seq<real>): Mat3
    requires |s| >= 9
  {
    Mat3(s[0], s[1], s[2], s[3], s[4], s[5], s[6], s[7], s[8])
  }

  /** The row-major flat layout a, b, c, d, e, f, g, h, i. */
  function ToFlat(m: Mat3): (s: seq<real>)
    ensures |s| == 9 && FromFlat(s) == m
  {
    [m.a, m.b, m.c, m.d, m.e, m.f, m.g, m.h, m.i]
  }

  function Transpose(m: Mat3): Mat3 {
    Mat3(m.a, m.d, m.g, m.b, m.e, m.h, m.c, m.f, m.i)
  }

  /** The matrix with rows `p` and `q` exchanged. */
  function SwapRows(m: Mat3, p: nat, q: nat): Mat3
    requires p < 3 && q < 3
  {
    var r := (k: nat) requires k < 3 =>
      if k == p then Row(m, q) else if k == q then Row(m, p) else Row(m, k);
    FromRows(r(0), r(1), r(2))
  }

  /** Leibniz formula: signed sum of products over the permutations of {0,1,2}. */
  function Det(m: Mat3): real {
    m.a * m.e * m.i + m.b * m.f * m.g + m.c * m.d * m.h
    - m.c * m.e * m.g - m.b * m.d * m.i - m.a * m.f * m.h
  }

  function Add(u: Vec3, v: Vec3): Vec3 {
    Vec3(u.x + v.x, u.y + v.y, u.z + v.z)
  }

  function ScaleVec(s: real, v: Vec3): Vec3 {
    Vec3(s * v.x, s * v.y, s * v.z)
  }

  /** Matrix-vector product: component k is row k dotted with `v`. */
  function MulVec(m: Mat3, v: Vec3): Vec3 {
    Vec3(m.a * v.x + m.b * v.y + m.c * v.z,
         m.d * v.x + m.e * v.y + m.f * v.z,
         m.g * v.x + m.h * v.y + m.i * v.z)
  }

  /** Matrix product: entry (r, k) is row r of `p` dotted with column k of `q`. */
  function Mul(p: Mat3, q: Mat3): Mat3 {
    Mat3(p.a * q.a + p.b * q.d + p.c * q.g, p.a * q.b + p.b * q.e + p.c * q.h, p.a * q.c + p.b * q.f + p.c * q.i,
         p.d * q.a + p.e * q.d + p.f * q.g, p.d * q.b + p.e * q.e + p.f * q.h, p.d * q.c + p.e * q.f + p.f * q.i,
         p.g * q.a + p.h * q.d + p.i * q.g, p.g * q.b + p.h * q.e + p.i * q.h, p.g * q.c + p.h * q.f + p.i * q.i)
  }

  function Scale(s: real, m: Mat3): Mat3 {
    Mat3(s * m.a, s * m.b, s * m.c, s * m.d, s * m.e, s * m.f, s * m.g, s * m.h, s * m.i)
  }

  /** The adjugate: the transposed matrix of cofactors. */
  function Adj(m: Mat3): Mat3 {
    Mat3(m.e * m.i - m.f * m.h, m.c * m.h - m.b * m.i, m.b * m.f - m.c * m.e,
         m.f * m.g - m.d * m.i, m.a * m.i - m.c * m.g, m.c * m.d - m.a * m.f,
         m.d * m.h - m.e * m.g, m.b * m.g - m.a * m.h, m.a * m.e - m.b * m.d)
  }

  /** The exact inverse of a non-singular matrix: adj(m) / det(m). */
  function Inverse(m: Mat3): Mat3
    requires Det(m) != 0.0
  {
    Scale(1.0 / Det(m), Adj(m))
  }

  /** The expansion along row 0 that every script writes out,
      a(ei − fh) − b(di − fg) + c(dh − eg), equals the Leibniz sum. */
  function CofactorDet(m: Mat3): (d: real)
    ensures d == Det(m)
  {
    CofactorIsLeibniz(m.a, m.b, m.c, m.d, m.e, m.f, m.g, m.h, m.i, Det(m));
    m.a * (m.e * m.i - m.f * m.h) - m.b * (m.d * m.i - m.f * m.g) + m.c * (m.d * m.h - m.e * m.g)
  }

  lemma CofactorIsLeibniz(a: real, b: real, c: real, d: real, e: real, f: real, g: real, h: real, i: real,
                          dt: real)
    requires dt == a * e * i + b * f * g + c * d * h - c * e * g - b * d * i - a * f * h
    ensures a * (e * i - f * h) - b * (d * i - f * g) + c * (d * h - e * g) == dt
  {
  }

  // ---------------------------------------------------------------------
  // Determinant laws

  lemma DetIdentity()
    ensures Det(Identity) == 1.0
  {
  }

  lemma DetTranspose(m: Mat3)
    ensures Det(Transpose(m)) == Det(m)
  {
  }

  /** Exchanging two distinct rows negates the determinant. */
  lemma DetSwapRows(m: Mat3, p: nat, q: nat)
    requires p < 3 && q < 3 && p != q
    ensures Det(SwapRows(m, p, q)) == -Det(m)
  {
  }

  /** A matrix with two equal rows is singular. */
  lemma DetEqualRows(m: Mat3, p: nat, q: nat)
    requires p < 3 && q < 3 && p != q
    requires Row(m, p) == Row(m, q)
    ensures Det(m) == 0.0
  {
  }

  // ---------------------------------------------------------------------
  // Entry-wise unfoldings.  The proofs below cite these so that every fact
  // a polynomial lemma needs is already stated verbatim.

  lemma DetExpand(m: Mat3)
    ensures Det(m) == m.a * m.e * m.i + m.b * m.f * m.g + m.c * m.d * m.h - m.c * m.e * m.g - m.b * m.d * m.i - m.a * m.f * m.h
  {
  }

  // AdjA .. AdjI: one entry of Adj(m) each, so that every query
  // unfolds a single entry's arithmetic.

  lemma AdjA(m: Mat3)
    ensures Adj(m).a == m.e * m.i - m.f * m.h
  {
  }

  lemma AdjB(m: Mat3)
    ensures Adj(m).b == m.c * m.h - m.b * m.i
  {
  }

  lemma AdjC(m: Mat3)
    ensures Adj(m).c == m.b * m.f - m.c * m.e
  {
  }

  lemma AdjD(m: Mat3)
    ensures Adj(m).d == m.f * m.g - m.d * m.i
  {
  }

  lemma AdjE(m: Mat3)
    ensures Adj(m).e == m.a * m.i - m.c * m.g
  {
  }

  lemma AdjF(m: Mat3)
    ensures Adj(m).f == m.c * m.d - m.a * m.f
  {
  }

  lemma AdjG(m: Mat3)
    ensures Adj(m).g == m.d * m.h - m.e * m.g
  {
  }

  lemma AdjH(m: Mat3)
    ensures Adj(m).h == m.b * m.g - m.a * m.h
  {
  }

  lemma AdjI(m: Mat3)
    ensures Adj(m).i == m.a * m.e - m.b * m.d
  {
  }

  /** The adjugate, entry by entry. */
  lemma AdjEntries(m: Mat3)
    ensures Adj(m).a == m.e * m.i - m.f * m.h
    ensures Adj(m).b == m.c * m.h - m.b * m.i
    ensures Adj(m).c == m.b * m.f - m.c * m.e
    ensures Adj(m).d == m.f * m.g - m.d * m.i
    ensures Adj(m).e == m.a * m.i - m.c * m.g
    ensures Adj(m).f == m.c * m.d - m.a * m.f
    ensures Adj(m).g == m.d * m.h - m.e * m.g
    ensures Adj(m).h == m.b * m.g - m.a * m.h
    ensures Adj(m).i == m.a * m.e - m.b * m.d
  {
    AdjA(m);
    AdjB(m);
    AdjC(m);
    AdjD(m);
    AdjE(m);
    AdjF(m);
    AdjG(m);
    AdjH(m);
    AdjI(m);
  }

  // MulA .. MulI: one entry of Mul(p, q) each, so that every query
  // unfolds a single entry's arithmetic.

  lemma MulA(p: Mat3, q: Mat3)
    ensures Mul(p, q).a == p.a * q.a + p.b * q.d + p.c * q.g
  {
  }

  lemma MulB(p: Mat3, q: Mat3)
    ensures Mul(p, q).b == p.a * q.b + p.b * q.e + p.c * q.h
  {
  }

  lemma MulC(p: Mat3, q: Mat3)
    ensures Mul(p, q).c == p.a * q.c + p.b * q.f + p.c * q.i
  {
  }

  lemma MulD(p: Mat3, q: Mat3)
    ensures Mul(p, q).d == p.d * q.a + p.e * q.d + p.f * q.g
  {
  }

  lemma MulE(p: Mat3, q: Mat3)
    ensures Mul(p, q).e == p.d * q.b + p.e * q.e + p.f * q.h
  {
  }

  lemma MulF(p: Mat3, q: Mat3)
    ensures Mul(p, q).f == p.d * q.c + p.e * q.f + p.f * q.i
  {
  }

  lemma MulG(p: Mat3, q: Mat3)
    ensures Mul(p, q).g == p.g * q.a + p.h * q.d + p.i * q.g
  {
  }

  lemma MulH(p: Mat3, q: Mat3)
    ensures Mul(p, q).h == p.g * q.b + p.h * q.e + p.i * q.h
  {
  }

  lemma MulI(p: Mat3, q: Mat3)
    ensures Mul(p, q).i == p.g * q.c + p.h * q.f + p.i * q.i
  {
  }

  /** The product, entry by entry. */
  lemma MulEntries(p: Mat3, q: Mat3)
    ensures Mul(p, q).a == p.a * q.a + p.b * q.d + p.c * q.g
    ensures Mul(p, q).b == p.a * q.b + p.b * q.e + p.c * q.h
    ensures Mul(p, q).c == p.a * q.c + p.b * q.f + p.c * q.i
    ensures Mul(p, q).d == p.d * q.a + p.e * q.d + p.f * q.g
    ensures Mul(p, q).e == p.d * q.b + p.e * q.e + p.f * q.h
    ensures Mul(p, q).f == p.d * q.c + p.e * q.f + p.f * q.i
    ensures Mul(p, q).g == p.g * q.a + p.h * q.d + p.i * q.g
    ensures Mul(p, q).h == p.g * q.b + p.h * q.e + p.i * q.h
    ensures Mul(p, q).i == p.g * q.c + p.h * q.f + p.i * q.i
  {
    MulA(p, q);
    MulB(p, q);
    MulC(p, q);
    MulD(p, q);
    MulE(p, q);
    MulF(p, q);
    MulG(p, q);
    MulH(p, q);
    MulI(p, q);
  }

  // ScaleA .. ScaleI: one entry of Scale(s, m) each, so that every query
  // unfolds a single entry's arithmetic.

  lemma ScaleA(s: real, m: Mat3)
    ensures Scale(s, m).a == s * m.a
  {
  }

  lemma ScaleB(s: real, m: Mat3)
    ensures Scale(s, m).b == s * m.b
  {
  }

  lemma ScaleC(s: real, m: Mat3)
    ensures Scale(s, m).c == s * m.c
  {
  }

  lemma ScaleD(s: real, m: Mat3)
    ensures Scale(s, m).d == s * m.d
  {
  }

  lemma ScaleE(s: real, m: Mat3)
    ensures Scale(s, m).e == s * m.e
  {
  }

  lemma ScaleF(s: real, m: Mat3)
    ensures Scale(s, m).f == s * m.f
  {
  }

  lemma ScaleG(s: real, m: Mat3)
    ensures Scale(s, m).g == s * m.g
  {
  }

  lemma ScaleH(s: real, m: Mat3)
    ensures Scale(s, m).h == s * m.h
  {
  }

  lemma ScaleI(s: real, m: Mat3)
    ensures Scale(s, m).i == s * m.i
  {
  }

  /** The scaled matrix, entry by entry. */
  lemma ScaleEntries(s: real, m: Mat3)
    ensures Scale(s, m).a == s * m.a
    ensures Scale(s, m).b == s * m.b
    ensures Scale(s, m).c == s * m.c
    ensures Scale(s, m).d == s * m.d
    ensures Scale(s, m).e == s * m.e
    ensures Scale(s, m).f == s * m.f
    ensures Scale(s, m).g == s * m.g
    ensures Scale(s, m).h == s * m.h
    ensures Scale(s, m).i == s * m.i
  {
    ScaleA(s, m);
    ScaleB(s, m);
    ScaleC(s, m);
    ScaleD(s, m);
    ScaleE(s, m);
    ScaleF(s, m);
    ScaleG(s, m);
    ScaleH(s, m);
    ScaleI(s, m);
  }

  /** The transpose, entry by entry. */
  lemma TransposeEntries(m: Mat3)
    ensures Transpose(m).a == m.a
    ensures Transpose(m).b == m.d
    ensures Transpose(m).c == m.g
    ensures Transpose(m).d == m.b
    ensures Transpose(m).e == m.e
    ensures Transpose(m).f == m.h
    ensures Transpose(m).g == m.c
    ensures Transpose(m).h == m.f
    ensures Transpose(m).i == m.i
  {
  }

  lemma MulVecEntries(m: Mat3, v: Vec3)
    ensures MulVec(m, v).x == m.a * v.x + m.b * v.y + m.c * v.z
    ensures MulVec(m, v).y == m.d * v.x + m.e * v.y + m.f * v.z
    ensures MulVec(m, v).z == m.g * v.x + m.h * v.y + m.i * v.z
  {
  }

  lemma CombineEntries(s: real, u: Vec3, t: real, v: Vec3, w: real, z: Vec3)
    ensures Combine(s, u, t, v, w, z).x == s * u.x + t * v.x + w * z.x
    ensures Combine(s, u, t, v, w, z).y == s * u.y + t * v.y + w * z.y
    ensures Combine(s, u, t, v, w, z).z == s * u.z + t * v.z + w * z.z
  {
  }

  // ---------------------------------------------------------------------
  // m · adj(m) = det(m) · I, one entry at a time.
  // MulAdj00 .. MulAdj22: entry (r, c) of m·adj(m), from the matching
  // Polynomial.Cofactor lemma applied to the entries of m and adj(m).

  lemma MulAdj00(m: Mat3)
    ensures Mul(m, Adj(m)).a == Det(m)
  {
    AdjEntries(m); DetExpand(m);
    MulEntries(m, Adj(m));
    Polynomial.Cofactor00(m.a, m.b, m.c, m.d, m.e, m.f, m.g, m.h, m.i, Adj(m).a, Adj(m).d, Adj(m).g, Mul(m, Adj(m)).a, Det(m));
  }

  lemma MulAdj01(m: Mat3)
    ensures Mul(m, Adj(m)).b == 0.0
  {
    AdjEntries(m);
    MulEntries(m, Adj(m));
    Polynomial.Cofactor01(m.a, m.b, m.c, m.d, m.e, m.f, m.g, m.h, m.i, Adj(m).b, Adj(m).e, Adj(m).h, Mul(m, Adj(m)).b);
  }

  lemma MulAdj02(m: Mat3)
    ensures Mul(m, Adj(m)).c == 0.0
  {
    AdjEntries(m);
    MulEntries(m, Adj(m));
    Polynomial.Cofactor02(m.a, m.b, m.c, m.d, m.e, m.f, m.g, m.h, m.i, Adj(m).c, Adj(m).f, Adj(m).i, Mul(m, Adj(m)).c);
  }

  lemma MulAdj10(m: Mat3)
    ensures Mul(m, Adj(m)).d == 0.0
  {
    AdjEntries(m);
    MulEntries(m, Adj(m));
    Polynomial.Cofactor10(m.a, m.b, m.c, m.d, m.e, m.f, m.g, m.h, m.i, Adj(m).a, Adj(m).d, Adj(m).g, Mul(m, Adj(m)).d);
  }

  lemma MulAdj11(m: Mat3)
    ensures Mul(m, Adj(m)).e == Det(m)
  {
    AdjEntries(m); DetExpand(m);
    MulEntries(m, Adj(m));
    Polynomial.Cofactor11(m.a, m.b, m.c, m.d, m.e, m.f, m.g, m.h, m.i, Adj(m).b, Adj(m).e, Adj(m).h, Mul(m, Adj(m)).e, Det(m));
  }

  lemma MulAdj12(m: Mat3)
    ensures Mul(m, Adj(m)).f == 0.0
  {
    AdjEntries(m);
    MulEntries(m, Adj(m));
    Polynomial.Cofactor12(m.a, m.b, m.c, m.d, m.e, m.f, m.g, m.h, m.i, Adj(m).c, Adj(m).f, Adj(m).i, Mul(m, Adj(m)).f);
  }

  lemma MulAdj20(m: Mat3)
    ensures Mul(m, Adj(m)).g == 0.0
  {
    AdjEntries(m);
    MulEntries(m, Adj(m));
    Polynomial.Cofactor20(m.a, m.b, m.c, m.d, m.e, m.f, m.g, m.h, m.i, Adj(m).a, Adj(m).d, Adj(m).g, Mul(m, Adj(m)).g);
  }

  lemma MulAdj21(m: Mat3)
    ensures Mul(m, Adj(m)).h == 0.0
  {
    AdjEntries(m);
    MulEntries(m, Adj(m));
    Polynomial.Cofactor21(m.a, m.b, m.c, m.d, m.e, m.f, m.g, m.h, m.i, Adj(m).b, Adj(m).e, Adj(m).h, Mul(m, Adj(m)).h);
  }

  lemma MulAdj22(m: Mat3)
    ensures Mul(m, Adj(m)).i == Det(m)
  {
    AdjEntries(m); DetExpand(m);
    MulEntries(m, Adj(m));
    Polynomial.Cofactor22(m.a, m.b, m.c, m.d, m.e, m.f, m.g, m.h, m.i, Adj(m).c, Adj(m).f, Adj(m).i, Mul(m, Adj(m)).i, Det(m));
  }

  /** m · adj(m) = det(m) · I. */
  lemma MulAdj(m: Mat3)
    ensures Mul(m, Adj(m)) == Scale(Det(m), Identity)
  {
    MulAdj00(m);
    MulAdj01(m);
    MulAdj02(m);
    MulAdj10(m);
    MulAdj11(m);
    MulAdj12(m);
    MulAdj20(m);
    MulAdj21(m);
    MulAdj22(m);
  }

  // MulScale00 .. MulScale22: entry (r, c) of m·(t·n) is t times entry
  // (r, c) of m·n; split per entry for the same reason as above.

  lemma MulScale00(m: Mat3, t: real, n: Mat3)
    ensures Mul(m, Scale(t, n)).a == t * Mul(m, n).a
  {
    ScaleEntries(t, n);
    MulEntries(m, Scale(t, n));
    MulEntries(m, n);
    Polynomial.ScaleDot(m.a, m.b, m.c, n.a, n.d, n.g, Scale(t, n).a, Scale(t, n).d, Scale(t, n).g, t, Mul(m, Scale(t, n)).a, Mul(m, n).a);
  }

  lemma MulScale01(m: Mat3, t: real, n: Mat3)
    ensures Mul(m, Scale(t, n)).b == t * Mul(m, n).b
  {
    ScaleEntries(t, n);
    MulEntries(m, Scale(t, n));
    MulEntries(m, n);
    Polynomial.ScaleDot(m.a, m.b, m.c, n.b, n.e, n.h, Scale(t, n).b, Scale(t, n).e, Scale(t, n).h, t, Mul(m, Scale(t, n)).b, Mul(m, n).b);
  }

  lemma MulScale02(m: Mat3, t: real, n: Mat3)
    ensures Mul(m, Scale(t, n)).c == t * Mul(m, n).c
  {
    ScaleEntries(t, n);
    MulEntries(m, Scale(t, n));
    MulEntries(m, n);
    Polynomial.ScaleDot(m.a, m.b, m.c, n.c, n.f, n.i, Scale(t, n).c, Scale(t, n).f, Scale(t, n).i, t, Mul(m, Scale(t, n)).c, Mul(m, n).c);
  }

  lemma MulScale10(m: Mat3, t: real, n: Mat3)
    ensures Mul(m, Scale(t, n)).d == t * Mul(m, n).d
  {
    ScaleEntries(t, n);
    MulEntries(m, Scale(t, n));
    MulEntries(m, n);
    Polynomial.ScaleDot(m.d, m.e, m.f, n.a, n.d, n.g, Scale(t, n).a, Scale(t, n).d, Scale(t, n).g, t, Mul(m, Scale(t, n)).d, Mul(m, n).d);
  }

  lemma MulScale11(m: Mat3, t: real, n: Mat3)
    ensures Mul(m, Scale(t, n)).e == t * Mul(m, n).e
  {
    ScaleEntries(t, n);
    MulEntries(m, Scale(t, n));
    MulEntries(m, n);
    Polynomial.ScaleDot(m.d, m.e, m.f, n.b, n.e, n.h, Scale(t, n).b, Scale(t, n).e, Scale(t, n).h, t, Mul(m, Scale(t, n)).e, Mul(m, n).e);
  }

  lemma MulScale12(m: Mat3, t: real, n: Mat3)
    ensures Mul(m, Scale(t, n)).f == t * Mul(m, n).f
  {
    ScaleEntries(t, n);
    MulEntries(m, Scale(t, n));
    MulEntries(m, n);
    Polynomial.ScaleDot(m.d, m.e, m.f, n.c, n.f, n.i, Scale(t, n).c, Scale(t, n).f, Scale(t, n).i, t, Mul(m, Scale(t, n)).f, Mul(m, n).f);
  }

  lemma MulScale20(m: Mat3, t: real, n: Mat3)
    ensures Mul(m, Scale(t, n)).g == t * Mul(m, n).g
  {
    ScaleEntries(t, n);
    MulEntries(m, Scale(t, n));
    MulEntries(m, n);
    Polynomial.ScaleDot(m.g, m.h, m.i, n.a, n.d, n.g, Scale(t, n).a, Scale(t, n).d, Scale(t, n).g, t, Mul(m, Scale(t, n)).g, Mul(m, n).g);
  }

  lemma MulScale21(m: Mat3, t: real, n: Mat3)
    ensures Mul(m, Scale(t, n)).h == t * Mul(m, n).h
  {
    ScaleEntries(t, n);
    MulEntries(m, Scale(t, n));
    MulEntries(m, n);
    Polynomial.ScaleDot(m.g, m.h, m.i, n.b, n.e, n.h, Scale(t, n).b, Scale(t, n).e, Scale(t, n).h, t, Mul(m, Scale(t, n)).h, Mul(m, n).h);
  }

  lemma MulScale22(m: Mat3, t: real, n: Mat3)
    ensures Mul(m, Scale(t, n)).i == t * Mul(m, n).i
  {
    ScaleEntries(t, n);
    MulEntries(m, Scale(t, n));
    MulEntries(m, n);
    Polynomial.ScaleDot(m.g, m.h, m.i, n.c, n.f, n.i, Scale(t, n).c, Scale(t, n).f, Scale(t, n).i, t, Mul(m, Scale(t, n)).i, Mul(m, n).i);
  }

  /** A scalar on the right factor comes out of the product. */
  lemma MulScale(m: Mat3, t: real, n: Mat3)
    ensures Mul(m, Scale(t, n)) == Scale(t, Mul(m, n))
  {
    MulScale00(m, t, n);
    MulScale01(m, t, n);
    MulScale02(m, t, n);
    MulScale10(m, t, n);
    MulScale11(m, t, n);
    MulScale12(m, t, n);
    MulScale20(m, t, n);
    MulScale21(m, t, n);
    MulScale22(m, t, n);
    ScaleEntries(t, Mul(m, n));
  }

  lemma ScaleIdentity(t: real, d: real)
    requires t * d == 1.0
    ensures Scale(t, Scale(d, Identity)) == Identity
  {
    assert t * (d * 1.0) == 1.0;
  }

  /** m · m⁻¹ = I. */
  lemma RightInverse(m: Mat3)
    requires Det(m) != 0.0
    ensures Mul(m, Inverse(m)) == Identity
  {
    var t := 1.0 / Det(m);
    MulScale(m, t, Adj(m));
    MulAdj(m);
    Polynomial.Reciprocal(Det(m));
    ScaleIdentity(t, Det(m));
  }

  // ---------------------------------------------------------------------
  // The left inverse, through transposition

  // TransposeMul00 .. TransposeMul22: entry (r, c) of (p·q)ᵀ is entry
  // (r, c) of qᵀ·pᵀ; one small query per entry.

  lemma TransposeMul00(p: Mat3, q: Mat3)
    ensures Transpose(Mul(p, q)).a == Mul(Transpose(q), Transpose(p)).a
  {
    TransposeEntries(Mul(p, q));
    MulEntries(p, q);
    TransposeEntries(p);
    TransposeEntries(q);
    MulEntries(Transpose(q), Transpose(p));
    Polynomial.SwapDot(p.a, p.b, p.c, q.a, q.d, q.g, Transpose(q).a, Transpose(q).b, Transpose(q).c, Transpose(p).a, Transpose(p).d, Transpose(p).g,
                       Transpose(Mul(p, q)).a, Mul(Transpose(q), Transpose(p)).a);
  }

  lemma TransposeMul01(p: Mat3, q: Mat3)
    ensures Transpose(Mul(p, q)).b == Mul(Transpose(q), Transpose(p)).b
  {
    TransposeEntries(Mul(p, q));
    MulEntries(p, q);
    TransposeEntries(p);
    TransposeEntries(q);
    MulEntries(Transpose(q), Transpose(p));
    Polynomial.SwapDot(p.d, p.e, p.f, q.a, q.d, q.g, Transpose(q).a, Transpose(q).b, Transpose(q).c, Transpose(p).b, Transpose(p).e, Transpose(p).h,
                       Transpose(Mul(p, q)).b, Mul(Transpose(q), Transpose(p)).b);
  }

  lemma TransposeMul02(p: Mat3, q: Mat3)
    ensures Transpose(Mul(p, q)).c == Mul(Transpose(q), Transpose(p)).c
  {
    TransposeEntries(Mul(p, q));
    MulEntries(p, q);
    TransposeEntries(p);
    TransposeEntries(q);
    MulEntries(Transpose(q), Transpose(p));
    Polynomial.SwapDot(p.g, p.h, p.i, q.a, q.d, q.g, Transpose(q).a, Transpose(q).b, Transpose(q).c, Transpose(p).c, Transpose(p).f, Transpose(p).i,
                       Transpose(Mul(p, q)).c, Mul(Transpose(q), Transpose(p)).c);
  }

  lemma TransposeMul10(p: Mat3, q: Mat3)
    ensures Transpose(Mul(p, q)).d == Mul(Transpose(q), Transpose(p)).d
  {
    TransposeEntries(Mul(p, q));
    MulEntries(p, q);
    TransposeEntries(p);
    TransposeEntries(q);
    MulEntries(Transpose(q), Transpose(p));
    Polynomial.SwapDot(p.a, p.b, p.c, q.b, q.e, q.h, Transpose(q).d, Transpose(q).e, Transpose(q).f, Transpose(p).a, Transpose(p).d, Transpose(p).g,
                       Transpose(Mul(p, q)).d, Mul(Transpose(q), Transpose(p)).d);
  }

  lemma TransposeMul11(p: Mat3, q: Mat3)
    ensures Transpose(Mul(p, q)).e == Mul(Transpose(q), Transpose(p)).e
  {
    TransposeEntries(Mul(p, q));
    MulEntries(p, q);
    TransposeEntries(p);
    TransposeEntries(q);
    MulEntries(Transpose(q), Transpose(p));
    Polynomial.SwapDot(p.d, p.e, p.f, q.b, q.e, q.h, Transpose(q).d, Transpose(q).e, Transpose(q).f, Transpose(p).b, Transpose(p).e, Transpose(p).h,
                       Transpose(Mul(p, q)).e, Mul(Transpose(q), Transpose(p)).e);
  }

  lemma TransposeMul12(p: Mat3, q: Mat3)
    ensures Transpose(Mul(p, q)).f == Mul(Transpose(q), Transpose(p)).f
  {
    TransposeEntries(Mul(p, q));
    MulEntries(p, q);
    TransposeEntries(p);
    TransposeEntries(q);
    MulEntries(Transpose(q), Transpose(p));
    Polynomial.SwapDot(p.g, p.h, p.i, q.b, q.e, q.h, Transpose(q).d, Transpose(q).e, Transpose(q).f, Transpose(p).c, Transpose(p).f, Transpose(p).i,
                       Transpose(Mul(p, q)).f, Mul(Transpose(q), Transpose(p)).f);
  }

  lemma TransposeMul20(p: Mat3, q: Mat3)
    ensures Transpose(Mul(p, q)).g == Mul(Transpose(q), Transpose(p)).g
  {
    TransposeEntries(Mul(p, q));
    MulEntries(p, q);
    TransposeEntries(p);
    TransposeEntries(q);
    MulEntries(Transpose(q), Transpose(p));
    Polynomial.SwapDot(p.a, p.b, p.c, q.c, q.f, q.i, Transpose(q).g, Transpose(q).h, Transpose(q).i, Transpose(p).a, Transpose(p).d, Transpose(p).g,
                       Transpose(Mul(p, q)).g, Mul(Transpose(q), Transpose(p)).g);
  }

  lemma TransposeMul21(p: Mat3, q: Mat3)
    ensures Transpose(Mul(p, q)).h == Mul(Transpose(q), Transpose(p)).h
  {
    TransposeEntries(Mul(p, q));
    MulEntries(p, q);
    TransposeEntries(p);
    TransposeEntries(q);
    MulEntries(Transpose(q), Transpose(p));
    Polynomial.SwapDot(p.d, p.e, p.f, q.c, q.f, q.i, Transpose(q).g, Transpose(q).h, Transpose(q).i, Transpose(p).b, Transpose(p).e, Transpose(p).h,
                       Transpose(Mul(p, q)).h, Mul(Transpose(q), Transpose(p)).h);
  }

  lemma TransposeMul22(p: Mat3, q: Mat3)
    ensures Transpose(Mul(p, q)).i == Mul(Transpose(q), Transpose(p)).i
  {
    TransposeEntries(Mul(p, q));
    MulEntries(p, q);
    TransposeEntries(p);
    TransposeEntries(q);
    MulEntries(Transpose(q), Transpose(p));
    Polynomial.SwapDot(p.g, p.h, p.i, q.c, q.f, q.i, Transpose(q).g, Transpose(q).h, Transpose(q).i, Transpose(p).c, Transpose(p).f, Transpose(p).i,
                       Transpose(Mul(p, q)).i, Mul(Transpose(q), Transpose(p)).i);
  }

  /** (p · q)ᵀ = qᵀ · pᵀ. */
  lemma TransposeMul(p: Mat3, q: Mat3)
    ensures Transpose(Mul(p, q)) == Mul(Transpose(q), Transpose(p))
  {
    TransposeMul00(p, q);
    TransposeMul01(p, q);
    TransposeMul02(p, q);
    TransposeMul10(p, q);
    TransposeMul11(p, q);
    TransposeMul12(p, q);
    TransposeMul20(p, q);
    TransposeMul21(p, q);
    TransposeMul22(p, q);
  }
  /** The adjugate commutes with transposition. */
  lemma AdjTranspose(m: Mat3)
    ensures Adj(Transpose(m)) == Transpose(Adj(m))
  {
    TransposeEntries(m);
    TransposeEntries(Adj(m));
    AdjEntries(m);
    AdjEntries(Transpose(m));
  }

  lemma InverseTranspose(m: Mat3)
    requires Det(m) != 0.0
    ensures Det(Transpose(m)) != 0.0
    ensures Inverse(Transpose(m)) == Transpose(Inverse(m))
  {
    DetTranspose(m);
    AdjTranspose(m);
    var s := 1.0 / Det(m);
    assert 1.0 / Det(Transpose(m)) == s;
    ScaleTranspose(s, Adj(m));
  }

  lemma ScaleTranspose(s: real, m: Mat3)
    ensures Scale(s, Transpose(m)) == Transpose(Scale(s, m))
  {
    TransposeEntries(m);
    TransposeEntries(Scale(s, m));
    ScaleEntries(s, m);
    ScaleEntries(s, Transpose(m));
  }

  /** m⁻¹ · m = I and m · m⁻¹ = I. */
  lemma InverseIsTwoSided(m: Mat3)
    requires Det(m) != 0.0
    ensures Mul(m, Inverse(m)) == Identity
    ensures Mul(Inverse(m), m) == Identity
  {
    RightInverse(m);
    InverseTranspose(m);
    RightInverse(Transpose(m));
    TransposeMul(Inverse(m), m);
    assert Transpose(Transpose(Inverse(m))) == Inverse(m);
  }

  // ---------------------------------------------------------------------
  // Matrix-vector products

  lemma MulVecIdentity(v: Vec3)
    ensures MulVec(Identity, v) == v
  {
  }

  /** (p · q) · v = p · (q · v). */
  lemma MulVecComposes(p: Mat3, q: Mat3, v: Vec3)
    ensures MulVec(Mul(p, q), v) == MulVec(p, MulVec(q, v))
  {
    ComposeX(p, q, v);
    ComposeY(p, q, v);
    ComposeZ(p, q, v);
  }

  lemma ComposeX(p: Mat3, q: Mat3, v: Vec3)
    ensures MulVec(Mul(p, q), v).x == MulVec(p, MulVec(q, v)).x
  {
    var pq, w := Mul(p, q), MulVec(q, v);
    MulEntries(p, q);
    MulVecEntries(pq, v);
    MulVecEntries(p, w);
    ComposeRow(p.a, p.b, p.c, q, v, pq.a, pq.b, pq.c, w);
  }

  lemma ComposeY(p: Mat3, q: Mat3, v: Vec3)
    ensures MulVec(Mul(p, q), v).y == MulVec(p, MulVec(q, v)).y
  {
    var pq, w := Mul(p, q), MulVec(q, v);
    MulEntries(p, q);
    MulVecEntries(pq, v);
    MulVecEntries(p, w);
    ComposeRow(p.d, p.e, p.f, q, v, pq.d, pq.e, pq.f, w);
  }

  lemma ComposeZ(p: Mat3, q: Mat3, v: Vec3)
    ensures MulVec(Mul(p, q), v).z == MulVec(p, MulVec(q, v)).z
  {
    var pq, w := Mul(p, q), MulVec(q, v);
    MulEntries(p, q);
    MulVecEntries(pq, v);
    MulVecEntries(p, w);
    ComposeRow(p.g, p.h, p.i, q, v, pq.g, pq.h, pq.i, w);
  }

  /** One row of (p · q) · v = p · (q · v): the row (p0, p1, p2) of p gives
      the row (m0, m1, m2) of p · q. */
  lemma ComposeRow(p0: real, p1: real, p2: real, q: Mat3, v: Vec3,
                   m0: real, m1: real, m2: real, w: Vec3)
    requires m0 == p0 * q.a + p1 * q.d + p2 * q.g
    requires m1 == p0 * q.b + p1 * q.e + p2 * q.h
    requires m2 == p0 * q.c + p1 * q.f + p2 * q.i
    requires w == MulVec(q, v)
    ensures m0 * v.x + m1 * v.y + m2 * v.z == p0 * w.x + p1 * w.y + p2 * w.z
  {
    MulVecEntries(q, v);
    ComposePlain(p0, p1, p2, q.a, q.b, q.c, q.d, q.e, q.f, q.g, q.h, q.i, v.x, v.y, v.z,
                 m0, m1, m2, w.x, w.y, w.z);
  }

  lemma ComposePlain(p0: real, p1: real, p2: real,
                     qa: real, qb: real, qc: real, qd: real, qe: real, qf: real, qg: real, qh: real, qi: real,
                     v0: real, v1: real, v2: real, m0: real, m1: real, m2: real, w0: real, w1: real, w2: real)
    requires m0 == p0 * qa + p1 * qd + p2 * qg
    requires m1 == p0 * qb + p1 * qe + p2 * qh
    requires m2 == p0 * qc + p1 * qf + p2 * qi
    requires w0 == qa * v0 + qb * v1 + qc * v2
    requires w1 == qd * v0 + qe * v1 + qf * v2
    requires w2 == qg * v0 + qh * v1 + qi * v2
    ensures m0 * v0 + m1 * v1 + m2 * v2 == p0 * w0 + p1 * w1 + p2 * w2
  {
  }

  /** Multiplying the matrix of columns u, v, w by c combines the columns. */
  lemma FromColumnsCombines(u: Vec3, v: Vec3, w: Vec3, c: Vec3)
    ensures MulVec(FromColumns(u, v, w), c) == Combine(c.x, u, c.y, v, c.z, w)
  {
  }

  /** Column `k` of a matrix. */
  function Column(m: Mat3, k: nat): Vec3
    requires k < 3
  {
    Row(Transpose(m), k)
  }

  /** (c·l)·v = c·(l·v). */
  lemma ScaleVecAssoc(c: real, l: real, v: Vec3)
    ensures ScaleVec(c * l, v) == ScaleVec(c, ScaleVec(l, v))
  {
    Assoc(c, l, v.x);
    Assoc(c, l, v.y);
    Assoc(c, l, v.z);
  }

  lemma Assoc(c: real, l: real, x: real)
    ensures (c * l) * x == c * (l * x)
  {
  }

  /** The combination s·u + t·v + w·z. */
  function Combine(s: real, u: Vec3, t: real, v: Vec3, w: real, z: Vec3): Vec3 {
    Add(Add(ScaleVec(s, u), ScaleVec(t, v)), ScaleVec(w, z))
  }

  /** Scaling each vector of a combination folds into its coefficient. */
  lemma CombineScaled(s: real, l1: real, u: Vec3, t: real, l2: real, v: Vec3, w: real, l3: real, z: Vec3)
    ensures Combine(s, ScaleVec(l1, u), t, ScaleVec(l2, v), w, ScaleVec(l3, z))
         == Combine(s * l1, u, t * l2, v, w * l3, z)
  {
    ScaleVecAssoc(s, l1, u);
    ScaleVecAssoc(t, l2, v);
    ScaleVecAssoc(w, l3, z);
    assert Combine(s * l1, u, t * l2, v, w * l3, z)
        == Add(Add(ScaleVec(s, ScaleVec(l1, u)), ScaleVec(t, ScaleVec(l2, v))), ScaleVec(w, ScaleVec(l3, z)));
  }

  /** The product with a combination of three vectors is the same
      combination of the three products. */
  lemma MulVecCombination(m: Mat3, s: real, u: Vec3, t: real, v: Vec3, w: real, z: Vec3)
    ensures MulVec(m, Combine(s, u, t, v, w, z))
         == Combine(s, MulVec(m, u), t, MulVec(m, v), w, MulVec(m, z))
  {
    CombinationX(m, s, u, t, v, w, z);
    CombinationY(m, s, u, t, v, w, z);
    CombinationZ(m, s, u, t, v, w, z);
  }

  lemma CombinationX(m: Mat3, s: real, u: Vec3, t: real, v: Vec3, w: real, z: Vec3)
    ensures MulVec(m, Combine(s, u, t, v, w, z)).x
         == Combine(s, MulVec(m, u), t, MulVec(m, v), w, MulVec(m, z)).x
  {
    MulVecEntries(m, Combine(s, u, t, v, w, z));
    MulVecEntries(m, u);
    MulVecEntries(m, v);
    MulVecEntries(m, z);
    CombineEntries(s, MulVec(m, u), t, MulVec(m, v), w, MulVec(m, z));
    CombinationRow(m.a, m.b, m.c, s, u, t, v, w, z, Combine(s, u, t, v, w, z),
                   MulVec(m, u).x, MulVec(m, v).x, MulVec(m, z).x);
  }

  lemma CombinationY(m: Mat3, s: real, u: Vec3, t: real, v: Vec3, w: real, z: Vec3)
    ensures MulVec(m, Combine(s, u, t, v, w, z)).y
         == Combine(s, MulVec(m, u), t, MulVec(m, v), w, MulVec(m, z)).y
  {
    MulVecEntries(m, Combine(s, u, t, v, w, z));
    MulVecEntries(m, u);
    MulVecEntries(m, v);
    MulVecEntries(m, z);
    CombineEntries(s, MulVec(m, u), t, MulVec(m, v), w, MulVec(m, z));
    CombinationRow(m.d, m.e, m.f, s, u, t, v, w, z, Combine(s, u, t, v, w, z),
                   MulVec(m, u).y, MulVec(m, v).y, MulVec(m, z).y);
  }

  lemma CombinationZ(m: Mat3, s: real, u: Vec3, t: real, v: Vec3, w: real, z: Vec3)
    ensures MulVec(m, Combine(s, u, t, v, w, z)).z
         == Combine(s, MulVec(m, u), t, MulVec(m, v), w, MulVec(m, z)).z
  {
    MulVecEntries(m, Combine(s, u, t, v, w, z));
    MulVecEntries(m, u);
    MulVecEntries(m, v);
    MulVecEntries(m, z);
    CombineEntries(s, MulVec(m, u), t, MulVec(m, v), w, MulVec(m, z));
    CombinationRow(m.g, m.h, m.i, s, u, t, v, w, z, Combine(s, u, t, v, w, z),
                   MulVec(m, u).z, MulVec(m, v).z, MulVec(m, z).z);
  }

  lemma CombinationRow(r0: real, r1: real, r2: real, s: real, u: Vec3, t: real, v: Vec3, w: real, z: Vec3,
                       x: Vec3, du: real, dv: real, dz: real)
    requires x == Combine(s, u, t, v, w, z)
    requires du == r0 * u.x + r1 * u.y + r2 * u.z
    requires dv == r0 * v.x + r1 * v.y + r2 * v.z
    requires dz == r0 * z.x + r1 * z.y + r2 * z.z
    ensures r0 * x.x + r1 * x.y + r2 * x.z == s * du + t * dv + w * dz
  {
    CombineEntries(s, u, t, v, w, z);
    CombinationPlain(r0, r1, r2, s, u.x, u.y, u.z, t, v.x, v.y, v.z, w, z.x, z.y, z.z,
                     x.x, x.y, x.z, du, dv, dz);
  }

  lemma CombinationPlain(r0: real, r1: real, r2: real, s: real, u0: real, u1: real, u2: real,
                         t: real, v0: real, v1: real, v2: real, w: real, z0: real, z1: real, z2: real,
                         x0: real, x1: real, x2: real, du: real, dv: real, dz: real)
    requires x0 == s * u0 + t * v0 + w * z0
    requires x1 == s * u1 + t * v1 + w * z1
    requires x2 == s * u2 + t * v2 + w * z2
    requires du == r0 * u0 + r1 * u1 + r2 * u2
    requires dv == r0 * v0 + r1 * v1 + r2 * v2
    requires dz == r0 * z0 + r1 * z1 + r2 * z2
    ensures r0 * x0 + r1 * x1 + r2 * x2 == s * du + t * dv + w * dz
  {
  }

  /** For a non-singular matrix, `c = m⁻¹ · v` solves `m · c = v`. */
  lemma InverseSolves(m: Mat3, v: Vec3)
    requires Det(m) != 0.0
    ensures MulVec(m, MulVec(Inverse(m), v)) == v
  {
    MulVecComposes(m, Inverse(m), v);
    InverseIsTwoSided(m);
    MulVecIdentity(v);
  }

  /** A non-singular homogeneous system has only the trivial solution. */
  lemma NonSingularKernelTrivial(m: Mat3, v: Vec3)
    requires Det(m) != 0.0
    requires MulVec(m, v) == Zero3
    ensures v == Zero3
  {
    MulVecComposes(Inverse(m), m, v);
    InverseIsTwoSided(m);
    MulVecIdentity(v);
    assert MulVec(Inverse(m), Zero3) == Zero3;
  }

  /** A non-singular matrix is injective: two vectors with the same image
      are equal, so the solution of m·x = b is unique. */
  lemma MulVecInjective(m: Mat3, u: Vec3, v: Vec3)
    requires Det(m) != 0.0
    requires MulVec(m, u) == MulVec(m, v)
    ensures u == v
  {
    MulVecComposes(Inverse(m), m, u);
    MulVecComposes(Inverse(m), m, v);
    InverseIsTwoSided(m);
    MulVecIdentity(u);
    MulVecIdentity(v);
  }
}
