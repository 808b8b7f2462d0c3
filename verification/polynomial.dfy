/** Polynomial identities over plain reals that the 3x3 matrix algebra
    rests on. Kept apart from the matrix types so each identity is a
    small query over real atoms. */
module Polynomial {


  /** Scaling a column by t scales its dot product with a row by t. */
  lemma ScaleDot(x0: real, x1: real, x2: real, y0: real, y1: real, y2: real,
                 w0: real, w1: real, w2: real, t: real, r: real, d: real)
    requires w0 == t * y0 && w1 == t * y1 && w2 == t * y2
    requires r == x0 * w0 + x1 * w1 + x2 * w2
    requires d == x0 * y0 + x1 * y1 + x2 * y2
    ensures r == t * d
  {
  }

  /** Transposed factors give the same dot product: u = y and w = x
      entry-wise, so u · w = x · y. */
  lemma SwapDot(x0: real, x1: real, x2: real, y0: real, y1: real, y2: real,
                u0: real, u1: real, u2: real, w0: real, w1: real, w2: real, l: real, r: real)
    requires u0 == y0 && u1 == y1 && u2 == y2
    requires w0 == x0 && w1 == x1 && w2 == x2
    requires l == x0 * y0 + x1 * y1 + x2 * y2
    requires r == u0 * w0 + u1 * w1 + u2 * w2
    ensures l == r
  {
  }

  lemma Reciprocal(d: real)
    requires d != 0.0
    ensures (1.0 / d) * d == 1.0
  {
  }

  // Cofactor00 .. Cofactor22: one polynomial identity per entry of m·adj(m),
  // over plain real atoms. Stating the nine entries separately keeps each
  // solver query small; together they give `Mat3.MulAdj`.

  /** Entry (0,0): expansion of the determinant along row 0. */
  lemma Cofactor00(a: real, b: real, c: real, d: real, e: real, f: real, g: real, h: real, i: real, y0: real, y1: real, y2: real, r: real, dt: real)
    requires y0 == e * i - f * h
    requires y1 == f * g - d * i
    requires y2 == d * h - e * g
    requires r == a * y0 + b * y1 + c * y2
    requires dt == a * e * i + b * f * g + c * d * h - c * e * g - b * d * i - a * f * h
    ensures r == dt
  {
  }

  /** Entry (0,1): expansion of a matrix whose rows 1 and 0 coincide. */
  lemma Cofactor01(a: real, b: real, c: real, d: real, e: real, f: real, g: real, h: real, i: real, y0: real, y1: real, y2: real, r: real)
    requires y0 == c * h - b * i
    requires y1 == a * i - c * g
    requires y2 == b * g - a * h
    requires r == a * y0 + b * y1 + c * y2
    ensures r == 0.0
  {
  }

  /** Entry (0,2): expansion of a matrix whose rows 2 and 0 coincide. */
  lemma Cofactor02(a: real, b: real, c: real, d: real, e: real, f: real, g: real, h: real, i: real, y0: real, y1: real, y2: real, r: real)
    requires y0 == b * f - c * e
    requires y1 == c * d - a * f
    requires y2 == a * e - b * d
    requires r == a * y0 + b * y1 + c * y2
    ensures r == 0.0
  {
  }

  /** Entry (1,0): expansion of a matrix whose rows 0 and 1 coincide. */
  lemma Cofactor10(a: real, b: real, c: real, d: real, e: real, f: real, g: real, h: real, i: real, y0: real, y1: real, y2: real, r: real)
    requires y0 == e * i - f * h
    requires y1 == f * g - d * i
    requires y2 == d * h - e * g
    requires r == d * y0 + e * y1 + f * y2
    ensures r == 0.0
  {
  }

  /** Entry (1,1): expansion of the determinant along row 1. */
  lemma Cofactor11(a: real, b: real, c: real, d: real, e: real, f: real, g: real, h: real, i: real, y0: real, y1: real, y2: real, r: real, dt: real)
    requires y0 == c * h - b * i
    requires y1 == a * i - c * g
    requires y2 == b * g - a * h
    requires r == d * y0 + e * y1 + f * y2
    requires dt == a * e * i + b * f * g + c * d * h - c * e * g - b * d * i - a * f * h
    ensures r == dt
  {
  }

  /** Entry (1,2): expansion of a matrix whose rows 2 and 1 coincide. */
  lemma Cofactor12(a: real, b: real, c: real, d: real, e: real, f: real, g: real, h: real, i: real, y0: real, y1: real, y2: real, r: real)
    requires y0 == b * f - c * e
    requires y1 == c * d - a * f
    requires y2 == a * e - b * d
    requires r == d * y0 + e * y1 + f * y2
    ensures r == 0.0
  {
  }

  /** Entry (2,0): expansion of a matrix whose rows 0 and 2 coincide. */
  lemma Cofactor20(a: real, b: real, c: real, d: real, e: real, f: real, g: real, h: real, i: real, y0: real, y1: real, y2: real, r: real)
    requires y0 == e * i - f * h
    requires y1 == f * g - d * i
    requires y2 == d * h - e * g
    requires r == g * y0 + h * y1 + i * y2
    ensures r == 0.0
  {
  }

  /** Entry (2,1): expansion of a matrix whose rows 1 and 2 coincide. */
  lemma Cofactor21(a: real, b: real, c: real, d: real, e: real, f: real, g: real, h: real, i: real, y0: real, y1: real, y2: real, r: real)
    requires y0 == c * h - b * i
    requires y1 == a * i - c * g
    requires y2 == b * g - a * h
    requires r == g * y0 + h * y1 + i * y2
    ensures r == 0.0
  {
  }

  /** Entry (2,2): expansion of the determinant along row 2. */
  lemma Cofactor22(a: real, b: real, c: real, d: real, e: real, f: real, g: real, h: real, i: real, y0: real, y1: real, y2: real, r: real, dt: real)
    requires y0 == b * f - c * e
    requires y1 == c * d - a * f
    requires y2 == a * e - b * d
    requires r == g * y0 + h * y1 + i * y2
    requires dt == a * e * i + b * f * g + c * d * h - c * e * g - b * d * i - a * f * h
    ensures r == dt
  {
  }
}
