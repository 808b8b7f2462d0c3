/** code18.c: `findIntersectionOfTangents`, and its Python twin in
    mat182.py: the tangents to the parabola y² = 4ax at the ends (a, 2a) and
    (a, −2a) of its latus rectum meet at (−a, 0). */
module LatusRectum {

  datatype Point = Point(x: real, y: real)

  /** (x, y) lies on y² = 4ax. */
  predicate OnParabola(a: real, p: Point) {
    p.y * p.y == 4.0 * a * p.x
  }

  /** (x, y) satisfies the tangent equation y·y₁ = 2a(x + x₁) of the
      parabola at the point (x₁, y₁). */
  predicate OnTangentAt(a: real, touch: Point, p: Point) {
    p.y * touch.y == 2.0 * a * (p.x + touch.x)
  }

  /** The ends of the latus rectum. */
  function UpperEnd(a: real): Point {
    Point(a, 2.0 * a)
  }

  function LowerEnd(a: real): Point {
    Point(a, -2.0 * a)
  }

  /** `findIntersectionOfTangents(a, &x, &y)`; both cells are written. */
  function FindIntersectionOfTangents(a: real): (p: Point)
    ensures p.y == p.x + a && p.y == -p.x - a
    ensures OnTangentAt(a, UpperEnd(a), p) && OnTangentAt(a, LowerEnd(a), p)
  {
    Point(-a, 0.0)
  }

  /** `find_intersection_of_tangents_at_latus_rectum_ends(a)`, which
      returns the pair `(x_intersect, y_intersect)`. */
  function FindIntersectionPython(a: real): (r: (real, real))
    ensures OnTangentAt(a, UpperEnd(a), Point(r.0, r.1)) && OnTangentAt(a, LowerEnd(a), Point(r.0, r.1))
  {
    (-a, 0.0)
  }

  /** The two versions agree for every a. */
  lemma PythonAgreesWithC(a: real)
    ensures Point(FindIntersectionPython(a).0, FindIntersectionPython(a).1) == FindIntersectionOfTangents(a)
  {
  }

  /** Both ends of the latus rectum lie on the parabola. */
  lemma EndsOnParabola(a: real)
    ensures OnParabola(a, UpperEnd(a)) && OnParabola(a, LowerEnd(a))
  {
  }

  /** For a ≠ 0 the tangent equation at (a, 2a) reduces to y = x + a and
      the one at (a, −2a) to y = −x − a, as the comments in both sources
      derive. */
  lemma {:induction false} TangentLines(a: real, p: Point)
    requires a != 0.0
    ensures OnTangentAt(a, UpperEnd(a), p) <==> p.y == p.x + a
    ensures OnTangentAt(a, LowerEnd(a), p) <==> p.y == -p.x - a
  {
    assert p.y * (2.0 * a) - 2.0 * a * (p.x + a) == 2.0 * a * (p.y - (p.x + a));
    assert p.y * (-2.0 * a) - 2.0 * a * (p.x + a) == -2.0 * a * (p.y - (-p.x - a));
    if OnTangentAt(a, UpperEnd(a), p) {
      MulZero(2.0 * a, p.y - (p.x + a));
    }
    if OnTangentAt(a, LowerEnd(a), p) {
      MulZero(-2.0 * a, p.y - (-p.x - a));
    }
  }

  lemma MulZero(k: real, x: real)
    requires k != 0.0 && k * x == 0.0
    ensures x == 0.0
  {
  }

  /** For a ≠ 0 the reported point is the only point on both tangents. */
  lemma {:induction false} IntersectionUnique(a: real, p: Point)
    requires a != 0.0
    ensures OnTangentAt(a, UpperEnd(a), p) && OnTangentAt(a, LowerEnd(a), p)
            <==> p == FindIntersectionOfTangents(a)
  {
    TangentLines(a, p);
  }

  /** y² = 4x is the case a = 1: the tangents meet at (−1, 0). */
  lemma ScriptExample()
    ensures FindIntersectionPython(1.0) == (-1.0, 0.0)
  {
  }
}
