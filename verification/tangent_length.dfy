/** code17.c: `calculateTangentLength`, the length of the tangent from a
    point at distance `d` from the centre of a circle of radius `r`; and the
    same rule in mat172.py for r = 4, d = 6. */
module TangentLength {
  import opened Numeric

  /** `calculateTangentLength(radius, distance, &length)`. `root` is the
      value of `sqrt(d*d - r*r)`, needed only on the outside branch. The C
      routine writes the output cell on both branches, so no earlier value
      survives. */
  function CalculateTangentLength(r: real, d: real, root: real): (len: real)
    requires d > r ==> IsSqrt(root, d * d - r * r)
    ensures len >= 0.0
    ensures d <= r ==> len == 0.0
    ensures d > r ==> len * len + r * r == d * d
  {
    if d <= r then 0.0 else root
  }

  /** Outside the circle the length is the unique non-negative solution of
      Pythagoras' relation L² + r² = d². */
  lemma {:induction false} TangentLengthUnique(r: real, d: real, root: real, l: real)
    requires d > r ==> IsSqrt(root, d * d - r * r)
    requires d > r && l >= 0.0 && l * l + r * r == d * d
    ensures CalculateTangentLength(r, d, root) == l
  {
    SqrtUnique(root, l, d * d - r * r);
  }

  /** For a genuine circle (r > 0) and a point outside it, the tangent is
      shorter than the distance to the centre and positive. */
  lemma {:induction false} TangentShorterThanDistance(r: real, d: real, root: real)
    requires d > r > 0.0
    requires IsSqrt(root, d * d - r * r)
    ensures 0.0 < CalculateTangentLength(r, d, root) < d
  {
    var len := CalculateTangentLength(r, d, root);
    assert len * len == d * d - r * r;
    SquareMonotone(r, d);
    SquareMonotone(0.0, r);
    if len > d {
      SquareMonotone(d, len);
    }
  }

  /** Squaring is strictly increasing on the non-negative reals. */
  lemma SquareMonotone(x: real, y: real)
    requires 0.0 <= x < y
    ensures x * x < y * y
  {
    var p, q := y - x, y + x;
    assert y * y - x * x == p * q;
    PositiveProduct(p, q);
  }

  lemma PositiveProduct(p: real, q: real)
    requires p > 0.0 && q > 0.0
    ensures p * q > 0.0
  {
  }

  // ---------------------------------------------------------------------
  // mat172.py

  const Radius: real := 4.0
  const Distance: real := 6.0

  /** The script's own branch on its fixed data: 0 inside or on the circle,
      otherwise `np.sqrt(distance_from_center**2 - radius**2)`. */
  function ScriptTangentLength(root: real): (len: real)
    requires IsSqrt(root, Distance * Distance - Radius * Radius)
    ensures len * len == 20.0
    ensures Radius < len < Distance
  {
    ScriptBounds(root);
    if Distance <= Radius then 0.0 else root
  }

  /** sqrt(20) lies strictly between 4 and 6. */
  lemma {:induction false} ScriptBounds(root: real)
    requires IsSqrt(root, 20.0)
    ensures 4.0 < root < 6.0
  {
    TangentShorterThanDistance(4.0, 6.0, root);
    if root < 4.0 {
      SquareMonotone(root, 4.0);
    }
  }

  /** The script computes what the C routine computes on the same data. */
  lemma ScriptAgreesWithC(root: real)
    requires IsSqrt(root, Distance * Distance - Radius * Radius)
    ensures ScriptTangentLength(root) == CalculateTangentLength(Radius, Distance, root)
  {
  }
}
