/**
 * Point geometry shared by every shape kind: squared distances, points along
 * a segment and the point-to-segment distance of `distanceToSegment`.
 *
 * The script compares `Math.sqrt(d2) <= threshold`; this model keeps the
 * squared distance `d2` and compares it with the squared threshold instead
 * (see `Within`), so no square root is needed.
 */
module Geometry {

  datatype Point = Point(x: real, y: real)

  function Abs(a: real): real { if a < 0.0 then -a else a }

  function Min(a: real, b: real): real { if a <= b then a else b }

  function Max(a: real, b: real): real { if a >= b then a else b }

  function Sq(a: real): real { a * a }

  /** Squared Euclidean distance between two points. */
  function Dist2(p: Point, q: Point): real {
    Sq(p.x - q.x) + Sq(p.y - q.y)
  }

  /** The point at parameter `t` on the segment from `v` to `w` (t = 0 is v, t = 1 is w). */
  function Lerp(v: Point, w: Point, t: real): Point {
    Point(v.x + t * (w.x - v.x), v.y + t * (w.y - v.y))
  }

  /** `sqrt(d2) <= threshold`, for a squared distance `d2 >= 0`. */
  predicate Within(d2: real, threshold: real) {
    threshold >= 0.0 && d2 <= Sq(threshold)
  }

  /** Dot product of p - v with w - v: the unnormalised projection of p onto v-w. */
  function Dot(p: Point, v: Point, w: Point): real {
    (p.x - v.x) * (w.x - v.x) + (p.y - v.y) * (w.y - v.y)
  }

  /** `Math.max(0, Math.min(1, t))`. */
  function Clamp01(t: real): (c: real)
    ensures 0.0 <= c <= 1.0
    ensures 0.0 <= t <= 1.0 ==> c == t
  {
    Max(0.0, Min(1.0, t))
  }

  /** The projection parameter of p onto the line v-w, clamped to the segment. */
  function SegmentParameter(p: Point, v: Point, w: Point): (t: real)
    requires Dist2(v, w) != 0.0
    ensures 0.0 <= t <= 1.0
  {
    Clamp01(Dot(p, v, w) / Dist2(v, w))
  }

  /**
   * The square of `distanceToSegment(p, v, w)`: a segment of squared length
   * zero is detected before the division and measured to `v`; otherwise the
   * distance is taken to the point at the clamped projection parameter.
   */
  function SegmentDist2(p: Point, v: Point, w: Point): (d: real)
    ensures d >= 0.0
  {
    if Dist2(v, w) == 0.0 then
      Dist2NonNegative(p, v);
      Dist2(p, v)
    else
      var q := Lerp(v, w, SegmentParameter(p, v, w));
      Dist2NonNegative(p, q);
      Dist2(p, q)
  }

  // ---------------------------------------------------------------------
  // Squares

  lemma MulPositive(x: real, y: real)
    requires x > 0.0 && y > 0.0
    ensures x * y > 0.0
  {
  }

  /** A positive number has a positive square: a * a is twice the product of a and a / 2. */
  lemma SqPositiveOfPositive(a: real)
    requires a > 0.0
    ensures Sq(a) > 0.0
  {
    var half := a / 2.0;
    MulPositive(a, half);
    assert Sq(a) == 2.0 * (a * half);
  }

  lemma SqPositive(a: real)
    requires a != 0.0
    ensures Sq(a) > 0.0
  {
    if a > 0.0 {
      SqPositiveOfPositive(a);
    } else {
      SqPositiveOfPositive(-a);
      SqNegate(a);
    }
  }

  lemma SqNonNegative(a: real)
    ensures Sq(a) >= 0.0
  {
    if a != 0.0 {
      SqPositive(a);
    }
  }

  lemma MulMonotone(k: real, x: real, y: real)
    requires k >= 0.0 && x <= y
    ensures k * x <= k * y
  {
  }

  lemma SqNegate(a: real)
    ensures Sq(-a) == Sq(a)
  {
  }

  lemma SqAbs(a: real)
    ensures Sq(Abs(a)) == Sq(a)
  {
    if a < 0.0 {
      SqNegate(a);
    }
  }

  lemma SqMonotoneNonNegative(x: real, y: real)
    requires 0.0 <= x <= y
    ensures Sq(x) <= Sq(y)
  {
    MulMonotone(x, x, y);
    MulMonotone(y, x, y);
    assert Sq(x) == x * x;
    assert Sq(y) == y * y;
  }

  /** A square grows with the absolute value of its argument. */
  lemma SqMonotone(a: real, b: real)
    requires Abs(a) <= Abs(b)
    ensures Sq(a) <= Sq(b)
  {
    SqAbs(a);
    SqAbs(b);
    SqMonotoneNonNegative(Abs(a), Abs(b));
  }

  // ---------------------------------------------------------------------
  // Squared distance

  lemma Dist2NonNegative(p: Point, q: Point)
    ensures Dist2(p, q) >= 0.0
  {
    SqNonNegative(p.x - q.x);
    SqNonNegative(p.y - q.y);
  }

  /** Distinct points are a positive squared distance apart. */
  lemma Dist2PositiveApart(p: Point, q: Point)
    requires p != q
    ensures Dist2(p, q) > 0.0
  {
    SqNonNegative(p.x - q.x);
    SqNonNegative(p.y - q.y);
    if p.x != q.x {
      SqPositive(p.x - q.x);
    } else {
      assert p.y != q.y;
      SqPositive(p.y - q.y);
    }
  }

  /** A segment has squared length zero exactly when its endpoints coincide. */
  lemma ZeroLengthIsPoint(v: Point, w: Point)
    ensures Dist2(v, w) == 0.0 <==> v == w
  {
    if v != w {
      Dist2PositiveApart(v, w);
    }
  }

  /** (a - s e)^2 summed over both coordinates, expanded. */
  lemma Quadratic(ax: real, ay: real, ex: real, ey: real, s: real)
    ensures Sq(ax - s * ex) + Sq(ay - s * ey)
         == (Sq(ax) + Sq(ay)) - 2.0 * s * (ax * ex + ay * ey) + Sq(s) * (Sq(ex) + Sq(ey))
  {
  }

  /** The offset from the point at parameter s to p, coordinate by coordinate. */
  lemma Dist2ToLerp(p: Point, v: Point, w: Point, s: real)
    ensures Dist2(p, Lerp(v, w, s))
         == Sq((p.x - v.x) - s * (w.x - v.x)) + Sq((p.y - v.y) - s * (w.y - v.y))
  {
    var q := Lerp(v, w, s);
    assert p.x - q.x == (p.x - v.x) - s * (w.x - v.x);
    assert p.y - q.y == (p.y - v.y) - s * (w.y - v.y);
  }

  lemma Dist2Symmetric(v: Point, w: Point)
    ensures Dist2(v, w) == Sq(w.x - v.x) + Sq(w.y - v.y)
  {
    assert v.x - w.x == -(w.x - v.x);
    assert v.y - w.y == -(w.y - v.y);
    SqNegate(w.x - v.x);
    SqNegate(w.y - v.y);
  }

  /** The squared distance to the point at parameter s, as a quadratic in s. */
  lemma Dist2AlongSegment(p: Point, v: Point, w: Point, s: real)
    ensures Dist2(p, Lerp(v, w, s))
         == Dist2(p, v) - 2.0 * s * Dot(p, v, w) + Sq(s) * Dist2(v, w)
  {
    Dist2ToLerp(p, v, w, s);
    Dist2Symmetric(v, w);
    Quadratic(p.x - v.x, p.y - v.y, w.x - v.x, w.y - v.y, s);
  }

  /** Clamping moves t to the nearest point of [0, 1]. */
  lemma ClampIsNearest(t: real, s: real)
    requires 0.0 <= s <= 1.0
    ensures Abs(Clamp01(t) - t) <= Abs(s - t)
  {
  }

  lemma DivThenMul(a: real, b: real)
    requires b != 0.0
    ensures (a / b) * b == a
  {
  }

  lemma DivSelf(a: real)
    requires a != 0.0
    ensures a / a == 1.0 && (-a) / a == -1.0 && 0.0 / a == 0.0
  {
    assert (-a) / a == -(a / a);
  }

  /**
   * Completing the square: when dot = q * len2, the quadratic of
   * `Dist2AlongSegment` is len2 * (s - q)^2 plus a term independent of s.
   */
  lemma CompletedSquare(a: real, dot: real, len2: real, q: real, s: real)
    requires dot == q * len2
    ensures a - 2.0 * s * dot + Sq(s) * len2 == len2 * Sq(s - q) + (a - Sq(q) * len2)
  {
  }

  /**
   * Over [0, 1] the quadratic a - 2 s dot + s^2 len2 (len2 > 0) is smallest at
   * the clamped vertex dot / len2.
   */
  lemma ClampedVertexIsMinimal(a: real, dot: real, len2: real, s: real)
    requires len2 > 0.0 && 0.0 <= s <= 1.0
    ensures var t := Clamp01(dot / len2);
      a - 2.0 * t * dot + Sq(t) * len2 <= a - 2.0 * s * dot + Sq(s) * len2
  {
    var q := dot / len2;
    var t := Clamp01(q);
    DivThenMul(dot, len2);
    CompletedSquare(a, dot, len2, q, s);
    CompletedSquare(a, dot, len2, q, t);
    ClampIsNearest(q, s);
    SqMonotone(t - q, s - q);
    MulMonotone(len2, Sq(t - q), Sq(s - q));
  }

  lemma LerpEnds(v: Point, w: Point)
    ensures Lerp(v, w, 0.0) == v && Lerp(v, w, 1.0) == w
  {
  }

  /**
   * `distanceToSegment` is the distance to the NEAREST point of the closed
   * segment: no point of the segment is closer to p.
   */
  lemma SegmentDist2IsMinimal(p: Point, v: Point, w: Point, s: real)
    requires 0.0 <= s <= 1.0
    ensures SegmentDist2(p, v, w) <= Dist2(p, Lerp(v, w, s))
  {
    if Dist2(v, w) == 0.0 {
      ZeroLengthIsPoint(v, w);
      assert Lerp(v, w, s) == v;
    } else {
      var t := SegmentParameter(p, v, w);
      assert SegmentDist2(p, v, w) == Dist2(p, Lerp(v, w, t));
      Dist2AlongSegment(p, v, w, s);
      Dist2AlongSegment(p, v, w, t);
      Dist2NonNegative(v, w);
      ClampedVertexIsMinimal(Dist2(p, v), Dot(p, v, w), Dist2(v, w), s);
    }
  }

  /** The minimum of `SegmentDist2IsMinimal` is reached at a point of the segment. */
  lemma SegmentDist2IsAttained(p: Point, v: Point, w: Point)
    ensures exists s :: 0.0 <= s <= 1.0 && SegmentDist2(p, v, w) == Dist2(p, Lerp(v, w, s))
  {
    if Dist2(v, w) == 0.0 {
      LerpEnds(v, w);
      assert SegmentDist2(p, v, w) == Dist2(p, Lerp(v, w, 0.0));
    } else {
      var t := SegmentParameter(p, v, w);
      assert SegmentDist2(p, v, w) == Dist2(p, Lerp(v, w, t));
    }
  }

  /** The segment distance never exceeds the distance to either endpoint. */
  lemma SegmentDist2AtMostEndpoints(p: Point, v: Point, w: Point)
    ensures SegmentDist2(p, v, w) <= Dist2(p, v)
    ensures SegmentDist2(p, v, w) <= Dist2(p, w)
  {
    LerpEnds(v, w);
    SegmentDist2IsMinimal(p, v, w, 0.0);
    SegmentDist2IsMinimal(p, v, w, 1.0);
  }

  /** Every point of the segment is at distance zero from it. */
  lemma SegmentDist2ZeroOnSegment(v: Point, w: Point, s: real)
    requires 0.0 <= s <= 1.0
    ensures SegmentDist2(Lerp(v, w, s), v, w) == 0.0
  {
    var q := Lerp(v, w, s);
    SegmentDist2IsMinimal(q, v, w, s);
    assert Dist2(q, q) == 0.0;
  }
}
