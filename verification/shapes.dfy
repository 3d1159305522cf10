/**
 * The four vector shape kinds of the whiteboard (`Path`, `Line`, `Rectangle`,
 * `Ellipse`), their hit test `isPointInside` and their bounding box
 * `getBounds`.
 *
 * The style attributes every kind inherits from the script's `Shape` base
 * class are grouped into `Style`.
 */
module Shapes {
  import opened Wrappers
  import opened Geometry

  datatype Style = Style(
    id: nat,
    strokeColor: string,
    fillColor: string,
    strokeWidth: real,
    isSelected: bool)

  datatype Shape =
    | Path(style: Style, points: seq<Point>)
    | Line(style: Style, x1: real, y1: real, x2: real, y2: real)
    | Rectangle(style: Style, x: real, y: real, width: real, height: real)
    | Ellipse(style: Style, x: real, y: real, radiusX: real, radiusY: real)

  /** An axis-aligned box, the object `{x, y, width, height}` returned by `getBounds`. */
  datatype Box = Box(x: real, y: real, width: real, height: real)

  predicate Contains(b: Box, p: Point) {
    b.x <= p.x <= b.x + b.width && b.y <= p.y <= b.y + b.height
  }

  /** Every hit test accepts points up to this far from the outline. */
  function Threshold(style: Style): real {
    style.strokeWidth + 5.0
  }

  /** Rectangles and ellipses hit on their interior unless the fill is transparent or white. */
  predicate Filled(fillColor: string) {
    fillColor != "transparent" && fillColor != "#ffffff"
  }

  // ---------------------------------------------------------------------
  // Hit tests

  /** The point at parameter `s` on segment `i` of a path. */
  function SegmentPoint(points: seq<Point>, i: nat, s: real): Point
    requires i + 1 < |points|
  {
    Lerp(points[i], points[i + 1], s)
  }

  /** Segment `i` of a path is within `threshold` of p. */
  predicate SegmentHits(points: seq<Point>, i: nat, threshold: real, p: Point)
    requires i + 1 < |points|
  {
    Within(SegmentDist2(p, points[i], points[i + 1]), threshold)
  }

  /** `Path.isPointInside`: some segment between consecutive points is near p. */
  predicate PathHits(points: seq<Point>, threshold: real, p: Point) {
    |points| >= 2 && exists i: nat :: i + 1 < |points| && SegmentHits(points, i, threshold, p)
  }

  predicate LineHits(style: Style, x1: real, y1: real, x2: real, y2: real, p: Point) {
    Within(SegmentDist2(p, Point(x1, y1), Point(x2, y2)), Threshold(style))
  }

  predicate RectangleHits(style: Style, x: real, y: real, width: real, height: real, p: Point) {
    var threshold := Threshold(style);
    var inside := x <= p.x <= x + width && y <= p.y <= y + height;
    var spanX := x - threshold <= p.x <= x + width + threshold;
    var spanY := y - threshold <= p.y <= y + height + threshold;
    var nearTop := Abs(p.y - y) <= threshold && spanX;
    var nearBottom := Abs(p.y - (y + height)) <= threshold && spanX;
    var nearLeft := Abs(p.x - x) <= threshold && spanY;
    var nearRight := Abs(p.x - (x + width)) <= threshold && spanY;
    (Filled(style.fillColor) && inside) || nearTop || nearBottom || nearLeft || nearRight
  }

  /**
   * The normalised squared distance (dx / rx)^2 + (dy / ry)^2. A zero
   * denominator makes the script's quotient infinite or NaN, and every
   * comparison with it false: that case is `None`.
   */
  function NormalizedDist2(dx: real, dy: real, rx: real, ry: real): (r: Option<real>)
    ensures r.Some? <==> rx != 0.0 && ry != 0.0
    ensures r.Some? ==> r.value >= 0.0
  {
    if rx == 0.0 || ry == 0.0 then None
    else
      SqNonNegative(dx / rx);
      SqNonNegative(dy / ry);
      Some(Sq(dx / rx) + Sq(dy / ry))
  }

  /** The filled interior of the ellipse with the true radii. */
  predicate EllipseFillHits(style: Style, x: real, y: real, radiusX: real, radiusY: real, p: Point) {
    var d := NormalizedDist2(p.x - x, p.y - y, radiusX, radiusY);
    Filled(style.fillColor) && d.Some? && d.value <= 1.0
  }

  /** The ring 0.8 <= d <= 1.2 of the ellipse whose radii are grown by the threshold. */
  predicate EllipseRingHits(style: Style, x: real, y: real, radiusX: real, radiusY: real, p: Point) {
    var threshold := Threshold(style);
    var d := NormalizedDist2(p.x - x, p.y - y, radiusX + threshold, radiusY + threshold);
    d.Some? && Abs(d.value - 1.0) <= 0.2
  }

  predicate EllipseHits(style: Style, x: real, y: real, radiusX: real, radiusY: real, p: Point) {
    EllipseFillHits(style, x, y, radiusX, radiusY, p) || EllipseRingHits(style, x, y, radiusX, radiusY, p)
  }

  /** `isPointInside` of every shape kind. */
  predicate Hits(s: Shape, p: Point) {
    match s
    case Path(style, points) => PathHits(points, Threshold(style), p)
    case Line(style, x1, y1, x2, y2) => LineHits(style, x1, y1, x2, y2, p)
    case Rectangle(style, x, y, w, h) => RectangleHits(style, x, y, w, h, p)
    case Ellipse(style, x, y, rx, ry) => EllipseHits(style, x, y, rx, ry, p)
  }

  /** `Path.isPointInside`: the segment loop with its early return. */
  method PathIsPointInside(points: seq<Point>, threshold: real, p: Point) returns (hit: bool)
    ensures hit == PathHits(points, threshold, p)
  {
    if |points| < 2 {
      return false;
    }
    var i := 0;
    while i < |points| - 1
      invariant 0 <= i <= |points| - 1
      invariant forall j: nat :: j < i ==> !SegmentHits(points, j, threshold, p)
    {
      if Within(SegmentDist2(p, points[i], points[i + 1]), threshold) {
        assert SegmentHits(points, i, threshold, p);
        return true;
      }
      i := i + 1;
    }
    return false;
  }

  /** `isPointInside`, dispatched on the shape kind. */
  method IsPointInside(s: Shape, p: Point) returns (hit: bool)
    ensures hit == Hits(s, p)
  {
    match s
    case Path(style, points) =>
      hit := PathIsPointInside(points, Threshold(style), p);
    case Line(style, x1, y1, x2, y2) =>
      hit := LineHits(style, x1, y1, x2, y2, p);
    case Rectangle(style, x, y, w, h) =>
      hit := RectangleHits(style, x, y, w, h, p);
    case Ellipse(style, x, y, rx, ry) =>
      hit := EllipseHits(style, x, y, rx, ry, p);
  }

  // ---------------------------------------------------------------------
  // Bounds

  /** The smallest element, folded from the left as `Math.min` does in the script. */
  function MinOf(xs: seq<real>): real
    requires |xs| > 0
  {
    if |xs| == 1 then xs[0] else Min(MinOf(xs[..|xs| - 1]), xs[|xs| - 1])
  }

  /** The largest element, folded from the left as `Math.max` does in the script. */
  function MaxOf(xs: seq<real>): real
    requires |xs| > 0
  {
    if |xs| == 1 then xs[0] else Max(MaxOf(xs[..|xs| - 1]), xs[|xs| - 1])
  }

  /** The folded minimum and maximum are elements of the sequence and bound all of it. */
  lemma {:induction false} MinMaxOfBounds(xs: seq<real>)
    requires |xs| > 0
    ensures forall i :: 0 <= i < |xs| ==> MinOf(xs) <= xs[i] <= MaxOf(xs)
    ensures (exists i :: 0 <= i < |xs| && MinOf(xs) == xs[i])
    ensures (exists i :: 0 <= i < |xs| && MaxOf(xs) == xs[i])
  {
    if |xs| > 1 {
      var init := xs[..|xs| - 1];
      MinMaxOfBounds(init);
      forall i | 0 <= i < |xs|
        ensures MinOf(xs) <= xs[i] <= MaxOf(xs)
      {
        if i < |init| {
          assert init[i] == xs[i];
        }
      }
      var j :| 0 <= j < |init| && MinOf(init) == init[j];
      var k :| 0 <= k < |init| && MaxOf(init) == init[k];
      if MinOf(xs) != xs[|xs| - 1] {
        assert MinOf(xs) == xs[j];
      }
      if MaxOf(xs) != xs[|xs| - 1] {
        assert MaxOf(xs) == xs[k];
      }
    } else {
      assert MinOf(xs) == xs[0] == MaxOf(xs);
    }
  }

  function Xs(points: seq<Point>): (r: seq<real>)
    ensures |r| == |points| && forall i :: 0 <= i < |points| ==> r[i] == points[i].x
  {
    seq(|points|, i requires 0 <= i < |points| => points[i].x)
  }

  function Ys(points: seq<Point>): (r: seq<real>)
    ensures |r| == |points| && forall i :: 0 <= i < |points| ==> r[i] == points[i].y
  {
    seq(|points|, i requires 0 <= i < |points| => points[i].y)
  }

  /**
   * `getBounds` of every shape kind. `Path.getBounds` folds from the
   * infinities, so a path without points gets an infinite box; that case is
   * `None`.
   */
  function Bounds(s: Shape): (b: Option<Box>)
    ensures b.None? <==> s.Path? && |s.points| == 0
  {
    var half := s.style.strokeWidth / 2.0;
    var sw := s.style.strokeWidth;
    match s
    case Path(_, points) =>
      if |points| == 0 then None
      else
        var minX, minY := MinOf(Xs(points)), MinOf(Ys(points));
        var maxX, maxY := MaxOf(Xs(points)), MaxOf(Ys(points));
        Some(Box(minX - half, minY - half, (maxX - minX) + sw, (maxY - minY) + sw))
    case Line(_, x1, y1, x2, y2) =>
      var minX, minY := Min(x1, x2), Min(y1, y2);
      var maxX, maxY := Max(x1, x2), Max(y1, y2);
      Some(Box(minX - half, minY - half, (maxX - minX) + sw, (maxY - minY) + sw))
    case Rectangle(_, x, y, w, h) =>
      Some(Box(x - half, y - half, w + sw, h + sw))
    case Ellipse(_, x, y, rx, ry) =>
      Some(Box(x - rx - half, y - ry - half, rx * 2.0 + sw, ry * 2.0 + sw))
  }

  /** `Path.getBounds`: the `forEach` that folds the minimum and maximum coordinates. */
  method PathBounds(style: Style, points: seq<Point>) returns (b: Option<Box>)
    ensures b == Bounds(Path(style, points))
  {
    if |points| == 0 {
      return None;
    }
    var minX, minY, maxX, maxY := points[0].x, points[0].y, points[0].x, points[0].y;
    assert Xs(points[..1]) == [points[0].x] && Ys(points[..1]) == [points[0].y];
    var i := 1;
    while i < |points|
      invariant 1 <= i <= |points|
      invariant minX == MinOf(Xs(points[..i])) && maxX == MaxOf(Xs(points[..i]))
      invariant minY == MinOf(Ys(points[..i])) && maxY == MaxOf(Ys(points[..i]))
    {
      ProjectionsSnoc(points, i);
      MinMaxSnoc(Xs(points[..i]), points[i].x);
      MinMaxSnoc(Ys(points[..i]), points[i].y);
      minX := Min(minX, points[i].x);
      minY := Min(minY, points[i].y);
      maxX := Max(maxX, points[i].x);
      maxY := Max(maxY, points[i].y);
      i := i + 1;
    }
    assert points[..i] == points;
    var half := style.strokeWidth / 2.0;
    b := Some(Box(minX - half, minY - half, (maxX - minX) + style.strokeWidth, (maxY - minY) + style.strokeWidth));
  }

  /** `getBounds`, dispatched on the shape kind. */
  method GetBounds(s: Shape) returns (b: Option<Box>)
    ensures b == Bounds(s)
  {
    match s
    case Path(style, points) =>
      b := PathBounds(style, points);
    case _ =>
      b := Bounds(s);
  }

  // ---------------------------------------------------------------------
  // Reference definition of the bounds

  /** Shapes as the drawing gestures create them: a path has a point, sizes are not negative. */
  predicate WellFormed(s: Shape) {
    match s
    case Path(_, points) => |points| > 0
    case Line(_, _, _, _, _) => true
    case Rectangle(_, _, _, w, h) => w >= 0.0 && h >= 0.0
    case Ellipse(_, _, _, rx, ry) => rx >= 0.0 && ry >= 0.0
  }

  /** The points a shape is drawn through: extreme points of its outline. */
  function DefiningPoints(s: Shape): (r: seq<Point>)
    ensures WellFormed(s) ==> |r| > 0
  {
    match s
    case Path(_, points) => points
    case Line(_, x1, y1, x2, y2) => [Point(x1, y1), Point(x2, y2)]
    case Rectangle(_, x, y, w, h) =>
      [Point(x, y), Point(x + w, y), Point(x, y + h), Point(x + w, y + h)]
    case Ellipse(_, x, y, rx, ry) =>
      [Point(x - rx, y), Point(x + rx, y), Point(x, y - ry), Point(x, y + ry)]
  }

  /**
   * The box from the smallest to the largest coordinates, holding every
   * point; by `MinMaxOfBounds` its edges are attained, so no smaller box holds them.
   */
  function Hull(points: seq<Point>): (b: Box)
    requires |points| > 0
    ensures forall i :: 0 <= i < |points| ==> Contains(b, points[i])
  {
    MinMaxOfBounds(Xs(points));
    MinMaxOfBounds(Ys(points));
    var minX, minY := MinOf(Xs(points)), MinOf(Ys(points));
    Box(minX, minY, MaxOf(Xs(points)) - minX, MaxOf(Ys(points)) - minY)
  }

  /** Grows a box by half the stroke width on every side. */
  function Inflate(b: Box, strokeWidth: real): (r: Box)
    ensures strokeWidth >= 0.0 ==> forall p :: Contains(b, p) ==> Contains(r, p)
  {
    Box(b.x - strokeWidth / 2.0, b.y - strokeWidth / 2.0, b.width + strokeWidth, b.height + strokeWidth)
  }

  lemma MinMaxSnoc(xs: seq<real>, x: real)
    requires |xs| > 0
    ensures MinOf(xs + [x]) == Min(MinOf(xs), x)
    ensures MaxOf(xs + [x]) == Max(MaxOf(xs), x)
  {
    assert (xs + [x])[..|xs|] == xs;
  }

  lemma MinMaxOfFour(a: real, b: real, c: real, d: real)
    ensures MinOf([a, b, c, d]) == Min(Min(Min(a, b), c), d)
    ensures MaxOf([a, b, c, d]) == Max(Max(Max(a, b), c), d)
  {
    MinMaxSnoc([a], b);
    assert [a] + [b] == [a, b];
    MinMaxSnoc([a, b], c);
    assert [a, b] + [c] == [a, b, c];
    MinMaxSnoc([a, b, c], d);
    assert [a, b, c] + [d] == [a, b, c, d];
  }

  lemma ProjectionsSnoc(points: seq<Point>, i: nat)
    requires i < |points|
    ensures Xs(points[..i + 1]) == Xs(points[..i]) + [points[i].x]
    ensures Ys(points[..i + 1]) == Ys(points[..i]) + [points[i].y]
  {
  }

  lemma LineBoundsIsInflatedHull(s: Shape)
    requires s.Line?
    ensures Bounds(s) == Some(Inflate(Hull(DefiningPoints(s)), s.style.strokeWidth))
  {
    var pts := DefiningPoints(s);
    assert Xs(pts) == [s.x1] + [s.x2] && Ys(pts) == [s.y1] + [s.y2];
    MinMaxSnoc([s.x1], s.x2);
    MinMaxSnoc([s.y1], s.y2);
  }

  lemma RectangleBoundsIsInflatedHull(s: Shape)
    requires s.Rectangle? && WellFormed(s)
    ensures Bounds(s) == Some(Inflate(Hull(DefiningPoints(s)), s.style.strokeWidth))
  {
    var pts := DefiningPoints(s);
    assert Xs(pts) == [s.x, s.x + s.width, s.x, s.x + s.width];
    assert Ys(pts) == [s.y, s.y, s.y + s.height, s.y + s.height];
    MinMaxOfFour(s.x, s.x + s.width, s.x, s.x + s.width);
    MinMaxOfFour(s.y, s.y, s.y + s.height, s.y + s.height);
  }

  lemma EllipseBoundsIsInflatedHull(s: Shape)
    requires s.Ellipse? && WellFormed(s)
    ensures Bounds(s) == Some(Inflate(Hull(DefiningPoints(s)), s.style.strokeWidth))
  {
    var pts := DefiningPoints(s);
    assert Xs(pts) == [s.x - s.radiusX, s.x + s.radiusX, s.x, s.x];
    assert Ys(pts) == [s.y, s.y, s.y - s.radiusY, s.y + s.radiusY];
    MinMaxOfFour(s.x - s.radiusX, s.x + s.radiusX, s.x, s.x);
    MinMaxOfFour(s.y, s.y, s.y - s.radiusY, s.y + s.radiusY);
  }

  /**
   * Every `getBounds` is the hull of the shape's defining points grown by
   * half the stroke width on each side.
   */
  lemma BoundsIsInflatedHull(s: Shape)
    requires WellFormed(s)
    ensures Bounds(s) == Some(Inflate(Hull(DefiningPoints(s)), s.style.strokeWidth))
  {
    match s
    case Path(_, _) =>
    case Line(_, _, _, _, _) => LineBoundsIsInflatedHull(s);
    case Rectangle(_, _, _, _, _) => RectangleBoundsIsInflatedHull(s);
    case Ellipse(_, _, _, _, _) => EllipseBoundsIsInflatedHull(s);
  }

  /** With a non-negative stroke width the bounds contain every defining point. */
  lemma BoundsContainDefiningPoints(s: Shape)
    requires WellFormed(s) && s.style.strokeWidth >= 0.0
    ensures Bounds(s).Some?
    ensures forall q :: q in DefiningPoints(s) ==> Contains(Bounds(s).value, q)
  {
    BoundsIsInflatedHull(s);
    var pts := DefiningPoints(s);
    forall q | q in pts
      ensures Contains(Bounds(s).value, q)
    {
      var i :| 0 <= i < |pts| && pts[i] == q;
      assert Contains(Hull(pts), pts[i]);
    }
  }

  // ---------------------------------------------------------------------
  // Properties of the hit tests

  /** A line hits exactly the points within the threshold of some point of the segment. */
  lemma LineHitsIffNearSegment(style: Style, x1: real, y1: real, x2: real, y2: real, p: Point)
    ensures LineHits(style, x1, y1, x2, y2, p)
        <==> Threshold(style) >= 0.0
             && (exists s :: 0.0 <= s <= 1.0 && Dist2(p, Lerp(Point(x1, y1), Point(x2, y2), s)) <= Sq(Threshold(style)))
  {
    var v, w := Point(x1, y1), Point(x2, y2);
    SegmentDist2IsAttained(p, v, w);
    if Threshold(style) >= 0.0 && exists s :: 0.0 <= s <= 1.0 && Dist2(p, Lerp(v, w, s)) <= Sq(Threshold(style)) {
      var s :| 0.0 <= s <= 1.0 && Dist2(p, Lerp(v, w, s)) <= Sq(Threshold(style));
      SegmentDist2IsMinimal(p, v, w, s);
    }
  }

  /** With a non-negative stroke width, every point of a line's segment hits it. */
  lemma LineHitsOnSegment(style: Style, x1: real, y1: real, x2: real, y2: real, s: real)
    requires style.strokeWidth >= 0.0 && 0.0 <= s <= 1.0
    ensures LineHits(style, x1, y1, x2, y2, Lerp(Point(x1, y1), Point(x2, y2), s))
  {
    var v, w := Point(x1, y1), Point(x2, y2);
    SegmentDist2ZeroOnSegment(v, w, s);
    SqNonNegative(Threshold(style));
  }

  /** In particular a line hits at both of its endpoints. */
  lemma LineHitsAtEndpoints(style: Style, x1: real, y1: real, x2: real, y2: real)
    requires style.strokeWidth >= 0.0
    ensures LineHits(style, x1, y1, x2, y2, Point(x1, y1))
    ensures LineHits(style, x1, y1, x2, y2, Point(x2, y2))
  {
    LerpEnds(Point(x1, y1), Point(x2, y2));
    LineHitsOnSegment(style, x1, y1, x2, y2, 0.0);
    LineHitsOnSegment(style, x1, y1, x2, y2, 1.0);
  }

  /**
   * A path hits exactly the points within the threshold of a point of one of
   * its segments; a path of fewer than two points hits nothing.
   */
  lemma PathHitsIffNearSomeSegment(points: seq<Point>, threshold: real, p: Point)
    ensures PathHits(points, threshold, p)
        <==> |points| >= 2 && threshold >= 0.0
             && (exists i: nat, s :: i + 1 < |points| && 0.0 <= s <= 1.0 && Dist2(p, SegmentPoint(points, i, s)) <= Sq(threshold))
  {
    if PathHits(points, threshold, p) {
      var i: nat :| i + 1 < |points| && SegmentHits(points, i, threshold, p);
      SegmentDist2IsAttained(p, points[i], points[i + 1]);
      var s :| 0.0 <= s <= 1.0 && SegmentDist2(p, points[i], points[i + 1]) == Dist2(p, Lerp(points[i], points[i + 1], s));
      assert i + 1 < |points| && 0.0 <= s <= 1.0 && Dist2(p, SegmentPoint(points, i, s)) <= Sq(threshold);
    }
    if |points| >= 2 && threshold >= 0.0
       && (exists i: nat, s :: i + 1 < |points| && 0.0 <= s <= 1.0 && Dist2(p, SegmentPoint(points, i, s)) <= Sq(threshold))
    {
      var i: nat, s :| i + 1 < |points| && 0.0 <= s <= 1.0
          && Dist2(p, SegmentPoint(points, i, s)) <= Sq(threshold);
      SegmentDist2IsMinimal(p, points[i], points[i + 1], s);
      assert SegmentHits(points, i, threshold, p);
    }
  }

  /** With a non-negative stroke width, every point drawn by a path hits it. */
  lemma PathHitsOnEverySegment(style: Style, points: seq<Point>, i: nat, s: real)
    requires style.strokeWidth >= 0.0 && i + 1 < |points| && 0.0 <= s <= 1.0
    ensures Hits(Path(style, points), SegmentPoint(points, i, s))
  {
    var q := SegmentPoint(points, i, s);
    SegmentDist2ZeroOnSegment(points[i], points[i + 1], s);
    SqNonNegative(Threshold(style));
    assert SegmentHits(points, i, Threshold(style), q);
  }

  /** The four edges of a rectangle. */
  predicate OnOutline(x: real, y: real, w: real, h: real, p: Point) {
    ((p.y == y || p.y == y + h) && x <= p.x <= x + w)
    || ((p.x == x || p.x == x + w) && y <= p.y <= y + h)
  }

  /** With a non-negative stroke width, every point of a rectangle's edges hits it. */
  lemma RectangleHitsOnOutline(style: Style, x: real, y: real, w: real, h: real, p: Point)
    requires style.strokeWidth >= 0.0 && OnOutline(x, y, w, h, p)
    ensures RectangleHits(style, x, y, w, h, p)
  {
  }

  /** A rectangle only hits within the threshold of its area. */
  lemma RectangleHitsWithinThreshold(style: Style, x: real, y: real, w: real, h: real, p: Point)
    requires style.strokeWidth >= 0.0 && w >= 0.0 && h >= 0.0 && RectangleHits(style, x, y, w, h, p)
    ensures var t := Threshold(style);
      Contains(Box(x - t, y - t, w + 2.0 * t, h + 2.0 * t), p)
  {
  }

  /**
   * Deep inside a rectangle (farther than the threshold from every edge) a
   * point hits exactly when the rectangle is filled.
   */
  lemma RectangleInteriorHitsIffFilled(style: Style, x: real, y: real, w: real, h: real, p: Point)
    requires style.strokeWidth >= 0.0
    requires var t := Threshold(style);
      x + t < p.x < x + w - t && y + t < p.y < y + h - t
    ensures RectangleHits(style, x, y, w, h, p) <==> Filled(style.fillColor)
  {
  }

  /**
   * The ellipse whose radii are grown by the threshold lies on the ring, so
   * its four extreme points hit.
   */
  lemma EllipseHitsOnInflatedOutline(style: Style, x: real, y: real, rx: real, ry: real)
    requires rx + Threshold(style) != 0.0 && ry + Threshold(style) != 0.0
    ensures var t := Threshold(style);
      && EllipseHits(style, x, y, rx, ry, Point(x + (rx + t), y))
      && EllipseHits(style, x, y, rx, ry, Point(x - (rx + t), y))
      && EllipseHits(style, x, y, rx, ry, Point(x, y + (ry + t)))
      && EllipseHits(style, x, y, rx, ry, Point(x, y - (ry + t)))
  {
    var t := Threshold(style);
    var a, b := rx + t, ry + t;
    DivSelf(a);
    DivSelf(b);
    assert (x + a) - x == a && (x - a) - x == -a && x - x == 0.0;
    assert (y + b) - y == b && (y - b) - y == -b && y - y == 0.0;
    assert Sq(1.0) == 1.0 && Sq(-1.0) == 1.0 && Sq(0.0) == 0.0;
  }

  /**
   * The centre of an ellipse is off the ring, so it hits exactly when the
   * ellipse is filled and has two non-zero radii.
   */
  lemma EllipseCentreHitsIffFilled(style: Style, x: real, y: real, rx: real, ry: real)
    ensures EllipseHits(style, x, y, rx, ry, Point(x, y))
        <==> Filled(style.fillColor) && rx != 0.0 && ry != 0.0
  {
    var t := Threshold(style);
    assert x - x == 0.0 && y - y == 0.0;
    assert Sq(0.0) == 0.0;
    if rx != 0.0 { DivSelf(rx); }
    if ry != 0.0 { DivSelf(ry); }
    if rx + t != 0.0 { DivSelf(rx + t); }
    if ry + t != 0.0 { DivSelf(ry + t); }
  }

  /** An ellipse with a zero radius (a draft at its first point) never hits on its fill. */
  lemma EllipseZeroRadiusIgnoresFill(style: Style, x: real, y: real, rx: real, ry: real, p: Point)
    requires rx == 0.0 || ry == 0.0
    ensures EllipseHits(style, x, y, rx, ry, p) == EllipseRingHits(style, x, y, rx, ry, p)
  {
  }

  // ---------------------------------------------------------------------
  // Concrete cases

  /** The rectangle (10, 10, 50, 20) with stroke width 2. */
  lemma RectangleExample(style: Style)
    requires style.strokeWidth == 2.0
    ensures Bounds(Rectangle(style, 10.0, 10.0, 50.0, 20.0)) == Some(Box(9.0, 9.0, 52.0, 22.0))
    ensures RectangleHits(style, 10.0, 10.0, 50.0, 20.0, Point(10.0, 10.0))
    ensures !RectangleHits(style, 10.0, 10.0, 50.0, 20.0, Point(35.0, 50.0))
  {
  }

  /**
   * The unfilled circle (0, 0) with radii 10 and stroke width 0: its ring is
   * around radius 15, so the centre region (5, 5) and even the drawn
   * outline point (10, 0) miss, while (15, 0) hits.
   */
  lemma CircleExample(style: Style)
    requires style.strokeWidth == 0.0 && style.fillColor == "transparent"
    ensures !EllipseHits(style, 0.0, 0.0, 10.0, 10.0, Point(5.0, 5.0))
    ensures !EllipseHits(style, 0.0, 0.0, 10.0, 10.0, Point(10.0, 0.0))
    ensures EllipseHits(style, 0.0, 0.0, 10.0, 10.0, Point(15.0, 0.0))
  {
    assert Sq(5.0 / 15.0) == 1.0 / 9.0;
    assert Sq(10.0 / 15.0) == 4.0 / 9.0;
    assert Sq(15.0 / 15.0) == 1.0;
    assert Sq(0.0 / 15.0) == 0.0;
  }

  /**
   * The hit band (threshold stroke width + 5) is wider than the bounds'
   * margin (half the stroke width): a horizontal line with stroke width 0
   * hits the point 5 above its first endpoint, which lies outside its bounds.
   */
  lemma HitOutsideBounds(style: Style, x1: real, x2: real, y: real)
    requires style.strokeWidth == 0.0
    ensures Hits(Line(style, x1, y, x2, y), Point(x1, y + 5.0))
    ensures !Contains(Bounds(Line(style, x1, y, x2, y)).value, Point(x1, y + 5.0))
  {
    var p, v, w := Point(x1, y + 5.0), Point(x1, y), Point(x2, y);
    SegmentDist2AtMostEndpoints(p, v, w);
    assert Dist2(p, v) == 25.0 by {
      assert p.x - v.x == 0.0 && p.y - v.y == 5.0;
      assert Sq(0.0) == 0.0 && Sq(5.0) == 25.0;
    }
    assert Threshold(style) == 5.0;
    assert LineHits(style, x1, y, x2, y, p);
  }
}
