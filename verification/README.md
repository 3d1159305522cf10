# Whiteboard shape model

This project is a Dafny model of the vector core of a browser whiteboard (`script.js`). It has three modules over a small option type.

- `Geometry`: points, squared distances and `distanceToSegment`. The script compares `sqrt(d2) <= threshold`. The model compares the squared distance with the squared threshold instead (`Within`).
- `Shapes`: the four shape kinds `Path`, `Line`, `Rectangle` and `Ellipse`.
  - Each kind has a hit test, `isPointInside`. The hit band is `strokeWidth + 5`. Rectangles and ellipses hit on their interior only when filled, which means a fill other than `transparent` or `#ffffff`. The ellipse ring is `|d - 1| <= 0.2`, measured over radii grown by the band.
  - Each kind has a bounding box, `getBounds`.
  - The two loops of `Path` are methods proved against these functions.
  - The bounds are proved to be the hull of each shape's defining points, grown by half the stroke width.
- `Scene`: the class `Whiteboard` holds the script's global state:
  - `objects`, the ordered list of shapes; the last one is on top;
  - the selection;
  - the active tool;
  - the gesture state `isDrawing`, `currentPath` and `startPoint`;
  - the draft shape, `tempShape`;
  - the default colours and width.

  Its methods are the script's event handlers:
  - the topmost-first hit search;
  - selection;
  - starting, updating and committing a gesture;
  - recolouring;
  - delete and clear.

  Each method states the complete new state and keeps the class invariant `Valid`:
  - ids are distinct;
  - the selection flags agree with the selection;
  - the selection names a listed shape;
  - every shape is well formed;
  - a draft exists exactly while drawing.

Shape ids are drawn from a counter `nextId`. Each `new` shape takes one, including every rebuilt draft, as in the script. The selection is held as the selected shape's id rather than a reference.

Behaviour of the code that a reader may not expect. The model follows the code in each case, and lemmas state the behaviour:

- The ellipse ring lies around the radii grown by `strokeWidth + 5`, not around the drawn outline. Take an unfilled circle of radius 10 with stroke width 0. Its own outline point (10, 0) misses, and (15, 0) hits (`Shapes.CircleExample`).
- The hit band, `strokeWidth + 5`, is wider than the bounds' margin, `strokeWidth / 2`. So points that hit can lie outside `getBounds` (`Shapes.HitOutsideBounds`).
- Where a divisor is zero, the script's ellipse quotients are infinite or NaN and every comparison with them is false. The model makes that test false; for example, an ellipse draft of radius 0 never hits on its fill.

## Model

| member | source | states |
|---|---|---|
| Geometry.Clamp01 | script.js:347 | the clamped parameter lies in [0, 1] and equals t when t already does |
| Geometry.SegmentParameter | script.js:346-347 | on a segment of non-zero length the projection parameter is clamped into [0, 1] |
| Geometry.SegmentDist2 | script.js:342-353 | the squared point-to-segment distance is never negative; a zero-length segment is measured to v without dividing |
| Geometry.ZeroLengthIsPoint | script.js:343-344 | the squared length is zero exactly when the endpoints coincide |
| Geometry.Dist2AlongSegment | script.js:349-353 | the squared distance to the point at parameter s is the quadratic len2 s^2 - 2 s dot + dist2(p, v) |
| Geometry.ClampedVertexIsMinimal | script.js:346-347 | over [0, 1] that quadratic is smallest at the clamped vertex dot / len2 |
| Geometry.SegmentDist2IsMinimal | script.js:342-353 | no point of the closed segment is closer to p than the returned distance |
| Geometry.SegmentDist2IsAttained | script.js:342-353 | the returned distance is the distance to some point of the segment |
| Geometry.SegmentDist2AtMostEndpoints | script.js:342-353 | the result never exceeds the distance to v or to w |
| Geometry.SegmentDist2ZeroOnSegment | script.js:342-353 | every point of the segment is at distance zero |
| Shapes.NormalizedDist2 | script.js:314-316 | the normalised squared distance exists exactly when both radii are non-zero, and is non-negative |
| Shapes.PathIsPointInside | script.js:150-166 | the segment loop answers exactly `PathHits`: fewer than two points never hit, otherwise some consecutive pair is within the band |
| Shapes.IsPointInside | script.js:150-329 | the dispatched hit test answers exactly `Hits` for every kind |
| Shapes.MinMaxOfBounds | script.js:172-177 | the folded min and max bound every coordinate and are attained by one |
| Shapes.PathBounds | script.js:168-185 | the `forEach` fold of min/max returns exactly `Bounds` of the path |
| Shapes.Bounds | script.js:168-338 | a box exists for every shape except a path without points |
| Shapes.GetBounds | script.js:168-338 | the dispatched `getBounds` returns exactly `Bounds` |
| Shapes.Hull | script.js:172-177 | the hull contains every point it is built from |
| Shapes.Inflate | script.js:180-184 | with a non-negative width, growing a box by half the width on each side keeps every contained point |
| Shapes.LineBoundsIsInflatedHull | script.js:213-225 | a line's bounds are the hull of its endpoints grown by half the stroke width |
| Shapes.RectangleBoundsIsInflatedHull | script.js:278-285 | a rectangle's bounds are the hull of its four corners grown by half the stroke width |
| Shapes.EllipseBoundsIsInflatedHull | script.js:331-338 | an ellipse's bounds are the hull of centre ± radii grown by half the stroke width |
| Shapes.BoundsIsInflatedHull | script.js:168-185 | for every well-formed shape (the path case included): origin = min - width/2, size = extent + width |
| Shapes.BoundsContainDefiningPoints | script.js:168-338 | with a non-negative stroke width the bounds contain every defining point of the shape |
| Shapes.LineHitsIffNearSegment | script.js:207-211 | a line hits exactly the points within the band of some point of its segment |
| Shapes.LineHitsOnSegment | script.js:207-211 | with a non-negative stroke width every point of the segment hits |
| Shapes.LineHitsAtEndpoints | script.js:207-211 | with a non-negative stroke width a line hits at both endpoints |
| Shapes.PathHitsIffNearSomeSegment | script.js:150-166 | a path hits iff it has at least two points and p is within the band of a point of one of its segments |
| Shapes.PathHitsOnEverySegment | script.js:150-166 | with a non-negative stroke width every drawn point of a path hits |
| Shapes.RectangleHitsOnOutline | script.js:262-275 | with a non-negative stroke width every point of the four edges hits |
| Shapes.RectangleHitsWithinThreshold | script.js:262-275 | a hit lies within the band around the rectangle (extended span) |
| Shapes.RectangleInteriorHitsIffFilled | script.js:254-259 | farther than the band from every edge, a point hits exactly when the fill is neither transparent nor white |
| Shapes.EllipseHitsOnInflatedOutline | script.js:311-329 | the four extreme points of the ellipse grown by the band always hit |
| Shapes.EllipseCentreHitsIffFilled | script.js:311-329 | the centre hits exactly when the ellipse is filled and both radii are non-zero |
| Shapes.EllipseZeroRadiusIgnoresFill | script.js:319-324 | with a zero radius only the ring test can hit |
| Shapes.RectangleExample | script.js:251-285 | rect (10,10,50,20), width 2: bounds {9,9,52,22}; the corner (10,10) hits; (35,50) misses |
| Shapes.CircleExample | script.js:311-329 | unfilled circle (0,0) radius 10, width 0: (5,5) and (10,0) miss, (15,0) hits |
| Shapes.HitOutsideBounds | script.js:207-225 | a line of width 0 hits the point 5 above its endpoint, which its bounds do not contain |
| Scene.IndexOfId | script.js:607 | `findIndex`: the first position holding the id, or none exactly when no shape has it |
| Scene.TopmostHit | script.js:434-442 | the highest hit position, every higher shape missing; none exactly when no shape is hit |
| Scene.TopmostHitIsHighestHit | script.js:434-442 | a hit position with only misses above it is the topmost hit |
| Scene.RemoveAt | script.js:609 | `splice(i, 1)` keeps the shapes before i and shifts the ones after it down by one |
| Scene.RectangleDraft | script.js:528-535 | the draft has non-negative size and spans exactly [min, max] of anchor and cursor on each axis |
| Scene.EllipseDraft | script.js:537-544 | the draft is centred on the anchor; its non-negative radii put the cursor on a side of the box centre ± radii |
| Scene.FirstDraftIsDegenerateGesture | script.js:498-508 | the first rectangle and ellipse drafts equal the drafts of the gesture from p to p |
| Scene.RectangleDraftCorners | script.js:528-535 | anchor and cursor are corners of the rectangle draft |
| Scene.RectangleDraftHitsGesturePoints | script.js:528-535 | with a non-negative stroke width the rectangle draft is hit at the anchor and the cursor |
| Scene.EllipseDraftBoundsContainCursor | script.js:537-544 | with a non-negative stroke width the ellipse draft's bounds contain the cursor |
| Scene.RestyleKeepsShapes | script.js:59-74 | editing a style changes only the style: every shape keeps its kind, geometry and id, so well-formedness and distinct ids carry over |
| Scene.UnflaggedIgnoresFlag | script.js:461-469 | flipping selection flags changes nothing but the flags |
| Scene.AtMostOneFlagged | script.js:461-469 | with distinct ids and flags that agree with the selection, at most one shape is flagged |
| Scene.SelectionFlagsExactlyPosition | script.js:459-469 | with the selection set to the id at the found position, exactly that shape is flagged (with `SelectAt`: exactly the topmost shape under p) |
| Scene.RemoveAtKeepsValid | script.js:605-615 | removing one shape keeps the ids distinct and bounded and the shapes well formed |
| Scene.DeleteRemovesExactlyTheId | script.js:605-615 | delete-by-id removes the one shape with that id and keeps every other shape |
| Scene.Whiteboard.constructor | script.js:21-36 | the initial state: no shapes, no selection, the path tool, not drawing, empty path, anchor (0, 0), the pickers' colours and width |
| Scene.Whiteboard.FindObjectUnderPoint | script.js:434-442 | the reverse scan returns exactly `TopmostHit` |
| Scene.Whiteboard.SelectActiveTool | script.js:376-401 | the tool changes and the selection is dropped, its flag cleared; nothing else changes |
| Scene.Whiteboard.Deselect | script.js:396-399 | the selected shape loses its flag and the selection becomes empty |
| Scene.Whiteboard.SetLineWidth | script.js:53-56 | only the default width changes; no shape, not even the selected one, is altered |
| Scene.Whiteboard.SetStrokeColor | script.js:59-65 | the default stroke colour changes and the selected shape, if any, is recoloured |
| Scene.Whiteboard.SetFillColor | script.js:68-74 | the default fill changes and the selected shape, if any, is refilled |
| Scene.Whiteboard.RecolourSelected | script.js:61-64 | the selected shape's colour is set; the invariant is kept |
| Scene.Whiteboard.SelectAt | script.js:459-482 | the selection becomes the topmost shape under p (or none); only selection flags change |
| Scene.Whiteboard.Flag | script.js:467-469 | the shape at k is flagged and selected |
| Scene.Whiteboard.StartDrawing | script.js:454-510 | select tool: selects at p; drawing tools: start drawing with the initial draft of the tool, taking a fresh id |
| Scene.Whiteboard.BeginDraft | script.js:486-508 | sets drawing and installs a freshly numbered, unselected draft |
| Scene.Whiteboard.Draw | script.js:512-548 | no-op unless drawing; the path records the cursor; each tool rebuilds its draft from anchor and cursor |
| Scene.Whiteboard.StopDrawing | script.js:550-562 | no-op unless drawing; otherwise the draft becomes the last (topmost) shape and the gesture state is cleared |
| Scene.Whiteboard.DeleteSelected | script.js:605-615 | no-op with no selection; otherwise removes exactly the selected shape, others kept in order, and clears the selection |
| Scene.Whiteboard.Clear | script.js:597-602 | the list becomes empty and the selection is dropped |

## Left out

- Canvas rendering is not modelled: `draw(ctx)`, `drawSelectionBox`, `render` and `resizeCanvas` are side effects on the browser's 2D context.
- DOM wiring is not modelled. This covers tool buttons, CSS classes and the cursor class in `selectActiveTool`; the keyboard and touch listeners; and `getMouseCoords`, whose coordinates become the `Point` parameters. The delete key and the delete button share one method.
- Colour-picker syncing on selection (script.js:473-478) is not modelled; it only writes to the user interface.
- PNG and SVG export (script.js:618-725) is not modelled; it consists entirely of browser calls.
- `activeObjectIndex` is not modelled: it is written but never read.
- Ids: the script builds ids from `Date.now()` and `Math.random()`. The model uses a counter, assuming distinct ids as the script intends.
- Floating point is not modelled. Coordinates are exact reals, and `Math.sqrt` is replaced by comparing squares. NaN and infinities appear only as the "test is false" (ellipse) and "no box" (empty path) cases.
- Scene.Whiteboard.SetLineWidth: `parseInt` of the picker text is modelled as an integer argument, so a `NaN` width is not covered.
- Scene.Whiteboard.StopDrawing: the script checks `tempShape` before pushing. The invariant makes that check always true while drawing, so the contract does not describe a drawing state without a draft.
