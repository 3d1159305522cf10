/**
 * The whiteboard's scene: the ordered list of committed shapes (last drawn
 * on top), the selection, the active tool and the state of the drawing
 * gesture with its draft shape.
 *
 * Shape identity: the script gives each new shape a unique string id; here
 * the scene hands out ids from the counter `nextId`. The script holds the
 * selection as a reference to a shape of the list; here it is that shape's
 * id.
 */
module Scene {
  import opened Wrappers
  import opened Geometry
  import opened Shapes

  datatype Tool = SelectTool | PathTool | LineTool | RectangleTool | EllipseTool

  // ---------------------------------------------------------------------
  // The list of shapes

  predicate DistinctIds(objs: seq<Shape>) {
    forall i, j :: 0 <= i < j < |objs| ==> objs[i].style.id != objs[j].style.id
  }

  predicate IdsBelow(objs: seq<Shape>, bound: nat) {
    forall i :: 0 <= i < |objs| ==> objs[i].style.id < bound
  }

  predicate HasId(objs: seq<Shape>, id: nat) {
    exists i :: 0 <= i < |objs| && objs[i].style.id == id
  }

  /** A shape carries the selection flag exactly when it is the selected shape. */
  predicate FlagsMatch(objs: seq<Shape>, selected: Option<nat>) {
    forall i :: 0 <= i < |objs| ==> (objs[i].style.isSelected <==> selected == Some(objs[i].style.id))
  }

  /** The position of the first shape with the given id (`findIndex`), or `None`. */
  function IndexOfId(objs: seq<Shape>, id: nat): (r: Option<nat>)
    ensures r.Some? ==> r.value < |objs| && objs[r.value].style.id == id
    ensures r.Some? ==> forall j :: 0 <= j < r.value ==> objs[j].style.id != id
    ensures r.None? <==> !HasId(objs, id)
  {
    if |objs| == 0 then None
    else if objs[0].style.id == id then Some(0)
    else
      match IndexOfId(objs[1..], id)
      case None =>
        assert forall j :: 1 <= j < |objs| ==> objs[j] == objs[1..][j - 1];
        None
      case Some(k) => Some(k + 1)
  }

  /**
   * The position of the topmost shape under p: the highest index whose hit
   * test succeeds, or `None` when no shape is hit.
   */
  function TopmostHit(objs: seq<Shape>, p: Point): (r: Option<nat>)
    ensures r.Some? ==> r.value < |objs| && Hits(objs[r.value], p)
    ensures r.Some? ==> forall j :: r.value < j < |objs| ==> !Hits(objs[j], p)
    ensures r.None? <==> forall j :: 0 <= j < |objs| ==> !Hits(objs[j], p)
  {
    if |objs| == 0 then None
    else if Hits(objs[|objs| - 1], p) then Some(|objs| - 1)
    else
      var init := objs[..|objs| - 1];
      assert forall j :: 0 <= j < |init| ==> init[j] == objs[j];
      TopmostHit(init, p)
  }

  /** The list without the element at position i, the others kept in order (`splice(i, 1)`). */
  function RemoveAt(objs: seq<Shape>, i: nat): (r: seq<Shape>)
    requires i < |objs|
    ensures |r| == |objs| - 1
    ensures forall j :: 0 <= j < i ==> r[j] == objs[j]
    ensures forall j :: i <= j < |r| ==> r[j] == objs[j + 1]
  {
    objs[..i] + objs[i + 1..]
  }

  /** The changes the script makes to a shape's style fields in place. */
  datatype StyleEdit = NewStroke(color: string) | NewFill(color: string) | NewFlag(flag: bool)

  function ApplyEdit(st: Style, e: StyleEdit): Style {
    match e
    case NewStroke(c) => st.(strokeColor := c)
    case NewFill(c) => st.(fillColor := c)
    case NewFlag(b) => st.(isSelected := b)
  }

  /** Applies an edit to the style of the shapes with the given id. */
  function Restyle(objs: seq<Shape>, id: nat, e: StyleEdit): (r: seq<Shape>)
    ensures |r| == |objs|
  {
    seq(|objs|, i requires 0 <= i < |objs| =>
      if objs[i].style.id == id then objs[i].(style := ApplyEdit(objs[i].style, e)) else objs[i])
  }

  /** The list with every selection flag cleared: what a selection change may not alter. */
  function Unflagged(objs: seq<Shape>): (r: seq<Shape>)
    ensures |r| == |objs|
  {
    seq(|objs|, i requires 0 <= i < |objs| => objs[i].(style := objs[i].style.(isSelected := false)))
  }

  /** The id of the shape at an optional position. */
  function IdAt(objs: seq<Shape>, i: Option<nat>): Option<nat>
    requires i.Some? ==> i.value < |objs|
  {
    match i
    case None => None
    case Some(k) => Some(objs[k].style.id)
  }

  // ---------------------------------------------------------------------
  // Drafts

  /**
   * The rectangle draft between the gesture's anchor and the cursor: its
   * origin is the smaller coordinate and its size the absolute difference.
   */
  function RectangleDraft(style: Style, start: Point, cur: Point): (r: Shape)
    ensures r.Rectangle? && r.style == style
    ensures r.width >= 0.0 && r.height >= 0.0
    ensures r.x == Min(start.x, cur.x) && r.x + r.width == Max(start.x, cur.x)
    ensures r.y == Min(start.y, cur.y) && r.y + r.height == Max(start.y, cur.y)
  {
    var width := cur.x - start.x;
    var height := cur.y - start.y;
    Rectangle(style, if width >= 0.0 then start.x else cur.x, if height >= 0.0 then start.y else cur.y,
      Abs(width), Abs(height))
  }

  /**
   * The ellipse draft: centred on the anchor, with non-negative radii that
   * put the cursor on a side of the box centre ± radii.
   */
  function EllipseDraft(style: Style, start: Point, cur: Point): (r: Shape)
    ensures r.Ellipse? && r.style == style
    ensures r.x == start.x && r.y == start.y
    ensures r.radiusX >= 0.0 && (cur.x == start.x + r.radiusX || cur.x == start.x - r.radiusX)
    ensures r.radiusY >= 0.0 && (cur.y == start.y + r.radiusY || cur.y == start.y - r.radiusY)
  {
    Ellipse(style, start.x, start.y, Abs(cur.x - start.x), Abs(cur.y - start.y))
  }

  // ---------------------------------------------------------------------
  // The whiteboard

  class Whiteboard {
    var objects: seq<Shape>
    var selected: Option<nat>
    var tool: Tool
    var isDrawing: bool
    var currentPath: seq<Point>
    var startPoint: Point
    var draft: Option<Shape>
    var strokeColor: string
    var fillColor: string
    var lineWidth: int
    var nextId: nat

    /**
     * Ids are unique and below the counter; the selection flags agree with
     * the selection, which names a shape of the list; every shape is well
     * formed; a draft exists exactly while drawing, is unselected and newer
     * than every committed shape.
     */
    predicate Valid()
      reads this
    {
      && DistinctIds(objects)
      && IdsBelow(objects, nextId)
      && FlagsMatch(objects, selected)
      && (selected.Some? ==> HasId(objects, selected.value))
      && (forall i :: 0 <= i < |objects| ==> WellFormed(objects[i]))
      && (isDrawing <==> draft.Some?)
      && (draft.Some? ==>
            && draft.value.style.id < nextId
            && IdsBelow(objects, draft.value.style.id)
            && !draft.value.style.isSelected
            && WellFormed(draft.value))
    }

    /** The style a new shape takes from the current defaults. */
    function NewStyle(fill: string): Style
      reads this
    {
      Style(nextId, strokeColor, fill, lineWidth as real, false)
    }

    /** An empty board with the pickers' initial colours and width; the path tool is active. */
    constructor(strokeColor: string, fillColor: string, lineWidth: int)
      ensures Valid()
      ensures objects == [] && selected == None && tool == PathTool && !isDrawing
      ensures currentPath == [] && draft == None && startPoint == Point(0.0, 0.0)
      ensures this.strokeColor == strokeColor && this.fillColor == fillColor && this.lineWidth == lineWidth
    {
      objects := [];
      selected := None;
      tool := PathTool;
      isDrawing := false;
      currentPath := [];
      startPoint := Point(0.0, 0.0);
      draft := None;
      this.strokeColor := strokeColor;
      this.fillColor := fillColor;
      this.lineWidth := lineWidth;
      nextId := 0;
    }

    /** `findObjectUnderPoint`: scans from the top of the list down. */
    method FindObjectUnderPoint(p: Point) returns (found: Option<nat>)
      ensures found == TopmostHit(objects, p)
    {
      var i := |objects|;
      while i > 0
        invariant 0 <= i <= |objects|
        invariant forall j :: i <= j < |objects| ==> !Hits(objects[j], p)
      {
        var hit := IsPointInside(objects[i - 1], p);
        if hit {
          TopmostHitIsHighestHit(objects, p, i - 1);
          return Some(i - 1);
        }
        i := i - 1;
      }
      return None;
    }

    /** Changing tool drops the selection (the rest of `selectActiveTool` is user interface). */
    method SelectActiveTool(t: Tool)
      requires Valid()
      modifies this
      ensures Valid()
      ensures tool == t && selected == None
      ensures Unflagged(objects) == Unflagged(old(objects))
      ensures isDrawing == old(isDrawing) && draft == old(draft) && currentPath == old(currentPath)
      ensures startPoint == old(startPoint) && nextId == old(nextId)
      ensures strokeColor == old(strokeColor) && fillColor == old(fillColor) && lineWidth == old(lineWidth)
    {
      tool := t;
      if selected.Some? {
        Deselect();
      }
    }

    /** Clears the selected shape's flag and the selection. */
    method Deselect()
      requires Valid() && selected.Some?
      modifies this
      ensures Valid()
      ensures selected == None && objects == Restyle(old(objects), old(selected).value, NewFlag(false))
      ensures Unflagged(objects) == Unflagged(old(objects))
      ensures tool == old(tool) && isDrawing == old(isDrawing) && draft == old(draft)
      ensures currentPath == old(currentPath) && startPoint == old(startPoint) && nextId == old(nextId)
      ensures strokeColor == old(strokeColor) && fillColor == old(fillColor) && lineWidth == old(lineWidth)
    {
      var old_objects, id := objects, selected.value;
      objects := Restyle(objects, id, NewFlag(false));
      selected := None;
      RestyleKeepsShapes(old_objects, id, NewFlag(false));
      UnflaggedIgnoresFlag(old_objects, id, false);
      forall i | 0 <= i < |objects|
        ensures !objects[i].style.isSelected
      {
        assert old_objects[i].style.isSelected ==> old_objects[i].style.id == id;
      }
      assert forall i :: 0 <= i < |objects| ==> WellFormed(old_objects[i]);
    }

    /** The stroke-width picker changes only the default width for new shapes. */
    method SetLineWidth(w: int)
      requires Valid()
      modifies this
      ensures Valid()
      ensures lineWidth == w
      ensures objects == old(objects) && selected == old(selected) && tool == old(tool)
      ensures isDrawing == old(isDrawing) && draft == old(draft) && currentPath == old(currentPath)
      ensures startPoint == old(startPoint) && nextId == old(nextId)
      ensures strokeColor == old(strokeColor) && fillColor == old(fillColor)
    {
      lineWidth := w;
    }

    /** The stroke colour picker sets the default and recolours the selected shape. */
    method SetStrokeColor(c: string)
      requires Valid()
      modifies this
      ensures Valid()
      ensures strokeColor == c
      ensures objects == (if selected.Some? then Restyle(old(objects), selected.value, NewStroke(c)) else old(objects))
      ensures selected == old(selected) && tool == old(tool) && fillColor == old(fillColor) && lineWidth == old(lineWidth)
      ensures isDrawing == old(isDrawing) && draft == old(draft) && currentPath == old(currentPath)
      ensures startPoint == old(startPoint) && nextId == old(nextId)
    {
      strokeColor := c;
      if selected.Some? {
        RecolourSelected(NewStroke(c));
      }
    }

    /** The fill colour picker sets the default and refills the selected shape, whatever its kind. */
    method SetFillColor(c: string)
      requires Valid()
      modifies this
      ensures Valid()
      ensures fillColor == c
      ensures objects == (if selected.Some? then Restyle(old(objects), selected.value, NewFill(c)) else old(objects))
      ensures selected == old(selected) && tool == old(tool) && strokeColor == old(strokeColor) && lineWidth == old(lineWidth)
      ensures isDrawing == old(isDrawing) && draft == old(draft) && currentPath == old(currentPath)
      ensures startPoint == old(startPoint) && nextId == old(nextId)
    {
      fillColor := c;
      if selected.Some? {
        RecolourSelected(NewFill(c));
      }
    }

    /** Applies a colour edit to the selected shape. */
    method RecolourSelected(e: StyleEdit)
      requires Valid() && selected.Some? && !e.NewFlag?
      modifies this
      ensures Valid()
      ensures objects == Restyle(old(objects), old(selected).value, e)
      ensures selected == old(selected) && tool == old(tool)
      ensures strokeColor == old(strokeColor) && fillColor == old(fillColor) && lineWidth == old(lineWidth)
      ensures isDrawing == old(isDrawing) && draft == old(draft) && currentPath == old(currentPath)
      ensures startPoint == old(startPoint) && nextId == old(nextId)
    {
      var old_objects := objects;
      objects := Restyle(objects, selected.value, e);
      RestyleKeepsShapes(old_objects, selected.value, e);
      assert forall i :: 0 <= i < |objects| ==> WellFormed(old_objects[i]);
      var k :| 0 <= k < |old_objects| && old_objects[k].style.id == selected.value;
      assert objects[k].style.id == selected.value;
    }

    /**
     * The select tool's mouse-down: the old selection loses its flag and
     * the topmost shape under p, if any, becomes the selection.
     */
    method SelectAt(p: Point)
      requires Valid()
      modifies this
      ensures Valid()
      ensures selected == IdAt(old(objects), TopmostHit(old(objects), p))
      ensures Unflagged(objects) == Unflagged(old(objects))
      ensures tool == old(tool) && isDrawing == old(isDrawing) && draft == old(draft)
      ensures currentPath == old(currentPath) && startPoint == old(startPoint) && nextId == old(nextId)
      ensures strokeColor == old(strokeColor) && fillColor == old(fillColor) && lineWidth == old(lineWidth)
    {
      var found := FindObjectUnderPoint(p);
      if selected.Some? {
        Deselect();
      }
      if found.Some? {
        Flag(found.value);
      } else {
        selected := None;
      }
    }

    /** Flags the shape at position k and makes it the selection. */
    method Flag(k: nat)
      requires Valid() && selected == None && k < |objects|
      modifies this
      ensures Valid()
      ensures selected == Some(old(objects)[k].style.id)
      ensures objects == Restyle(old(objects), old(objects)[k].style.id, NewFlag(true))
      ensures Unflagged(objects) == Unflagged(old(objects))
      ensures tool == old(tool) && isDrawing == old(isDrawing) && draft == old(draft)
      ensures currentPath == old(currentPath) && startPoint == old(startPoint) && nextId == old(nextId)
      ensures strokeColor == old(strokeColor) && fillColor == old(fillColor) && lineWidth == old(lineWidth)
    {
      var before, id := objects, objects[k].style.id;
      objects := Restyle(objects, id, NewFlag(true));
      selected := Some(id);
      RestyleKeepsShapes(before, id, NewFlag(true));
      UnflaggedIgnoresFlag(before, id, true);
      forall i | 0 <= i < |objects|
        ensures objects[i].style.isSelected <==> selected == Some(objects[i].style.id)
      {
        assert before[i].style.id == objects[i].style.id;
      }
      assert objects[k].style.id == id;
    }

    /** `startDrawing`: the select tool selects; the drawing tools start a draft. */
    method StartDrawing(p: Point)
      requires Valid()
      modifies this
      ensures Valid()
      ensures tool == old(tool) && strokeColor == old(strokeColor) && fillColor == old(fillColor)
      ensures lineWidth == old(lineWidth)
      ensures old(tool) == SelectTool ==>
        && selected == IdAt(old(objects), TopmostHit(old(objects), p))
        && Unflagged(objects) == Unflagged(old(objects))
        && isDrawing == old(isDrawing) && draft == old(draft) && currentPath == old(currentPath)
        && startPoint == old(startPoint) && nextId == old(nextId)
      ensures old(tool) != SelectTool ==>
        && objects == old(objects) && selected == old(selected)
        && isDrawing && nextId == old(nextId) + 1
        && currentPath == (if old(tool) == PathTool then [p] else old(currentPath))
        && startPoint == (if old(tool) == PathTool then old(startPoint) else p)
      ensures old(tool) == PathTool ==> draft == Some(Path(old(NewStyle("transparent")), [p]))
      ensures old(tool) == LineTool ==> draft == Some(Line(old(NewStyle("transparent")), p.x, p.y, p.x, p.y))
      ensures old(tool) == RectangleTool ==> draft == Some(RectangleDraft(old(NewStyle(fillColor)), p, p))
      ensures old(tool) == EllipseTool ==> draft == Some(EllipseDraft(old(NewStyle(fillColor)), p, p))
    {
      match tool
      case SelectTool =>
        SelectAt(p);
      case PathTool =>
        currentPath := [p];
        BeginDraft(Path(NewStyle("transparent"), currentPath));
      case LineTool =>
        startPoint := p;
        BeginDraft(Line(NewStyle("transparent"), p.x, p.y, p.x, p.y));
      case RectangleTool =>
        startPoint := p;
        BeginDraft(Rectangle(NewStyle(fillColor), p.x, p.y, 0.0, 0.0));
      case EllipseTool =>
        startPoint := p;
        BeginDraft(Ellipse(NewStyle(fillColor), p.x, p.y, 0.0, 0.0));
    }

    /** Sets `isDrawing` and makes d, which took the next id, the draft (`tempShape = new ...`). */
    method BeginDraft(d: Shape)
      requires Valid() && d.style.id == nextId && !d.style.isSelected && WellFormed(d)
      modifies this
      ensures Valid()
      ensures isDrawing && draft == Some(d) && nextId == old(nextId) + 1
      ensures objects == old(objects) && selected == old(selected) && tool == old(tool)
      ensures currentPath == old(currentPath) && startPoint == old(startPoint)
      ensures strokeColor == old(strokeColor) && fillColor == old(fillColor) && lineWidth == old(lineWidth)
    {
      isDrawing := true;
      draft := Some(d);
      nextId := nextId + 1;
    }

    /**
     * `draw`: while drawing, rebuilds the draft from the anchor and the
     * cursor (a path also records the cursor); does nothing otherwise.
     */
    method Draw(p: Point)
      requires Valid()
      modifies this
      ensures Valid()
      ensures objects == old(objects) && selected == old(selected) && tool == old(tool)
      ensures isDrawing == old(isDrawing) && startPoint == old(startPoint)
      ensures strokeColor == old(strokeColor) && fillColor == old(fillColor) && lineWidth == old(lineWidth)
      ensures !old(isDrawing) || old(tool) == SelectTool ==>
        draft == old(draft) && currentPath == old(currentPath) && nextId == old(nextId)
      ensures old(isDrawing) && old(tool) != SelectTool ==> nextId == old(nextId) + 1
      ensures old(isDrawing) && old(tool) == PathTool ==>
        && currentPath == old(currentPath) + [p]
        && draft == Some(Path(old(NewStyle("transparent")), currentPath))
      ensures old(isDrawing) && old(tool) == LineTool ==>
        && currentPath == old(currentPath)
        && draft == Some(Line(old(NewStyle("transparent")), startPoint.x, startPoint.y, p.x, p.y))
      ensures old(isDrawing) && old(tool) == RectangleTool ==>
        && currentPath == old(currentPath)
        && draft == Some(RectangleDraft(old(NewStyle(fillColor)), startPoint, p))
      ensures old(isDrawing) && old(tool) == EllipseTool ==>
        && currentPath == old(currentPath)
        && draft == Some(EllipseDraft(old(NewStyle(fillColor)), startPoint, p))
    {
      if !isDrawing {
        return;
      }
      match tool
      case SelectTool =>
      case PathTool =>
        currentPath := currentPath + [p];
        BeginDraft(Path(NewStyle("transparent"), currentPath));
      case LineTool =>
        BeginDraft(Line(NewStyle("transparent"), startPoint.x, startPoint.y, p.x, p.y));
      case RectangleTool =>
        BeginDraft(RectangleDraft(NewStyle(fillColor), startPoint, p));
      case EllipseTool =>
        BeginDraft(EllipseDraft(NewStyle(fillColor), startPoint, p));
    }

    /**
     * `stopDrawing`: commits the draft as the new topmost shape and ends the
     * gesture; does nothing when not drawing.
     */
    method StopDrawing()
      requires Valid()
      modifies this
      ensures Valid()
      ensures !old(isDrawing) ==> objects == old(objects) && draft == old(draft) && currentPath == old(currentPath)
      ensures old(isDrawing) ==> objects == old(objects) + [old(draft).value] && draft == None && currentPath == []
      ensures !isDrawing
      ensures selected == old(selected) && tool == old(tool) && startPoint == old(startPoint) && nextId == old(nextId)
      ensures strokeColor == old(strokeColor) && fillColor == old(fillColor) && lineWidth == old(lineWidth)
    {
      if !isDrawing {
        return;
      }
      if draft.Some? {
        var shape := draft.value;
        assert selected.Some? ==> selected.value < shape.style.id by {
          if selected.Some? {
            var k :| 0 <= k < |objects| && objects[k].style.id == selected.value;
          }
        }
        var before := objects;
        objects := objects + [shape];
        draft := None;
        assert forall i :: 0 <= i < |before| ==> objects[i] == before[i];
        assert objects[|before|] == shape;
        assert selected.Some? ==> HasId(objects, selected.value) by {
          if selected.Some? {
            var k :| 0 <= k < |before| && before[k].style.id == selected.value;
            assert objects[k].style.id == selected.value;
          }
        }
      }
      isDrawing := false;
      currentPath := [];
    }

    /** Delete (key or button): removes the selected shape from the list and clears the selection. */
    method DeleteSelected()
      requires Valid()
      modifies this
      ensures Valid()
      ensures old(selected).None? ==> objects == old(objects) && selected == None
      ensures old(selected).Some? ==>
        && IndexOfId(old(objects), old(selected).value).Some?
        && objects == RemoveAt(old(objects), IndexOfId(old(objects), old(selected).value).value)
        && selected == None
      ensures tool == old(tool) && isDrawing == old(isDrawing) && draft == old(draft)
      ensures currentPath == old(currentPath) && startPoint == old(startPoint) && nextId == old(nextId)
      ensures strokeColor == old(strokeColor) && fillColor == old(fillColor) && lineWidth == old(lineWidth)
    {
      if selected.Some? {
        var index := IndexOfId(objects, selected.value);
        if index.Some? {
          var before := objects;
          objects := RemoveAt(objects, index.value);
          selected := None;
          RemoveAtKeepsValid(before, index.value);
          forall i | 0 <= i < |objects|
            ensures !objects[i].style.isSelected
          {
            if i < index.value {
              assert objects[i] == before[i];
            } else {
              assert objects[i] == before[i + 1];
            }
          }
        }
      }
    }

    /** The clear button: empties the list and drops the selection. */
    method Clear()
      requires Valid()
      modifies this
      ensures Valid()
      ensures objects == [] && selected == None
      ensures tool == old(tool) && isDrawing == old(isDrawing) && draft == old(draft)
      ensures currentPath == old(currentPath) && startPoint == old(startPoint) && nextId == old(nextId)
      ensures strokeColor == old(strokeColor) && fillColor == old(fillColor) && lineWidth == old(lineWidth)
    {
      objects := [];
      selected := None;
    }
  }

  // ---------------------------------------------------------------------
  // Properties of the list operations

  /** A style edit keeps every shape's id, kind and geometry, and with them well-formedness. */
  lemma RestyleKeepsShapes(objs: seq<Shape>, id: nat, e: StyleEdit)
    ensures forall i :: 0 <= i < |objs| ==>
      Restyle(objs, id, e)[i] == objs[i].(style := Restyle(objs, id, e)[i].style)
    ensures forall i :: 0 <= i < |objs| ==> Restyle(objs, id, e)[i].style.id == objs[i].style.id
    ensures forall i :: 0 <= i < |objs| ==> WellFormed(objs[i]) ==> WellFormed(Restyle(objs, id, e)[i])
    ensures DistinctIds(objs) ==> DistinctIds(Restyle(objs, id, e))
    ensures forall bound: nat :: IdsBelow(objs, bound) ==> IdsBelow(Restyle(objs, id, e), bound)
    ensures !e.NewFlag? ==> forall sel :: FlagsMatch(objs, sel) ==> FlagsMatch(Restyle(objs, id, e), sel)
  {
  }

  /** Changing the selection flags leaves the flag-free list alone. */
  lemma UnflaggedIgnoresFlag(objs: seq<Shape>, id: nat, flag: bool)
    ensures Unflagged(Restyle(objs, id, NewFlag(flag))) == Unflagged(objs)
  {
  }

  /** With distinct ids, at most one shape carries the selection flag. */
  lemma AtMostOneFlagged(objs: seq<Shape>, selected: Option<nat>)
    requires DistinctIds(objs) && FlagsMatch(objs, selected)
    ensures forall i, j ::
      (0 <= i < |objs| && 0 <= j < |objs| && objs[i].style.isSelected && objs[j].style.isSelected) ==> i == j
  {
  }

  /** Removing one shape keeps the invariants of the list. */
  lemma RemoveAtKeepsValid(objs: seq<Shape>, i: nat)
    requires i < |objs| && DistinctIds(objs)
    ensures DistinctIds(RemoveAt(objs, i))
    ensures forall bound: nat :: IdsBelow(objs, bound) ==> IdsBelow(RemoveAt(objs, i), bound)
    ensures (forall k :: 0 <= k < |objs| ==> WellFormed(objs[k])) ==>
      forall k :: 0 <= k < |objs| - 1 ==> WellFormed(RemoveAt(objs, i)[k])
  {
    var r := RemoveAt(objs, i);
    forall a, b | 0 <= a < b < |r|
      ensures r[a].style.id != r[b].style.id
    {
      var a', b' := if a < i then a else a + 1, if b < i then b else b + 1;
      assert r[a] == objs[a'] && r[b] == objs[b'];
    }
  }

  /**
   * Deleting by id removes exactly the shape with that id: the other shapes
   * all remain, and no shape with that id is left.
   */
  lemma DeleteRemovesExactlyTheId(objs: seq<Shape>, id: nat)
    requires DistinctIds(objs) && HasId(objs, id)
    ensures IndexOfId(objs, id).Some?
    ensures var r := RemoveAt(objs, IndexOfId(objs, id).value);
      && |r| == |objs| - 1
      && !HasId(r, id)
      && forall s :: s in objs && s.style.id != id ==> s in r
  {
    var i := IndexOfId(objs, id).value;
    var r := RemoveAt(objs, i);
    forall k | 0 <= k < |r|
      ensures r[k].style.id != id
    {
      if k < i {
        assert r[k] == objs[k];
      } else {
        assert r[k] == objs[k + 1];
      }
    }
    forall s | s in objs && s.style.id != id
      ensures s in r
    {
      var k :| 0 <= k < |objs| && objs[k] == s;
      if k < i {
        assert r[k] == s;
      } else {
        assert k != i;
        assert r[k - 1] == s;
      }
    }
  }

  /** The highest position whose shape is hit is the topmost hit. */
  lemma TopmostHitIsHighestHit(objs: seq<Shape>, p: Point, k: nat)
    requires k < |objs| && Hits(objs[k], p)
    requires forall j :: k < j < |objs| ==> !Hits(objs[j], p)
    ensures TopmostHit(objs, p) == Some(k)
  {
  }

  /**
   * When the selection is the id at an optional position (as `SelectAt`
   * leaves it, with the position of the topmost hit), exactly the shape at
   * that position carries the flag.
   */
  lemma SelectionFlagsExactlyPosition(objs: seq<Shape>, k: Option<nat>, selected: Option<nat>)
    requires k.Some? ==> k.value < |objs|
    requires DistinctIds(objs) && FlagsMatch(objs, selected) && selected == IdAt(objs, k)
    ensures forall i :: 0 <= i < |objs| ==> (objs[i].style.isSelected <==> k == Some(i))
  {
  }

  // ---------------------------------------------------------------------
  // Properties of the drafts

  /** The first rectangle and ellipse drafts are the degenerate gesture from p to p. */
  lemma FirstDraftIsDegenerateGesture(style: Style, p: Point)
    ensures RectangleDraft(style, p, p) == Rectangle(style, p.x, p.y, 0.0, 0.0)
    ensures EllipseDraft(style, p, p) == Ellipse(style, p.x, p.y, 0.0, 0.0)
  {
  }

  /** The anchor and the cursor are opposite corners of the rectangle draft. */
  lemma RectangleDraftCorners(style: Style, start: Point, cur: Point)
    ensures start in DefiningPoints(RectangleDraft(style, start, cur))
    ensures cur in DefiningPoints(RectangleDraft(style, start, cur))
  {
    var r := RectangleDraft(style, start, cur);
    var pts := DefiningPoints(r);
    if start.x <= cur.x {
      if start.y <= cur.y {
        assert pts[0] == start && pts[3] == cur;
      } else {
        assert pts[2] == start && pts[1] == cur;
      }
    } else {
      if start.y <= cur.y {
        assert pts[1] == start && pts[2] == cur;
      } else {
        assert pts[3] == start && pts[0] == cur;
      }
    }
  }

  /** With a non-negative stroke width, the rectangle draft is hit at the anchor and at the cursor. */
  lemma RectangleDraftHitsGesturePoints(style: Style, start: Point, cur: Point)
    requires style.strokeWidth >= 0.0
    ensures Hits(RectangleDraft(style, start, cur), start)
    ensures Hits(RectangleDraft(style, start, cur), cur)
  {
    var r := RectangleDraft(style, start, cur);
    RectangleHitsOnOutline(style, r.x, r.y, r.width, r.height, start);
    RectangleHitsOnOutline(style, r.x, r.y, r.width, r.height, cur);
  }

  /** With a non-negative stroke width, the ellipse draft's bounds contain the cursor. */
  lemma EllipseDraftBoundsContainCursor(style: Style, start: Point, cur: Point)
    requires style.strokeWidth >= 0.0
    ensures Contains(Bounds(EllipseDraft(style, start, cur)).value, cur)
  {
  }
}
