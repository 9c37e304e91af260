/**
 * The sketch session: the rectangle and line drawing tools, the pure
 * rectangle builder, and the `SketchMode` state machine that selects a tool,
 * dispatches mouse and key events to it and appends what it draws to the
 * current sketch.
 *
 * Mouse positions arrive already projected onto the sketch plane: the
 * screen-to-plane projection is not part of this model. A tool's signals
 * (`rectangleCreated`, `lineCreated`, `drawingCancelled`, `previewUpdated`)
 * are the values its methods return; `SketchMode` handles them in the same
 * call, as the direct signal connections do.
 */
module Sketching {
  import opened Geometry

  /** Each line ends where the next one starts, and the last ends where the first starts. */
  predicate ClosedLoop(lines: seq<SketchLine>)
  {
    && |lines| > 0
    && (forall i :: 0 <= i < |lines| - 1 ==> lines[i].end == lines[i + 1].start)
    && lines[|lines| - 1].end == lines[0].start
  }

  /**
   * The rectangle spanned by two opposite corners, as four lines:
   * bottom, right, top, left, starting from the (min x, min y) corner.
   */
  function CreateRectangleLines(p1: Point2, p2: Point2): (lines: seq<SketchLine>)
    ensures |lines| == 4 && ClosedLoop(lines)
    ensures lines[0].start == Point2(Min(p1.x, p2.x), Min(p1.y, p2.y))
    ensures lines[1].start == Point2(Max(p1.x, p2.x), Min(p1.y, p2.y))
    ensures lines[2].start == Point2(Max(p1.x, p2.x), Max(p1.y, p2.y))
    ensures lines[3].start == Point2(Min(p1.x, p2.x), Max(p1.y, p2.y))
  {
    var bottomLeft := Point2(Min(p1.x, p2.x), Min(p1.y, p2.y));
    var bottomRight := Point2(Max(p1.x, p2.x), Min(p1.y, p2.y));
    var topRight := Point2(Max(p1.x, p2.x), Max(p1.y, p2.y));
    var topLeft := Point2(Min(p1.x, p2.x), Max(p1.y, p2.y));
    [SketchLine(bottomLeft, bottomRight), SketchLine(bottomRight, topRight),
     SketchLine(topRight, topLeft), SketchLine(topLeft, bottomLeft)]
  }

  /** Swapping the two corners gives the same four lines. */
  lemma RectangleIgnoresCornerOrder(p1: Point2, p2: Point2)
    ensures CreateRectangleLines(p1, p2) == CreateRectangleLines(p2, p1)
  {
  }

  /** Both input corners are corners of the rectangle, whatever their order. */
  lemma RectangleSpansCorners(p1: Point2, p2: Point2)
    ensures var lines := CreateRectangleLines(p1, p2);
            (exists i :: 0 <= i < 4 && lines[i].start == p1) && (exists i :: 0 <= i < 4 && lines[i].start == p2)
  {
    var lines := CreateRectangleLines(p1, p2);
    if p1.x <= p2.x && p1.y <= p2.y {
      assert lines[0].start == p1 && lines[2].start == p2;
    } else if p1.x <= p2.x {
      assert lines[3].start == p1 && lines[1].start == p2;
    } else if p1.y <= p2.y {
      assert lines[1].start == p1 && lines[3].start == p2;
    } else {
      assert lines[2].start == p1 && lines[0].start == p2;
    }
  }

  /** The preview is skipped while the corners are within 0.1 of each other on both axes. */
  predicate TooClose(a: Point2, b: Point2)
  {
    Abs(b.x - a.x) < 0.1 && Abs(b.y - a.y) < 0.1
  }

  /** A line is created only when its end points are more than 1e-6 apart (squared: 1e-12). */
  predicate LongEnough(a: Point2, b: Point2)
  {
    DistanceSquared(a, b) > 0.000000000001
  }

  /** Lines as sketch elements, in order. */
  function AsElements(lines: seq<SketchLine>): (elements: seq<SketchElement>)
    ensures |elements| == |lines|
    ensures forall i :: 0 <= i < |lines| ==> elements[i] == LineElement(lines[i])
  {
    if lines == [] then [] else AsElements(lines[..|lines| - 1]) + [LineElement(lines[|lines| - 1])]
  }

  class SketchRectangleTool {
    var isDrawing: bool
    var startPoint: Point2
    var currentPoint: Point2
    /** The preview rectangle. */
    var currentLines: seq<SketchLine>

    /** Outside a drawing there is no preview. */
    ghost predicate Valid()
      reads this
    {
      !isDrawing ==> currentLines == []
    }

    constructor ()
      ensures Valid() && !isDrawing && currentLines == []
    {
      isDrawing := false;
      startPoint := Point2(0.0, 0.0);
      currentPoint := Point2(0.0, 0.0);
      currentLines := [];
    }

    method StartDrawing(p: Point2)
      modifies this
      ensures Valid()
      ensures isDrawing && startPoint == p && currentPoint == p && currentLines == []
    {
      isDrawing := true;
      startPoint := p;
      currentPoint := p;
      currentLines := [];
    }

    /** Returns the new preview, or `None` when no preview is emitted. */
    method UpdateDrawing(p: Point2) returns (preview: Option<seq<SketchLine>>)
      requires Valid()
      modifies this
      ensures Valid()
      ensures !old(isDrawing) ==> preview == None && unchanged(this)
      ensures old(isDrawing) ==>
                && isDrawing && startPoint == old(startPoint) && currentPoint == p
                && (if TooClose(startPoint, p)
                    then preview == None && currentLines == old(currentLines)
                    else preview == Some(currentLines) && currentLines == CreateRectangleLines(startPoint, p))
    {
      if !isDrawing {
        return None;
      }
      currentPoint := p;
      if TooClose(startPoint, currentPoint) {
        return None;
      }
      currentLines := CreateRectangleLines(startPoint, currentPoint);
      preview := Some(currentLines);
    }

    /** Returns the finished rectangle (`rectangleCreated`), or `None` when not drawing. */
    method FinishDrawing(p: Point2) returns (created: Option<seq<SketchLine>>)
      requires Valid()
      modifies this
      ensures Valid() && !isDrawing && currentLines == []
      ensures !old(isDrawing) ==> created == None && unchanged(this)
      ensures old(isDrawing) ==>
                && created == Some(CreateRectangleLines(old(startPoint), p))
                && currentPoint == p && startPoint == old(startPoint)
    {
      if !isDrawing {
        return None;
      }
      currentPoint := p;
      var lines := CreateRectangleLines(startPoint, currentPoint);
      isDrawing := false;
      currentLines := [];
      created := Some(lines);
    }

    /** Returns whether `drawingCancelled` is emitted. */
    method CancelDrawing() returns (cancelled: bool)
      requires Valid()
      modifies this
      ensures Valid() && !isDrawing && currentLines == []
      ensures cancelled == old(isDrawing)
      ensures startPoint == old(startPoint) && currentPoint == old(currentPoint)
    {
      if !isDrawing {
        return false;
      }
      isDrawing := false;
      currentLines := [];
      cancelled := true;
    }

    function IsDrawing(): (drawing: bool)
      reads this
      requires Valid()
      ensures !drawing ==> currentLines == []
    {
      isDrawing
    }

    function GetCurrentRectangle(): (lines: seq<SketchLine>)
      reads this
      requires Valid()
      ensures lines != [] ==> isDrawing
    {
      currentLines
    }
  }

  /** What `SketchLineTool.FinishDrawing` emits. */
  datatype LineSignal = Silent | LineCreated(line: SketchLine) | DrawingCancelled

  class SketchLineTool {
    var isDrawing: bool
    var startPoint: Point2

    constructor ()
      ensures !isDrawing
    {
      isDrawing := false;
      startPoint := Point2(0.0, 0.0);
    }

    method StartDrawing(p: Point2)
      modifies this
      ensures isDrawing && startPoint == p
    {
      startPoint := p;
      isDrawing := true;
    }

    /** The preview line from the start point, or `None` when not drawing. Changes nothing. */
    method UpdateDrawing(p: Point2) returns (preview: Option<SketchLine>)
      ensures preview == if isDrawing then Some(SketchLine(startPoint, p)) else None
    {
      if !isDrawing {
        return None;
      }
      preview := Some(SketchLine(startPoint, p));
    }

    /**
     * Ends the drawing. A line is emitted only when it is long enough;
     * otherwise the drawing reports cancellation.
     */
    method FinishDrawing(p: Point2) returns (signal: LineSignal)
      modifies this
      ensures !isDrawing && startPoint == old(startPoint)
      ensures !old(isDrawing) ==> signal == Silent
      ensures old(isDrawing) ==>
                signal == if LongEnough(startPoint, p) then LineCreated(SketchLine(startPoint, p)) else DrawingCancelled
    {
      if !isDrawing {
        return Silent;
      }
      isDrawing := false;
      if LongEnough(startPoint, p) {
        signal := LineCreated(SketchLine(startPoint, p));
      } else {
        signal := DrawingCancelled;
      }
    }

    /** Returns whether `drawingCancelled` is emitted. */
    method CancelDrawing() returns (cancelled: bool)
      modifies this
      ensures !isDrawing && startPoint == old(startPoint)
      ensures cancelled == old(isDrawing)
    {
      if !isDrawing {
        return false;
      }
      isDrawing := false;
      cancelled := true;
    }

    function IsDrawing(): bool
      reads this
    {
      isDrawing
    }
  }

  /** The selected drawing tool: a single field, so at most one is selected. */
  datatype ActiveTool = NoTool | Rectangle | Line

  class SketchMode {
    /** Whether a viewer was given at construction. */
    const hasViewer: bool
    const rectangleTool: SketchRectangleTool
    const lineTool: SketchLineTool

    var isActive: bool
    var activeTool: ActiveTool
    /** The sketch being drawn: `None` is a null sketch pointer. */
    var currentSketch: Option<seq<SketchElement>>
    /** The face the session is bound to: `None` is a null face. */
    var sketchFace: Option<FaceId>

    /**
     * A session holds a sketch and a face exactly while it is active, and a
     * tool draws only while the session is active and that tool is selected,
     * so at most one tool draws at a time.
     */
    ghost predicate Valid()
      reads this, rectangleTool, lineTool
    {
      && rectangleTool.Valid()
      && (isActive <==> currentSketch.Some?)
      && (isActive <==> sketchFace.Some?)
      && (rectangleTool.isDrawing ==> isActive && activeTool == Rectangle)
      && (lineTool.isDrawing ==> isActive && activeTool == Line)
    }

    /** The tool selection `StopCurrentTool` leaves: reset only when the line tool was drawing. */
    static function ToolAfterStop(tool: ActiveTool, lineDrawing: bool): ActiveTool
    {
      if lineDrawing then NoTool else tool
    }

    constructor (hasViewer: bool)
      ensures Valid() && fresh(rectangleTool) && fresh(lineTool)
      ensures this.hasViewer == hasViewer
      ensures !isActive && activeTool == NoTool && currentSketch == None
    {
      this.hasViewer := hasViewer;
      rectangleTool := new SketchRectangleTool();
      lineTool := new SketchLineTool();
      isActive := false;
      activeTool := NoTool;
      currentSketch := None;
      sketchFace := None;
    }

    function IsInSketchMode(): (active: bool)
      reads this, rectangleTool, lineTool
      requires Valid()
      ensures active <==> currentSketch.Some?
    {
      isActive
    }

    function GetCurrentSketch(): (sketch: Option<seq<SketchElement>>)
      reads this, rectangleTool, lineTool
      requires Valid()
      ensures sketch.Some? <==> isActive
    {
      currentSketch
    }

    function GetSketchFace(): (face: Option<FaceId>)
      reads this, rectangleTool, lineTool
      requires Valid()
      ensures face.Some? <==> isActive
    {
      sketchFace
    }

    /** Cancels whichever tool is drawing; the selection is reset only if the line tool was drawing. */
    method StopCurrentTool()
      requires Valid()
      modifies rectangleTool, lineTool, this
      ensures Valid()
      ensures !rectangleTool.isDrawing && !lineTool.isDrawing
      ensures activeTool == ToolAfterStop(old(activeTool), old(lineTool.isDrawing))
      ensures isActive == old(isActive) && currentSketch == old(currentSketch) && sketchFace == old(sketchFace)
    {
      if rectangleTool.IsDrawing() {
        var _ := rectangleTool.CancelDrawing();
      }
      if lineTool.IsDrawing() {
        var _ := lineTool.CancelDrawing();
        activeTool := NoTool;
      }
    }

    /** Inactive: nothing. Otherwise stops the tools, drops the sketch and the face, and ends inactive. */
    method ExitSketchMode()
      requires Valid()
      modifies this, rectangleTool, lineTool
      ensures Valid() && !isActive && currentSketch == None && sketchFace == None
      ensures !rectangleTool.isDrawing && !lineTool.isDrawing
      ensures !old(isActive) ==> activeTool == old(activeTool)
      ensures old(isActive) ==> activeTool == ToolAfterStop(old(activeTool), old(lineTool.isDrawing))
    {
      if !isActive {
        return;
      }
      StopCurrentTool();
      currentSketch := None;
      sketchFace := None;
      isActive := false;
    }

    /**
     * Leaves an active session first. A null face or a missing viewer fails
     * and leaves the session inactive; success starts a fresh, empty sketch.
     * The tool selection is not reset.
     */
    method EnterSketchMode(face: Option<FaceId>) returns (ok: bool)
      requires Valid()
      modifies this, rectangleTool, lineTool
      ensures Valid()
      ensures ok <==> face.Some? && hasViewer
      ensures ok ==> isActive && currentSketch == Some([]) && sketchFace == face
      ensures !ok ==> !isActive
      ensures !rectangleTool.isDrawing && !lineTool.isDrawing
      ensures activeTool == if old(isActive) then ToolAfterStop(old(activeTool), old(lineTool.isDrawing)) else old(activeTool)
    {
      if isActive {
        ExitSketchMode();
      }
      if face.None? {
        return false;
      }
      if !hasViewer {
        return false;
      }
      sketchFace := face;
      currentSketch := Some([]);
      isActive := true;
      ok := true;
    }

    /** Inactive: nothing. Otherwise stops the current tool and selects the rectangle tool. */
    method StartRectangleTool()
      requires Valid()
      modifies this, rectangleTool, lineTool
      ensures Valid()
      ensures !old(isActive) ==> activeTool == old(activeTool)
      ensures old(isActive) ==> activeTool == Rectangle && !rectangleTool.isDrawing && !lineTool.isDrawing
      ensures isActive == old(isActive) && currentSketch == old(currentSketch) && sketchFace == old(sketchFace)
    {
      if !isActive {
        return;
      }
      StopCurrentTool();
      activeTool := Rectangle;
    }

    /** Inactive: nothing. Otherwise stops the current tool and selects the line tool. */
    method StartLineTool()
      requires Valid()
      modifies this, rectangleTool, lineTool
      ensures Valid()
      ensures !old(isActive) ==> activeTool == old(activeTool)
      ensures old(isActive) ==> activeTool == Line && !rectangleTool.isDrawing && !lineTool.isDrawing
      ensures isActive == old(isActive) && currentSketch == old(currentSketch) && sketchFace == old(sketchFace)
    {
      if !isActive {
        return;
      }
      StopCurrentTool();
      activeTool := Line;
    }

    /** Appends the rectangle's lines, in order; nothing without a current sketch. */
    method OnRectangleCreated(lines: seq<SketchLine>)
      requires Valid()
      modifies this
      ensures Valid()
      ensures currentSketch == if old(currentSketch).None? then None else Some(old(currentSketch).value + AsElements(lines))
      ensures isActive == old(isActive) && activeTool == old(activeTool) && sketchFace == old(sketchFace)
    {
      if currentSketch.None? {
        return;
      }
      var i := 0;
      assert AsElements(lines[..0]) == [];
      assert currentSketch.value + AsElements(lines[..0]) == currentSketch.value;
      while i < |lines|
        invariant 0 <= i <= |lines|
        invariant currentSketch == Some(old(currentSketch).value + AsElements(lines[..i]))
        invariant isActive == old(isActive) && activeTool == old(activeTool) && sketchFace == old(sketchFace)
      {
        assert lines[..i + 1][..i] == lines[..i];
        assert AsElements(lines[..i + 1]) == AsElements(lines[..i]) + [LineElement(lines[i])];
        currentSketch := Some(currentSketch.value + [LineElement(lines[i])]);
        assert currentSketch.value == old(currentSketch).value + (AsElements(lines[..i]) + [LineElement(lines[i])]);
        i := i + 1;
      }
      assert lines[..|lines|] == lines;
    }

    /** Appends one line; nothing without a current sketch. */
    method OnLineCreated(line: SketchLine)
      requires Valid()
      modifies this
      ensures Valid()
      ensures currentSketch == if old(currentSketch).None? then None else Some(old(currentSketch).value + [LineElement(line)])
      ensures isActive == old(isActive) && activeTool == old(activeTool) && sketchFace == old(sketchFace)
    {
      if currentSketch.None? {
        return;
      }
      currentSketch := Some(currentSketch.value + [LineElement(line)]);
    }

    /** A left press starts the selected tool's drawing at `p`. */
    method HandleMousePress(leftButton: bool, p: Point2)
      requires Valid()
      modifies rectangleTool, lineTool
      ensures Valid()
      ensures isActive && leftButton && activeTool == Rectangle ==>
                && rectangleTool.isDrawing && rectangleTool.startPoint == p
                && rectangleTool.currentPoint == p && rectangleTool.currentLines == []
                && unchanged(lineTool)
      ensures isActive && leftButton && activeTool == Line ==>
                lineTool.isDrawing && lineTool.startPoint == p && unchanged(rectangleTool)
      ensures !(isActive && leftButton && activeTool != NoTool) ==> unchanged(rectangleTool) && unchanged(lineTool)
    {
      if !isActive || !leftButton {
        return;
      }
      if activeTool == Rectangle {
        rectangleTool.StartDrawing(p);
      } else if activeTool == Line {
        lineTool.StartDrawing(p);
      }
    }

    /** A move updates the selected tool's preview; no sketch element is created. */
    method HandleMouseMove(p: Point2)
      requires Valid()
      modifies rectangleTool
      ensures Valid()
      ensures rectangleTool.isDrawing == old(rectangleTool.isDrawing)
      ensures !(isActive && activeTool == Rectangle && old(rectangleTool.isDrawing)) ==> unchanged(rectangleTool)
      ensures isActive && activeTool == Rectangle && old(rectangleTool.isDrawing) ==>
                && rectangleTool.startPoint == old(rectangleTool.startPoint) && rectangleTool.currentPoint == p
                && rectangleTool.currentLines ==
                     if TooClose(old(rectangleTool.startPoint), p) then old(rectangleTool.currentLines)
                     else CreateRectangleLines(old(rectangleTool.startPoint), p)
    {
      if !isActive {
        return;
      }
      if activeTool == Rectangle {
        var _ := rectangleTool.UpdateDrawing(p);
      } else if activeTool == Line {
        var _ := lineTool.UpdateDrawing(p);
      }
    }

    /**
     * A left release finishes the selected tool's drawing; what it creates is
     * appended to the current sketch, which therefore only grows.
     */
    method HandleMouseRelease(leftButton: bool, p: Point2)
      requires Valid()
      modifies this, rectangleTool, lineTool
      ensures Valid()
      ensures isActive == old(isActive) && activeTool == old(activeTool) && sketchFace == old(sketchFace)
      ensures isActive && leftButton && activeTool == Rectangle && old(rectangleTool.isDrawing) ==>
                currentSketch.value == old(currentSketch).value + AsElements(CreateRectangleLines(old(rectangleTool.startPoint), p))
      ensures isActive && leftButton && activeTool == Line && old(lineTool.isDrawing) ==>
                currentSketch.value == old(currentSketch).value +
                  (if LongEnough(lineTool.startPoint, p) then [LineElement(SketchLine(lineTool.startPoint, p))] else [])
      ensures isActive && leftButton && activeTool != NoTool ==> !rectangleTool.isDrawing && !lineTool.isDrawing
      ensures !(isActive && leftButton) || activeTool == NoTool ==> currentSketch == old(currentSketch)
      ensures activeTool == Rectangle && !old(rectangleTool.isDrawing) ==> currentSketch == old(currentSketch)
      ensures activeTool == Line && !old(lineTool.isDrawing) ==> currentSketch == old(currentSketch)
      ensures !(isActive && leftButton) ==> unchanged(rectangleTool) && unchanged(lineTool)
      ensures isActive ==> old(currentSketch).value <= currentSketch.value
    {
      if !isActive || !leftButton {
        return;
      }
      if activeTool == Rectangle {
        var created := rectangleTool.FinishDrawing(p);
        if created.Some? {
          OnRectangleCreated(created.value);
        }
      } else if activeTool == Line {
        var signal := lineTool.FinishDrawing(p);
        if signal.LineCreated? {
          OnLineCreated(signal.line);
        }
      }
    }

    /** Escape cancels a rectangle being drawn, and otherwise leaves the session. */
    method HandleKeyPress(escape: bool)
      requires Valid()
      modifies this, rectangleTool, lineTool
      ensures Valid()
      ensures !(old(isActive) && escape) ==> unchanged(this) && unchanged(rectangleTool) && unchanged(lineTool)
      ensures old(isActive) && escape && old(rectangleTool.isDrawing) ==>
                && !rectangleTool.isDrawing && rectangleTool.currentLines == [] && isActive
                && currentSketch == old(currentSketch) && activeTool == old(activeTool)
                && sketchFace == old(sketchFace) && unchanged(lineTool)
      ensures old(isActive) && escape && !old(rectangleTool.isDrawing) ==>
                && !isActive && currentSketch == None && sketchFace == None && !lineTool.isDrawing
                && activeTool == ToolAfterStop(old(activeTool), old(lineTool.isDrawing))
    {
      if !isActive {
        return;
      }
      if escape {
        if rectangleTool.IsDrawing() {
          var _ := rectangleTool.CancelDrawing();
        } else {
          ExitSketchMode();
        }
      }
    }
  }
}
