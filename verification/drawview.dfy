/** A model of the drawing surface `DrawView` of the DrawingApp Android
    application: the stroke list, the in-progress path, the live brush, the
    touch handler, the brush setters, the clear operation and the order in
    which a frame is drawn.

    The view is an immutable value here; every Kotlin member that mutates the
    view becomes a pure function from the old view to the new one. */
module DrawView {

  /** Kotlin `Int`: a 32-bit signed integer. Colors and motion-event actions
      are such values; they are only stored and compared, never computed with. */
  type Int32 = i: int | -0x8000_0000 <= i <= 0x7fff_ffff

  /** `Color.BLACK`, the ARGB value 0xFF000000 read as a signed `Int`. */
  const BLACK: Int32 := -0x0100_0000

  /** The brush width a new view starts with (`5f`). */
  const DEFAULT_BRUSH_SIZE: real := 5.0

  /** The three `MotionEvent` actions the touch handler reacts to. */
  const ACTION_DOWN: Int32 := 0
  const ACTION_UP: Int32 := 1
  const ACTION_MOVE: Int32 := 2

  /** `ACTION_CANCEL`: not handled, so it falls into "every other action". */
  const ACTION_CANCEL: Int32 := 3

  /** One segment of an `android.graphics.Path`: coordinates are floats in the
      source and are only stored, so they are reals here. */
  datatype PathOp = MoveTo(x: real, y: real) | LineTo(x: real, y: real)

  /** A path is the ordered list of segments added to it since its last reset. */
  type Path = seq<PathOp>

  /** A completed stroke: a copy of the path and the brush it was drawn with.
      All fields are `val`s, so a stroke never changes once created. */
  datatype Stroke = Stroke(path: Path, color: Int32, strokeWidth: real)

  /** The touch event as far as the handler reads it. */
  datatype MotionEvent = MotionEvent(action: Int32, x: real, y: real)

  /** The mutable state of a `DrawView`. */
  datatype View = View(
    strokes: seq<Stroke>,
    currentPath: Path,
    brushColor: Int32,
    brushSize: real)

  /** What `onTouchEvent` produces: the new view, the Boolean it returns, and
      whether it asked for a redraw through `invalidate()`. */
  datatype TouchResult = TouchResult(view: View, consumed: bool, invalidated: bool)

  /** The state of the shared `Paint` object that matters for drawing. */
  datatype Paint = Paint(color: Int32, strokeWidth: real)

  /** One `canvas.drawPath` call, with the paint values in effect at the call. */
  datatype DrawCommand = DrawCommand(path: Path, color: Int32, width: real)

  /** The view as constructed: nothing drawn, a black brush of width 5. */
  function InitialView(): View
  {
    View([], [], BLACK, DEFAULT_BRUSH_SIZE)
  }

  /** `onTouchEvent`: DOWN starts a sub-path, MOVE extends it, UP freezes a
      copy of the current path with the live brush into a new last stroke and
      resets the path. No state guards these: UP without DOWN still records a
      (possibly empty) stroke, and MOVE without DOWN still adds a line. Every
      other action leaves the view alone. The event is always consumed. */
  function OnTouchEvent(v: View, e: MotionEvent): (r: TouchResult)
    ensures r.consumed
    ensures r.invalidated <==> e.action == ACTION_MOVE
    ensures r.view.brushColor == v.brushColor && r.view.brushSize == v.brushSize
    ensures e.action == ACTION_DOWN ==>
      r.view.strokes == v.strokes && r.view.currentPath == v.currentPath + [MoveTo(e.x, e.y)]
    ensures e.action == ACTION_MOVE ==>
      r.view.strokes == v.strokes && r.view.currentPath == v.currentPath + [LineTo(e.x, e.y)]
    ensures e.action == ACTION_UP ==>
      && |r.view.strokes| == |v.strokes| + 1
      && r.view.strokes[..|v.strokes|] == v.strokes
      && r.view.strokes[|v.strokes|] == Stroke(v.currentPath, v.brushColor, v.brushSize)
      && r.view.currentPath == []
    ensures e.action !in {ACTION_DOWN, ACTION_MOVE, ACTION_UP} ==> r.view == v
  {
    if e.action == ACTION_DOWN then
      TouchResult(v.(currentPath := v.currentPath + [MoveTo(e.x, e.y)]), true, false)
    else if e.action == ACTION_MOVE then
      TouchResult(v.(currentPath := v.currentPath + [LineTo(e.x, e.y)]), true, true)
    else if e.action == ACTION_UP then
      var frozen := Stroke(v.currentPath, v.brushColor, v.brushSize);
      TouchResult(v.(strokes := v.strokes + [frozen], currentPath := []), true, false)
    else
      TouchResult(v, true, false)
  }

  /** `setBrushColor`: any value is accepted and only the brush color changes. */
  function SetBrushColor(v: View, color: Int32): (r: View)
    ensures r.brushColor == color
    ensures r.strokes == v.strokes && r.currentPath == v.currentPath && r.brushSize == v.brushSize
  {
    v.(brushColor := color)
  }

  /** `setBrushSize`: any value is accepted (no clamping, zero and negative
      widths included) and only the brush size changes. */
  function SetBrushSize(v: View, size: real): (r: View)
    ensures r.brushSize == size
    ensures r.strokes == v.strokes && r.currentPath == v.currentPath && r.brushColor == v.brushColor
  {
    v.(brushSize := size)
  }

  /** `clearCanvas`: forgets every stroke and the in-progress path; the brush
      survives. (It always calls `invalidate()`.) */
  function ClearCanvas(v: View): (r: View)
    ensures r.strokes == [] && r.currentPath == []
    ensures r.brushColor == v.brushColor && r.brushSize == v.brushSize
  {
    v.(strokes := [], currentPath := [])
  }

  /** The draw calls the completed strokes turn into, one per stroke in list
      order, each with that stroke's own frozen color and width. */
  function StrokeCommands(strokes: seq<Stroke>): (cmds: seq<DrawCommand>)
    ensures |cmds| == |strokes|
    ensures forall i :: 0 <= i < |strokes| ==>
      && cmds[i].path == strokes[i].path
      && cmds[i].color == strokes[i].color
      && cmds[i].width == strokes[i].strokeWidth
  {
    if |strokes| == 0 then []
    else
      var last := strokes[|strokes| - 1];
      StrokeCommands(strokes[..|strokes| - 1]) + [DrawCommand(last.path, last.color, last.strokeWidth)]
  }

  /** The sequence of draw calls one frame makes: every stored stroke in
      insertion order (later ones paint over earlier ones), then the
      in-progress path with the live brush. */
  function Frame(v: View): seq<DrawCommand>
  {
    StrokeCommands(v.strokes) + [DrawCommand(v.currentPath, v.brushColor, v.brushSize)]
  }

  /** One `canvas.drawPath(path, paint)` call. */
  function DrawPath(path: Path, paint: Paint): DrawCommand
  {
    DrawCommand(path, paint.color, paint.strokeWidth)
  }

  /** `onDraw`: walks the strokes, loading each one's color and width into
      the shared paint before drawing it, then loads the live brush and
      draws the current path. The paint setters are modelled as storing
      their argument, so whatever the paint held before is never seen by a
      draw call, and afterwards it holds the live brush. */
  method OnDraw(v: View, paint: Paint) returns (cmds: seq<DrawCommand>, paint': Paint)
    ensures |cmds| == |v.strokes| + 1
    ensures forall i :: 0 <= i < |v.strokes| ==>
      cmds[i] == DrawCommand(v.strokes[i].path, v.strokes[i].color, v.strokes[i].strokeWidth)
    ensures cmds[|v.strokes|] == DrawCommand(v.currentPath, v.brushColor, v.brushSize)
    ensures cmds == Frame(v)
    ensures paint' == Paint(v.brushColor, v.brushSize)
  {
    var p := paint;
    cmds := [];
    for i := 0 to |v.strokes|
      invariant |cmds| == i
      invariant forall j :: 0 <= j < i ==>
        cmds[j] == DrawCommand(v.strokes[j].path, v.strokes[j].color, v.strokes[j].strokeWidth)
    {
      var stroke := v.strokes[i];
      p := Paint(stroke.color, stroke.strokeWidth);
      cmds := cmds + [DrawPath(stroke.path, p)];
    }
    p := Paint(v.brushColor, v.brushSize);
    cmds := cmds + [DrawPath(v.currentPath, p)];
    paint' := p;
  }

  /** A frame loses nothing: two views that draw the same frame have the
      same strokes (paths, colors and widths, in order), the same
      in-progress path and the same brush. */
  lemma FrameDeterminesView(v: View, w: View)
    requires Frame(v) == Frame(w)
    ensures v == w
  {
    var n := |v.strokes|;
    assert |w.strokes| == n;
    forall i | 0 <= i < n ensures v.strokes[i] == w.strokes[i] {
      assert Frame(v)[i] == Frame(w)[i];
      assert StrokeCommands(v.strokes)[i] == Frame(v)[i];
      assert StrokeCommands(w.strokes)[i] == Frame(w)[i];
    }
    assert v.strokes == w.strokes;
    assert Frame(v)[n] == Frame(w)[n];
  }
}
