/** Gestures: a DOWN, any number of MOVEs and an UP, as a finger produces
    them. The lemmas here say what one gesture, and a sequence of gestures
    interleaved with brush changes, leave in the stroke list, and what a
    single UP does to the drawn frame. */
module Gestures {
  import opened DrawView
  import opened History

  datatype Point = Point(x: real, y: real)

  /** One finger gesture: where it went down, the points it moved through,
      and where it was lifted. */
  datatype Gesture = Gesture(down: Point, moves: seq<Point>, up: Point)

  /** A gesture drawn after choosing a color and a size. */
  datatype Sketch = Sketch(color: Int32, size: real, gesture: Gesture)

  function TouchAt(action: Int32, p: Point): Event
  {
    Touch(MotionEvent(action, p.x, p.y))
  }

  /** The MOVE events for the points `ps`, in order. */
  function MovesLog(ps: seq<Point>): seq<Event>
  {
    if |ps| == 0 then [] else MovesLog(ps[..|ps| - 1]) + [TouchAt(ACTION_MOVE, ps[|ps| - 1])]
  }

  function GestureLog(g: Gesture): seq<Event>
  {
    [TouchAt(ACTION_DOWN, g.down)] + MovesLog(g.moves) + [TouchAt(ACTION_UP, g.up)]
  }

  /** The path a gesture should leave behind: a move-to its DOWN point, then
      a line-to every MOVE point in order. The UP point is not part of it. */
  function GesturePath(g: Gesture): (p: Path)
  {
    [MoveTo(g.down.x, g.down.y)] + seq(|g.moves|, i requires 0 <= i < |g.moves| => LineTo(g.moves[i].x, g.moves[i].y))
  }

  function SketchLog(sks: seq<Sketch>): seq<Event>
  {
    if |sks| == 0 then []
    else
      var last := sks[|sks| - 1];
      SketchLog(sks[..|sks| - 1]) + [SetColor(last.color), SetSize(last.size)] + GestureLog(last.gesture)
  }

  /** Each MOVE event adds a line-to its point; nothing else changes. */
  lemma {:induction false} MovesExtendPath(v: View, ps: seq<Point>)
    ensures Run(v, MovesLog(ps)) ==
      v.(currentPath := v.currentPath + seq(|ps|, i requires 0 <= i < |ps| => LineTo(ps[i].x, ps[i].y)))
    decreases |ps|
  {
    var lines := seq(|ps|, i requires 0 <= i < |ps| => LineTo(ps[i].x, ps[i].y));
    if |ps| == 0 {
      assert v.currentPath + lines == v.currentPath;
    } else {
      var n := |ps| - 1;
      var prefix := ps[..n];
      var lines' := seq(n, i requires 0 <= i < n => LineTo(prefix[i].x, prefix[i].y));
      MovesExtendPath(v, prefix);
      RunAppend(v, MovesLog(prefix), [TouchAt(ACTION_MOVE, ps[n])]);
      assert lines == lines' + [LineTo(ps[n].x, ps[n].y)];
    }
  }

  /** A complete gesture appends exactly one stroke — the path left over
      from before it (empty after creation, an UP or a clear), then its DOWN
      and MOVE points in order — stamped with the brush in effect, and leaves
      the path empty and the brush as it was. */
  lemma {:induction false} GestureAppendsOneStroke(v: View, g: Gesture)
    ensures Run(v, GestureLog(g)) ==
      v.(strokes := v.strokes + [Stroke(v.currentPath + GesturePath(g), v.brushColor, v.brushSize)],
         currentPath := [])
  {
    var down := [TouchAt(ACTION_DOWN, g.down)];
    var moves := MovesLog(g.moves);
    var up := [TouchAt(ACTION_UP, g.up)];
    var lines := seq(|g.moves|, i requires 0 <= i < |g.moves| => LineTo(g.moves[i].x, g.moves[i].y));
    assert GestureLog(g) == (down + moves) + up;
    RunAppend(v, down + moves, up);
    RunAppend(v, down, moves);
    var w := Run(v, down);
    assert w == v.(currentPath := v.currentPath + [MoveTo(g.down.x, g.down.y)]);
    MovesExtendPath(w, g.moves);
    var u := Run(w, moves);
    assert u == v.(currentPath := (v.currentPath + [MoveTo(g.down.x, g.down.y)]) + lines);
    assert (v.currentPath + [MoveTo(g.down.x, g.down.y)]) + lines == v.currentPath + GesturePath(g);
    assert Run(u, up) == OnTouchEvent(u, MotionEvent(ACTION_UP, g.up.x, g.up.y)).view;
  }

  /** ACTION_CANCEL is not handled, so a cancelled partial path is kept and
      becomes the head of the next stroke: DOWN at p, MOVE to q, CANCEL, then
      a complete gesture g leave one stroke `[MoveTo(p), LineTo(q)]` followed
      by g's own path. */
  lemma CancelKeepsPartialPath(v: View, p: Point, q: Point, c: Point, g: Gesture)
    requires v.currentPath == []
    ensures
      var log := [TouchAt(ACTION_DOWN, p), TouchAt(ACTION_MOVE, q), TouchAt(ACTION_CANCEL, c)] + GestureLog(g);
      Run(v, log).strokes ==
        v.strokes + [Stroke([MoveTo(p.x, p.y), LineTo(q.x, q.y)] + GesturePath(g), v.brushColor, v.brushSize)]
  {
    var pre := [TouchAt(ACTION_DOWN, p), TouchAt(ACTION_MOVE, q), TouchAt(ACTION_CANCEL, c)];
    RunAppend(v, pre, GestureLog(g));
    assert pre[..2][..1] == [TouchAt(ACTION_DOWN, p)];
    assert Run(v, pre[..2][..1]).currentPath == [MoveTo(p.x, p.y)];
    assert Run(v, pre[..2]).currentPath == [MoveTo(p.x, p.y), LineTo(q.x, q.y)];
    var w := Run(v, pre);
    assert w == Run(v, pre[..2]);
    GestureAppendsOneStroke(w, g);
  }

  /** The brush values frozen into each stroke are the ones chosen just
      before its gesture, whatever is chosen afterwards: drawing a sequence of
      sketches appends one stroke per sketch, in order, each with its own
      color, size and path, and keeps every earlier stroke. A path left over
      from before the first sketch becomes the head of its stroke. */
  lemma {:induction false} SketchesFreezeTheirBrush(v: View, sks: seq<Sketch>)
    ensures |sks| > 0 ==> Run(v, SketchLog(sks)).currentPath == []
    ensures |Run(v, SketchLog(sks)).strokes| == |v.strokes| + |sks|
    ensures Run(v, SketchLog(sks)).strokes[..|v.strokes|] == v.strokes
    ensures forall i :: 0 <= i < |sks| ==>
      Run(v, SketchLog(sks)).strokes[|v.strokes| + i] ==
        Stroke((if i == 0 then v.currentPath else []) + GesturePath(sks[i].gesture), sks[i].color, sks[i].size)
    decreases |sks|
  {
    if |sks| > 0 {
      var n := |sks| - 1;
      var prefix := sks[..n];
      var last := sks[n];
      SketchesFreezeTheirBrush(v, prefix);
      var w := Run(v, SketchLog(prefix));
      var brush := [SetColor(last.color), SetSize(last.size)];
      RunAppend(v, SketchLog(prefix) + brush, GestureLog(last.gesture));
      RunAppend(v, SketchLog(prefix), brush);
      RunAppend(w, [SetColor(last.color)], [SetSize(last.size)]);
      var u := Run(w, brush);
      assert u == w.(brushColor := last.color, brushSize := last.size);
      GestureAppendsOneStroke(u, last.gesture);
      var head := if n == 0 then v.currentPath else [];
      assert w.currentPath == head;
      var r := Run(v, SketchLog(sks));
      assert r.strokes == w.strokes + [Stroke(head + GesturePath(last.gesture), last.color, last.size)];
      forall i | 0 <= i < |sks|
        ensures r.strokes[|v.strokes| + i] ==
          Stroke((if i == 0 then v.currentPath else []) + GesturePath(sks[i].gesture), sks[i].color, sks[i].size)
      {
        if i < n {
          assert sks[i] == prefix[i];
        }
      }
    }
  }

  /** An UP on an empty path (nothing added since creation, the last UP or
      the last clear) still records a stroke, with an empty path. */
  lemma {:induction false} SpuriousUpRecordsEmptyStroke(v: View, x: real, y: real)
    requires v.currentPath == []
    ensures |OnTouchEvent(v, MotionEvent(ACTION_UP, x, y)).view.strokes| == |v.strokes| + 1
    ensures OnTouchEvent(v, MotionEvent(ACTION_UP, x, y)).view.strokes[|v.strokes|] ==
      Stroke([], v.brushColor, v.brushSize)
  {
  }

  /** An UP changes nothing that is drawn: the frame after it repeats the
      frame before it, the in-progress path now drawn as the last stroke
      with the same color and width, followed by an empty live path. This is
      why the UP branch can do without `invalidate()`. */
  lemma UpKeepsPicture(v: View, x: real, y: real)
    ensures Frame(OnTouchEvent(v, MotionEvent(ACTION_UP, x, y)).view) ==
      Frame(v) + [DrawCommand([], v.brushColor, v.brushSize)]
  {
  }

  /** A fresh view draws a single empty path in black at width 5. */
  lemma InitialFrameIsEmptyBlackPath()
    ensures Frame(InitialView()) == [DrawCommand([], BLACK, DEFAULT_BRUSH_SIZE)]
  {
  }

  /** `Color.RED`, the ARGB value 0xFFFF0000 read as a signed `Int`. */
  const RED: Int32 := -0x1_0000

  /** A red brush of width 8, a press at (10,10), moves to (20,10) and
      (30,10), and a lift at (30,10) leave exactly one stroke: a three-point
      path in red at width 8. */
  lemma RedStrokeScenario()
    ensures
      var start := SetBrushSize(SetBrushColor(InitialView(), RED), 8.0);
      var g := Gesture(Point(10.0, 10.0), [Point(20.0, 10.0), Point(30.0, 10.0)], Point(30.0, 10.0));
      Run(start, GestureLog(g)).strokes ==
        [Stroke([MoveTo(10.0, 10.0), LineTo(20.0, 10.0), LineTo(30.0, 10.0)], RED, 8.0)]
  {
    var start := SetBrushSize(SetBrushColor(InitialView(), RED), 8.0);
    var g := Gesture(Point(10.0, 10.0), [Point(20.0, 10.0), Point(30.0, 10.0)], Point(30.0, 10.0));
    GestureAppendsOneStroke(start, g);
    assert start.currentPath + GesturePath(g) == GesturePath(g);
    assert GesturePath(g) == [MoveTo(10.0, 10.0), LineTo(20.0, 10.0), LineTo(30.0, 10.0)];
  }

  /** Drawing stroke A in one color, switching color and drawing stroke B
      leaves A with its original color. */
  lemma RecolorKeepsEarlierStroke(a: Sketch, b: Sketch)
    ensures |Run(InitialView(), SketchLog([a, b])).strokes| == 2
    ensures Run(InitialView(), SketchLog([a, b])).strokes[0].color == a.color
    ensures Run(InitialView(), SketchLog([a, b])).strokes[1].color == b.color
  {
    SketchesFreezeTheirBrush(InitialView(), [a, b]);
  }
}
