# DrawingApp stroke capture, modelled in Dafny

This project models `DrawView`, the drawing surface of the DrawingApp
Android application. The view keeps:

- an ordered list of completed strokes,
- one in-progress path,
- a brush made of a color (a Kotlin `Int`) and a size (a `Float`).

Touch events and the public setters change that state:

- DOWN adds a move-to to the current path.
- MOVE adds a line-to and requests a redraw.
- UP copies the current path into a new last stroke. The stroke is stamped
  with the brush in effect at that moment, and the current path is then reset.
- `clearCanvas` empties the stroke list and the current path and keeps the brush.
- `onDraw` draws every stroke in insertion order, each with its own frozen
  color and width. It then draws the in-progress path with the live brush.

Files:

- `drawview.dfy` (module `DrawView`): the state as an immutable `View`
  value. Each Kotlin member that mutates it becomes a pure function from the
  old view to the new one. `OnDraw` is a method with the same loop as the
  source. It produces the sequence of `drawPath` calls as `DrawCommand`s.
- `history.dfy` (module `History`): a session is a sequence of `Event`s,
  one per touch or setter call, folded over a starting view by `Run`. The
  lemmas here cover whole sessions: the stroke list is append-only, the brush
  follows the last setter call, old strokes are never redrawn differently,
  and a clear forgets everything but the brush.
- `gestures.dfy` (module `Gestures`): complete DOWN/MOVE*/UP gestures,
  sequences of gestures drawn with different brushes, the effect of an UP on
  the drawn frame, and two concrete scenarios.

Modelling choices:

- Colors and `MotionEvent` actions are the subset type `Int32` (Kotlin `Int`).
- `Color.BLACK` is 0xFF000000 read as a signed `Int`, so it is -16777216.
- The actions handled are `ACTION_DOWN` = 0, `ACTION_UP` = 1 and
  `ACTION_MOVE` = 2. The handler compares the raw action value, so any other
  value falls through and leaves the view unchanged. That includes
  pointer-indexed actions.
- Coordinates and widths are `real`. The source only stores them and never
  computes with them.

Behaviour worth noting:

- The touch handler keeps no gesture state. An UP on an empty path appends
  a stroke whose path is empty. An empty path means nothing was added since
  creation, the last UP or the last clear. A MOVE with no DOWN before it
  still appends a line-to.
- `ACTION_CANCEL` (3) is not handled. A cancelled partial path stays in the
  current path and becomes the head of the next stroke.
- There is no opacity anywhere in `DrawView` or `Stroke`.
- Neither setter clamps or rejects a value.

`DrawView.Frame` is the reference definition of one frame. It lists every
stored stroke as a draw call with that stroke's path, color and width, in
insertion order, and then the current path with the live brush. `OnDraw` is
proved to produce exactly this list, and the lemmas about rendering are
stated against it.

## Model

| member | source | states |
|---|---|---|
| DrawView.OnTouchEvent | app/src/main/java/com/example/drawingapp/DrawView.kt:44-65 | The event is always consumed. Only MOVE requests a redraw. The brush never changes. DOWN appends exactly MoveTo(x,y) and MOVE appends exactly LineTo(x,y), both without touching the strokes. UP adds exactly one stroke, with no precondition on earlier events: the new last stroke is the pre-UP path with the live color and size, every earlier stroke is kept in place, and the path is left empty. Any other action changes nothing. |
| DrawView.SetBrushColor | app/src/main/java/com/example/drawingapp/DrawView.kt:68-70 | Any color is accepted without clamping. The strokes, the current path and the size are unchanged. |
| DrawView.SetBrushSize | app/src/main/java/com/example/drawingapp/DrawView.kt:73-75 | Any size is accepted, including zero and negative values. The strokes, the current path and the color are unchanged. |
| DrawView.ClearCanvas | app/src/main/java/com/example/drawingapp/DrawView.kt:78-82 | Afterwards there are no strokes and the current path is empty. Brush color and size survive. |
| DrawView.StrokeCommands | app/src/main/java/com/example/drawingapp/DrawView.kt:32-36 | Each stored stroke gives exactly one draw call, in list order. The call carries that stroke's own path, color and width. |
| DrawView.OnDraw | app/src/main/java/com/example/drawingapp/DrawView.kt:28-42 | A frame makes one draw call per stroke in insertion order, each with the stroke's own frozen color and width. One final call draws the in-progress path with the live brush. The paint setters are taken to store their argument, so the paint's earlier contents never reach a draw call. Afterwards the paint holds the live brush. |
| DrawView.FrameDeterminesView | app/src/main/java/com/example/drawingapp/DrawView.kt:28-42 | Drawing loses nothing. Two views that draw the same frame have the same strokes, the same current path and the same brush. |
| History.StrokesAreAppendOnly | app/src/main/java/com/example/drawingapp/DrawView.kt:57-60 | In any session without a clear, every earlier stroke stays at its index. The stroke count grows by exactly the number of UP events, whatever events come before each UP. |
| History.ColorFollowsLastSetter | app/src/main/java/com/example/drawingapp/DrawView.kt:68-70 | After any session the brush color is the argument of the last setBrushColor call. With no such call it is the starting color, so touches and clears never change it. |
| History.SizeFollowsLastSetter | app/src/main/java/com/example/drawingapp/DrawView.kt:73-75 | After any session the brush size is the argument of the last setBrushSize call. With no such call it is the starting size. |
| History.OldStrokesDrawUnchanged | app/src/main/java/com/example/drawingapp/DrawView.kt:86-90 | Stroke attributes are frozen. In any session without a clear, later brush changes, gestures or stray UPs never change how an already-stored stroke is drawn. |
| History.ClearForgetsHistory | app/src/main/java/com/example/drawingapp/DrawView.kt:78-82 | Two sessions that reach a clear with the same brush behave identically afterwards. Strokes and partial paths from before the clear leave no trace. |
| History.FrameAfterClear | app/src/main/java/com/example/drawingapp/DrawView.kt:78-82 | Right after a clear, the frame is a single empty path drawn with the live brush. |
| Gestures.MovesExtendPath | app/src/main/java/com/example/drawingapp/DrawView.kt:53-56 | A run of MOVE events appends one line-to per point, in order. Nothing else changes. |
| Gestures.GestureAppendsOneStroke | app/src/main/java/com/example/drawingapp/DrawView.kt:44-65 | A full gesture runs DOWN, then any number of MOVEs, then UP, from any starting view. It appends exactly one stroke, stamped with the live brush. The stroke's path is the path left over from before the gesture, then a move-to the DOWN point, then line-tos through the MOVE points in order. The UP point is not recorded. The path ends empty and earlier strokes are kept. |
| Gestures.CancelKeepsPartialPath | app/src/main/java/com/example/drawingapp/DrawView.kt:48-62 | CANCEL is not handled. So DOWN at p, MOVE to q, CANCEL, then a full gesture g appends one stroke: [MoveTo(p), LineTo(q)] followed by g's own path. |
| Gestures.SketchesFreezeTheirBrush | app/src/main/java/com/example/drawingapp/DrawView.kt:57-60 | Take gestures each drawn after its own color and size choice, from any starting view. N of them append exactly N strokes in order, and every earlier stroke is kept. Each stroke carries its own gesture's path and the brush chosen for it, whatever is chosen later. A leftover path from before the first gesture heads the first new stroke. |
| Gestures.SpuriousUpRecordsEmptyStroke | app/src/main/java/com/example/drawingapp/DrawView.kt:57-60 | An UP on an empty path still appends one stroke. That stroke's path is empty and it carries the live brush. An empty path means nothing was added since creation, the last UP or the last clear. |
| Gestures.UpKeepsPicture | app/src/main/java/com/example/drawingapp/DrawView.kt:57-61 | The frame after an UP is the frame before it, plus one empty path drawn with the live brush. So the UP branch needs no redraw. |
| Gestures.InitialFrameIsEmptyBlackPath | app/src/main/java/com/example/drawingapp/DrawView.kt:15-19 | A new view has no strokes and an empty path. It draws a single empty path in black (0xFF000000) at width 5. |
| Gestures.RedStrokeScenario | app/src/main/java/com/example/drawingapp/DrawView.kt:44-65 | The brush is red at width 8. DOWN at (10,10), MOVE to (20,10) and (30,10), then UP at (30,10). The result is exactly one red, width-8 stroke with the three-point path. |
| Gestures.RecolorKeepsEarlierStroke | app/src/main/java/com/example/drawingapp/DrawView.kt:59 | Draw stroke A, switch color, then draw stroke B. A keeps its own color and B gets the new one. |

## Left out

- MainActivity.kt as a whole: it is UI wiring. The seek bars and the color-picker dialog only forward values to the setters modelled here.
- Brush opacity: MainActivity calls `setBrushOpacity`, but `DrawView` defines no such member and `Stroke` has no opacity field, so there is no behaviour to model.
- DrawView.OnDraw: `paint.strokeWidth = …` is modelled as storing its argument. On Android the paint keeps its previous width when given a negative one, so a stroke stored with a negative width is drawn with whatever width the paint held before. The model does not show this platform behaviour.
- Pixels: `Canvas`/`Paint` rasterisation, anti-aliasing and the paint style. A frame is modelled only as its ordered list of `drawPath` calls. Painting over happens in that order.
- `invalidate()` scheduling: only whether a touch event asks for a redraw is recorded. `clearCanvas` always asks and the setters never do; there is no flag for those.
- Float behaviour (NaN, rounding): coordinates and widths are reals that are only stored.
- `MotionEvent` details beyond the action and the x/y of the event: batched historical points, pointer indices and multi-touch.
- `android.graphics.Path` geometry: how a line-to without a move-to is drawn (from the origin), and how a lone move-to renders. A path is modelled as its list of segments.
- Background images and the grayscale filter: neither appears in the drawing surface's code.
