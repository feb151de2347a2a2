/** Sequences of calls into a `DrawView`. Every way the view can change —
    a touch event or one of the three public mutators — is one `Event`, and a
    session is the left fold of those events over a starting view. The lemmas
    here are about what a whole session does to the stroke list, the brush
    and the rendered frame. */
module History {
  import opened DrawView

  /** One call into the view, in arrival order. */
  datatype Event =
    | Touch(e: MotionEvent)
    | SetColor(color: Int32)
    | SetSize(size: real)
    | Clear

  function Apply(v: View, ev: Event): View
  {
    match ev
    case Touch(e) => OnTouchEvent(v, e).view
    case SetColor(c) => SetBrushColor(v, c)
    case SetSize(s) => SetBrushSize(v, s)
    case Clear => ClearCanvas(v)
  }

  /** The view after processing `log` from `v`, one event at a time. */
  function Run(v: View, log: seq<Event>): View
    decreases |log|
  {
    if |log| == 0 then v else Apply(Run(v, log[..|log| - 1]), log[|log| - 1])
  }

  predicate IsUp(ev: Event)
  {
    ev.Touch? && ev.e.action == ACTION_UP
  }

  /** The number of UP touch events in `log`. */
  function CountUps(log: seq<Event>): nat
  {
    if |log| == 0 then 0
    else CountUps(log[..|log| - 1]) + (if IsUp(log[|log| - 1]) then 1 else 0)
  }

  predicate ClearFree(log: seq<Event>)
  {
    forall i :: 0 <= i < |log| ==> !log[i].Clear?
  }

  /** Processing two logs one after the other is processing their concatenation. */
  lemma {:induction false} RunAppend(v: View, a: seq<Event>, b: seq<Event>)
    ensures Run(v, a + b) == Run(Run(v, a), b)
    decreases |b|
  {
    if |b| == 0 {
      assert a + b == a;
    } else {
      var b' := b[..|b| - 1];
      assert (a + b)[..|a + b| - 1] == a + b';
      RunAppend(v, a, b');
    }
  }

  /** Without a clear, the stroke list only grows at its end: every stroke
      present before the session is still there at the same index, and one
      stroke is added per UP event, whatever came before it. */
  lemma {:induction false} StrokesAreAppendOnly(v: View, log: seq<Event>)
    requires ClearFree(log)
    ensures |Run(v, log).strokes| == |v.strokes| + CountUps(log)
    ensures Run(v, log).strokes[..|v.strokes|] == v.strokes
    decreases |log|
  {
    if |log| > 0 {
      var prefix := log[..|log| - 1];
      assert ClearFree(prefix) by {
        forall i | 0 <= i < |prefix| ensures !prefix[i].Clear? {
          assert prefix[i] == log[i];
        }
      }
      StrokesAreAppendOnly(v, prefix);
      var w := Run(v, prefix);
      var ev := log[|log| - 1];
      assert !ev.Clear?;
      if ev.Touch? {
        var r := OnTouchEvent(w, ev.e);
        if ev.e.action == ACTION_UP {
          assert r.view.strokes[..|v.strokes|] == w.strokes[..|v.strokes|];
        }
      }
    }
  }

  /** `j` is the position of the last `setBrushColor` call in `log`. */
  predicate LastColorSetAt(log: seq<Event>, j: int)
  {
    0 <= j < |log| && log[j].SetColor? && forall k :: j < k < |log| ==> !log[k].SetColor?
  }

  /** `j` is the position of the last `setBrushSize` call in `log`. */
  predicate LastSizeSetAt(log: seq<Event>, j: int)
  {
    0 <= j < |log| && log[j].SetSize? && forall k :: j < k < |log| ==> !log[k].SetSize?
  }

  /** The brush color after a session is the one passed to the last
      `setBrushColor` call in it, or the starting color if there was none.
      Touches and clears never touch it. */
  lemma {:induction false} ColorFollowsLastSetter(v: View, log: seq<Event>)
    ensures (forall i :: 0 <= i < |log| ==> !log[i].SetColor?) ==> Run(v, log).brushColor == v.brushColor
    ensures forall j :: LastColorSetAt(log, j) ==> Run(v, log).brushColor == log[j].color
    decreases |log|
  {
    if |log| > 0 {
      var n := |log| - 1;
      var prefix := log[..n];
      ColorFollowsLastSetter(v, prefix);
      forall j | LastColorSetAt(log, j) ensures Run(v, log).brushColor == log[j].color {
        if j < n {
          assert LastColorSetAt(prefix, j);
        }
      }
      if forall i :: 0 <= i < |log| ==> !log[i].SetColor? {
        assert forall i :: 0 <= i < n ==> !prefix[i].SetColor?;
      }
    }
  }

  /** The brush size after a session is the one passed to the last
      `setBrushSize` call in it, or the starting size if there was none. */
  lemma {:induction false} SizeFollowsLastSetter(v: View, log: seq<Event>)
    ensures (forall i :: 0 <= i < |log| ==> !log[i].SetSize?) ==> Run(v, log).brushSize == v.brushSize
    ensures forall j :: LastSizeSetAt(log, j) ==> Run(v, log).brushSize == log[j].size
    decreases |log|
  {
    if |log| > 0 {
      var n := |log| - 1;
      var prefix := log[..n];
      SizeFollowsLastSetter(v, prefix);
      forall j | LastSizeSetAt(log, j) ensures Run(v, log).brushSize == log[j].size {
        if j < n {
          assert LastSizeSetAt(prefix, j);
        }
      }
      if forall i :: 0 <= i < |log| ==> !log[i].SetSize? {
        assert forall i :: 0 <= i < n ==> !prefix[i].SetSize?;
      }
    }
  }

  /** Frozen stroke attributes, as the user sees them: without a clear, no
      later event — a brush change, a new gesture, a stray UP — alters how an
      already stored stroke is drawn. The first `|v.strokes|` draw calls of
      every later frame are exactly those of `v`'s frame. */
  lemma {:induction false} OldStrokesDrawUnchanged(v: View, log: seq<Event>)
    requires ClearFree(log)
    ensures |Frame(Run(v, log))| >= |v.strokes| + 1
    ensures Frame(Run(v, log))[..|v.strokes|] == Frame(v)[..|v.strokes|]
  {
    StrokesAreAppendOnly(v, log);
  }

  /** A clear makes the past irrelevant: two sessions that reach a clear with
      the same brush behave identically from there on, whatever strokes and
      partial path each had accumulated. */
  lemma ClearForgetsHistory(v1: View, a1: seq<Event>, v2: View, a2: seq<Event>, b: seq<Event>)
    requires Run(v1, a1).brushColor == Run(v2, a2).brushColor
    requires Run(v1, a1).brushSize == Run(v2, a2).brushSize
    ensures Run(v1, a1 + [Clear] + b) == Run(v2, a2 + [Clear] + b)
  {
    RunAppend(v1, a1 + [Clear], b);
    RunAppend(v2, a2 + [Clear], b);
    RunAppend(v1, a1, [Clear]);
    RunAppend(v2, a2, [Clear]);
    assert Run(v1, a1 + [Clear]) == Run(v2, a2 + [Clear]);
  }

  /** Right after a clear the frame is a single empty path in the live brush. */
  lemma FrameAfterClear(v: View, log: seq<Event>)
    ensures Frame(Run(v, log + [Clear])) ==
      [DrawCommand([], Run(v, log).brushColor, Run(v, log).brushSize)]
  {
  }
}
