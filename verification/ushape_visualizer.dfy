/** The U-shape visualizer: its own dimension state, the 8-vertex outline, the three drag handles, the
    viewBox, and the mouse-drag protocol that resizes one arm per gesture. */
module UShapeVisualizer {
  import opened Geometry

  /** The component's dimension state; it takes no props, so these are the only U-shape dimensions drawn. */
  datatype UDims = UDims(width: real, lengthTop: real, lengthLeft: real, lengthRight: real)

  /** What one `mousedown` on a handle captures: the handle's key, the pointer position and a snapshot of
      the dimensions at that moment (the baseline of the gesture). */
  datatype Gesture = Gesture(side: string, startX: real, startY: real, start: UDims)

  /** The component state together with the gestures whose `mousemove`/`mouseup` listeners are
      registered on the document. No gesture registered is the idle state. */
  datatype Editor = Editor(dims: UDims, active: seq<Gesture>)

  /** Pointer events: a `mousedown` on the handle bound to `side`, a `mousemove` and a `mouseup` on the document. */
  datatype Event = MouseDown(side: string, x: real, y: real) | MouseMove(x: real, y: real) | MouseUp

  const InitialDims := UDims(25.0, 60.0, 60.0, 60.0)

  /** The floor every dragged length is clamped to. */
  const MinLength := 10.0

  predicate IsSide(side: string) {
    side == "lengthTop" || side == "lengthLeft" || side == "lengthRight"
  }

  predicate NonNeg(d: UDims) {
    d.width >= 0.0 && d.lengthTop >= 0.0 && d.lengthLeft >= 0.0 && d.lengthRight >= 0.0
  }

  /** The state every reachable `UDims` is in: the width is never edited, every length is at least the floor. */
  predicate Floored(d: UDims) {
    d.width == InitialDims.width && d.lengthTop >= MinLength && d.lengthLeft >= MinLength && d.lengthRight >= MinLength
  }

  // ---------------------------------------------------------------- outline, handles, viewBox

  /** The path `M0 0 H<lengthTop> V<lengthLeft> H<lengthTop+width> V<lengthLeft+lengthRight> H0 V<lengthLeft> H<width> Z`. */
  function UPath(d: UDims): seq<PathCmd> {
    [H(d.lengthTop), V(d.lengthLeft), H(d.lengthTop + d.width), V(d.lengthLeft + d.lengthRight),
     H(0.0), V(d.lengthLeft), H(d.width)]
  }

  function UOutline(d: UDims): (r: seq<Point>)
    ensures |r| == 8
  {
    Trace(Origin, UPath(d))
  }

  lemma UOutlineVertices(d: UDims)
    ensures UOutline(d) ==
      [Point(0.0, 0.0), Point(d.lengthTop, 0.0), Point(d.lengthTop, d.lengthLeft),
       Point(d.lengthTop + d.width, d.lengthLeft), Point(d.lengthTop + d.width, d.lengthLeft + d.lengthRight),
       Point(0.0, d.lengthLeft + d.lengthRight), Point(0.0, d.lengthLeft), Point(d.width, d.lengthLeft)]
  {
    var cs := UPath(d);
    TraceStep(Origin, cs, 0); TraceStep(Origin, cs, 1); TraceStep(Origin, cs, 2); TraceStep(Origin, cs, 3);
    TraceStep(Origin, cs, 4); TraceStep(Origin, cs, 5); TraceStep(Origin, cs, 6);
  }

  /** Seven of the eight edges are horizontal or vertical, but the closing `Z` edge runs diagonally from
      (width, lengthLeft) back to the origin whenever both are non-zero. */
  lemma UClosingEdgeDiagonal(d: UDims)
    ensures forall i :: 0 <= i < 7 ==> AxisAligned(UOutline(d)[i], UOutline(d)[i + 1])
    ensures Rectilinear(UOutline(d)) <==> d.width == 0.0 || d.lengthLeft == 0.0
  {
    TraceEdgesAxisAligned(Origin, UPath(d));
    UOutlineVertices(d);
  }

  /** `renderDragHandles`: the top handle above the top bar, the left handle left of the left arm, and the
      right handle covering the lower right block; each is bound to the key it drags. The three `<rect>`s
      carry no id or key, so "top", "left" and "right" are labels of this model only. */
  function DragHandles(d: UDims): (r: seq<Strip>)
    ensures |r| == 3 && r[0].boundKey == "lengthTop" && r[1].boundKey == "lengthLeft" && r[2].boundKey == "lengthRight"
  {
    [ Strip("top", Box(0.0, -StripThickness, d.lengthTop, StripThickness), "lengthTop"),
      Strip("left", Box(-StripThickness, 0.0, StripThickness, d.lengthLeft), "lengthLeft"),
      Strip("right", Box(d.lengthTop, d.lengthLeft, d.width, d.lengthRight), "lengthRight") ]
  }

  /** The top handle is a strip just above the first outline edge; the right handle is the box between
      the outline vertices (lengthTop, lengthLeft) and (lengthTop + width, lengthLeft + lengthRight); the
      left handle is a strip left of x = 0 from the origin down to lengthLeft. */
  lemma HandlesAlongOutline(d: UDims)
    ensures var h := DragHandles(d); var o := UOutline(d);
      && h[0].rect.x == o[0].x && h[0].rect.x + h[0].rect.w == o[1].x
      && h[0].rect.y + h[0].rect.h == o[0].y == o[1].y && h[0].rect.h == StripThickness
      && h[1].rect.x + h[1].rect.w == o[0].x && h[1].rect.y == o[0].y && h[1].rect.y + h[1].rect.h == o[6].y
      && h[1].rect.w == StripThickness
      && Point(h[2].rect.x, h[2].rect.y) == o[2]
      && Point(h[2].rect.x + h[2].rect.w, h[2].rect.y + h[2].rect.h) == o[4]
  {
    UOutlineVertices(d);
  }

  /** The viewBox as written: `0 0 (lengthTop + width) (lengthLeft + lengthRight)`, with no padding. */
  function ViewBox(d: UDims): (r: Box)
    ensures Point(r.x, r.y) == UOutline(d)[0]
    ensures Point(r.x + r.w, r.y + r.h) == UOutline(d)[4]
  {
    UOutlineVertices(d);
    Box(0.0, 0.0, d.lengthTop + d.width, d.lengthLeft + d.lengthRight)
  }

  /** For non-negative dimensions the whole outline and the right handle fit in the viewBox. */
  lemma UOutlineInsideViewBox(d: UDims)
    requires NonNeg(d)
    ensures forall p :: p in UOutline(d) ==> InBox(p, ViewBox(d))
    ensures BoxWithin(DragHandles(d)[2].rect, ViewBox(d))
  {
    UOutlineVertices(d);
  }

  /** The top and left handles lie entirely outside the unpadded viewBox (they only touch its border),
      so on the drawn surface nothing of them can be hit. */
  lemma TopAndLeftHandlesOutsideViewBox(d: UDims)
    ensures Disjoint(DragHandles(d)[0].rect, ViewBox(d)) && Disjoint(DragHandles(d)[1].rect, ViewBox(d))
  {
  }

  /** A viewBox padded by the handle thickness on every side. */
  function PaddedViewBox(d: UDims): (r: Box)
    ensures r.x == ViewBox(d).x - StripThickness && r.y == ViewBox(d).y - StripThickness
    ensures r.w == ViewBox(d).w + 2.0 * StripThickness && r.h == ViewBox(d).h + 2.0 * StripThickness
  {
    Box(-StripThickness, -StripThickness, d.lengthTop + d.width + 2.0 * StripThickness,
        d.lengthLeft + d.lengthRight + 2.0 * StripThickness)
  }

  /** With the padded viewBox, for non-negative dimensions, the outline and all three handles are inside. */
  lemma HandlesInsidePaddedViewBox(d: UDims)
    requires NonNeg(d)
    ensures forall p :: p in UOutline(d) ==> InBox(p, PaddedViewBox(d))
    ensures forall s :: s in DragHandles(d) ==> BoxWithin(s.rect, PaddedViewBox(d))
  {
    UOutlineVertices(d);
  }

  // ---------------------------------------------------------------- dragging

  /** What one gesture's `onDrag` listener does on a move to (x, y): the x-delta (for "lengthTop") or the
      y-delta (for the two arms), halved, is added to the baseline of the dragged key and clamped to the
      floor; the other keys keep their current values. */
  function Dragged(cur: UDims, g: Gesture, x: real, y: real): (r: UDims)
    ensures r.width == cur.width
    ensures !IsSide(g.side) ==> r == cur
    ensures g.side == "lengthTop" ==>
      r.lengthTop >= MinLength && r.lengthLeft == cur.lengthLeft && r.lengthRight == cur.lengthRight
    ensures g.side == "lengthLeft" ==>
      r.lengthLeft >= MinLength && r.lengthTop == cur.lengthTop && r.lengthRight == cur.lengthRight
    ensures g.side == "lengthRight" ==>
      r.lengthRight >= MinLength && r.lengthTop == cur.lengthTop && r.lengthLeft == cur.lengthLeft
  {
    var dx := (x - g.startX) / 2.0;
    var dy := (y - g.startY) / 2.0;
    if g.side == "lengthTop" then cur.(lengthTop := Max(MinLength, g.start.lengthTop + dx))
    else if g.side == "lengthLeft" then cur.(lengthLeft := Max(MinLength, g.start.lengthLeft + dy))
    else if g.side == "lengthRight" then cur.(lengthRight := Max(MinLength, g.start.lengthRight + dy))
    else cur
  }

  /** The dragged value is the baseline plus half the pointer delta along the drag axis, or the floor. */
  lemma DraggedValue(cur: UDims, g: Gesture, x: real, y: real)
    ensures g.side == "lengthTop" ==>
      Dragged(cur, g, x, y).lengthTop == Max(MinLength, g.start.lengthTop + (x - g.startX) / 2.0)
    ensures g.side == "lengthLeft" ==>
      Dragged(cur, g, x, y).lengthLeft == Max(MinLength, g.start.lengthLeft + (y - g.startY) / 2.0)
    ensures g.side == "lengthRight" ==>
      Dragged(cur, g, x, y).lengthRight == Max(MinLength, g.start.lengthRight + (y - g.startY) / 2.0)
  {
  }

  /** A right-arm gesture started at (0, 0) on a baseline of 60: moving to (0, 20) gives 70, moving to
      (0, -200) is clamped to 10. */
  lemma DragRightArmExample()
    ensures var g := Gesture("lengthRight", 0.0, 0.0, InitialDims);
      && Dragged(InitialDims, g, 0.0, 20.0).lengthRight == 70.0
      && Dragged(InitialDims, g, 0.0, -200.0).lengthRight == 10.0
  {
  }

  /** For a fixed baseline, moving further along the drag axis never gives a smaller value. */
  lemma DragMonotonic(cur: UDims, g: Gesture, x1: real, y1: real, x2: real, y2: real)
    ensures g.side == "lengthTop" && x1 <= x2 ==> Dragged(cur, g, x1, y1).lengthTop <= Dragged(cur, g, x2, y2).lengthTop
    ensures g.side == "lengthLeft" && y1 <= y2 ==> Dragged(cur, g, x1, y1).lengthLeft <= Dragged(cur, g, x2, y2).lengthLeft
    ensures g.side == "lengthRight" && y1 <= y2 ==> Dragged(cur, g, x1, y1).lengthRight <= Dragged(cur, g, x2, y2).lengthRight
  {
  }

  /** One `mousemove` runs the `onDrag` listener of every registered gesture, in registration order. */
  function ApplyAll(cur: UDims, gs: seq<Gesture>, x: real, y: real): (r: UDims)
    ensures r.width == cur.width
    decreases |gs|
  {
    if gs == [] then cur else ApplyAll(Dragged(cur, gs[0], x, y), gs[1..], x, y)
  }

  /** The keys a list of gestures can change. */
  function Touched(gs: seq<Gesture>): set<string> {
    set g | g in gs && IsSide(g.side) :: g.side
  }

  /** `a` and `b` agree on the width and on every length whose key is not in `ks`. */
  predicate AgreeOutside(a: UDims, b: UDims, ks: set<string>) {
    && a.width == b.width
    && ("lengthTop" !in ks ==> a.lengthTop == b.lengthTop)
    && ("lengthLeft" !in ks ==> a.lengthLeft == b.lengthLeft)
    && ("lengthRight" !in ks ==> a.lengthRight == b.lengthRight)
  }

  /** A move changes nothing but the keys of the registered gestures. */
  lemma {:induction false} ApplyAllFrame(cur: UDims, gs: seq<Gesture>, x: real, y: real)
    ensures AgreeOutside(ApplyAll(cur, gs, x, y), cur, Touched(gs))
    decreases |gs|
  {
    if gs != [] {
      ApplyAllFrame(Dragged(cur, gs[0], x, y), gs[1..], x, y);
      assert Touched(gs[1..]) <= Touched(gs) by {
        forall k | k in Touched(gs[1..]) ensures k in Touched(gs) {
          var g :| g in gs[1..] && IsSide(g.side) && g.side == k;
          assert g in gs;
        }
      }
      if IsSide(gs[0].side) { assert gs[0].side in Touched(gs); }
    }
  }

  /** The result of a move depends on the current state only through the keys nobody drags. */
  lemma {:induction false} ApplyAllOverwrites(a: UDims, b: UDims, gs: seq<Gesture>, x: real, y: real)
    requires AgreeOutside(a, b, Touched(gs))
    ensures ApplyAll(a, gs, x, y) == ApplyAll(b, gs, x, y)
    decreases |gs|
  {
    if gs != [] {
      var g := gs[0];
      assert Touched(gs) == Touched(gs[1..]) + (if IsSide(g.side) then {g.side} else {}) by {
        assert gs == [g] + gs[1..];
      }
      ApplyAllOverwrites(Dragged(a, g, x, y), Dragged(b, g, x, y), gs[1..], x, y);
    }
  }

  /** Every move is measured from the gesture baselines, so a later move erases an earlier one. */
  lemma MoveAfterMove(cur: UDims, gs: seq<Gesture>, x1: real, y1: real, x2: real, y2: real)
    ensures ApplyAll(ApplyAll(cur, gs, x1, y1), gs, x2, y2) == ApplyAll(cur, gs, x2, y2)
  {
    ApplyAllFrame(cur, gs, x1, y1);
    ApplyAllOverwrites(ApplyAll(cur, gs, x1, y1), cur, gs, x2, y2);
  }

  /** One pointer event. A `mousedown` registers one more gesture on top of those already registered and
      leaves the dimensions alone; a `mousemove` changes only keys some registered gesture drags; a
      `mouseup` removes every gesture. */
  function Step(e: Editor, ev: Event): (r: Editor)
    ensures r.dims.width == e.dims.width
    ensures ev.MouseDown? ==>
      r.dims == e.dims && r.active == e.active + [Gesture(ev.side, ev.x, ev.y, e.dims)]
    ensures ev.MouseMove? ==> r.active == e.active && AgreeOutside(r.dims, e.dims, Touched(e.active))
    ensures ev.MouseMove? && e.active == [] ==> r == e
    ensures ev.MouseUp? ==> r == Editor(e.dims, [])
  {
    match ev
    case MouseDown(side, x, y) => e.(active := e.active + [Gesture(side, x, y, e.dims)])
    case MouseMove(x, y) =>
      ApplyAllFrame(e.dims, e.active, x, y);
      e.(dims := ApplyAll(e.dims, e.active, x, y))
    case MouseUp => e.(active := [])
  }

  /** A sequence of pointer events, in order. The width never changes, and a sequence ending in
      `mouseup` leaves no gesture registered. */
  function Run(e: Editor, evs: seq<Event>): (r: Editor)
    ensures r.dims.width == e.dims.width
    ensures evs != [] && evs[|evs| - 1].MouseUp? ==> r.active == []
    decreases |evs|
  {
    if evs == [] then e else Run(Step(e, evs[0]), evs[1..])
  }

  predicate AllMoves(evs: seq<Event>) {
    forall i :: 0 <= i < |evs| ==> evs[i].MouseMove?
  }

  /** Clamp floor: from a floored state, no sequence of pointer events produces a length below 10 or
      changes the width. */
  lemma {:induction false} RunKeepsFloor(e: Editor, evs: seq<Event>)
    requires Floored(e.dims)
    ensures Floored(Run(e, evs).dims)
    decreases |evs|
  {
    if evs != [] {
      var e' := Step(e, evs[0]);
      if evs[0].MouseMove? {
        ApplyAllFloored(e.dims, e.active, evs[0].x, evs[0].y);
      }
      RunKeepsFloor(e', evs[1..]);
    }
  }

  lemma {:induction false} ApplyAllFloored(cur: UDims, gs: seq<Gesture>, x: real, y: real)
    requires Floored(cur)
    ensures Floored(ApplyAll(cur, gs, x, y))
    decreases |gs|
  {
    if gs != [] {
      ApplyAllFloored(Dragged(cur, gs[0], x, y), gs[1..], x, y);
    }
  }

  /** Replay independence: a burst of moves leaves the dimensions exactly as its last move alone would. */
  lemma {:induction false} MovesCollapseToLast(e: Editor, evs: seq<Event>)
    requires AllMoves(evs) && evs != []
    ensures Run(e, evs) == Step(e, evs[|evs| - 1])
    decreases |evs|
  {
    var ev := evs[0];
    if |evs| == 1 {
      assert Run(e, evs) == Run(Step(e, ev), []);
    } else {
      MovesCollapseToLast(Step(e, ev), evs[1..]);
      var last := evs[|evs| - 1];
      assert last == evs[1..][|evs[1..]| - 1];
      MoveAfterMove(e.dims, e.active, ev.x, ev.y, last.x, last.y);
    }
  }

  /** After `mouseup` no listener is left, so further moves change nothing. */
  lemma {:induction false} MovesAfterMouseUpIgnored(e: Editor, evs: seq<Event>)
    requires AllMoves(evs)
    ensures Run(Step(e, MouseUp), evs) == Step(e, MouseUp)
    decreases |evs|
  {
    if evs != [] {
      assert Step(Step(e, MouseUp), evs[0]) == Step(e, MouseUp);
      MovesAfterMouseUpIgnored(e, evs[1..]);
    }
  }

  /** The component instance: `dimensions` and the listeners its gestures registered on the document. */
  class UShapeEditor {
    var dims: UDims
    var active: seq<Gesture>

    ghost function Model(): Editor
      reads this
    {
      Editor(dims, active)
    }

    ghost predicate Valid()
      reads this
    {
      Floored(dims)
    }

    constructor ()
      ensures Valid() && dims == InitialDims && active == []
    {
      dims := InitialDims;
      active := [];
    }

    /** `handleDrag`: snapshot the dimensions and register this gesture's listeners. */
    method BeginDrag(side: string, x: real, y: real)
      requires Valid()
      modifies this
      ensures Valid() && Model() == Step(old(Model()), MouseDown(side, x, y))
      ensures dims == old(dims) && active == old(active) + [Gesture(side, x, y, old(dims))]
    {
      active := active + [Gesture(side, x, y, dims)];
    }

    /** A document `mousemove`: every registered `onDrag` listener runs. */
    method Move(x: real, y: real)
      requires Valid()
      modifies this
      ensures Valid() && Model() == Step(old(Model()), MouseMove(x, y))
      ensures active == old(active)
      ensures old(active) == [] ==> dims == old(dims)
      ensures |old(active)| == 1 ==> dims == Dragged(old(dims), old(active)[0], x, y)
    {
      ApplyAllFloored(dims, active, x, y);
      if |active| == 1 {
        assert ApplyAll(dims, active, x, y) == ApplyAll(Dragged(dims, active[0], x, y), [], x, y) by {
          assert active[1..] == [];
        }
      }
      dims := ApplyAll(dims, active, x, y);
    }

    /** A document `mouseup`: every registered `onStopDrag` removes its gesture's listeners. */
    method EndDrag()
      requires Valid()
      modifies this
      ensures Valid() && Model() == Step(old(Model()), MouseUp)
      ensures dims == old(dims) && active == []
    {
      active := [];
    }
  }
}
