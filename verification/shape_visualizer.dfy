/** The rectangle and L-shape visualizer: the outline path, the clickable edge strips and the padded
    viewBox, as functions of a shape name and a dimension map. */
module ShapeVisualizer {
  import opened Wrappers
  import opened Geometry

  /** A dimension map as the application stores it: key name to length. */
  type Dims = map<string, real>

  datatype RectDims = RectDims(width: real, length: real)
  datatype LDims = LDims(width1: real, length1: real, width2: real, length2: real)

  /** What the component renders: the U-shape is handed to its own visualizer, every other shape name
      gets an SVG whose parts are `None` when a dimension they read is absent. */
  datatype Drawing =
    | DelegatedToUShape
    | Svg(viewBox: Option<Box>, outline: Option<seq<Point>>, sides: Option<seq<Strip>>)

  const Padding := 30.0

  predicate NonNegRect(d: RectDims) { d.width >= 0.0 && d.length >= 0.0 }
  predicate NonNegL(d: LDims) { d.width1 >= 0.0 && d.length1 >= 0.0 && d.width2 >= 0.0 && d.length2 >= 0.0 }

  // ---------------------------------------------------------------- outlines

  /** The rectangle path `M0 0 V<length> H<width> V0 Z`: traced down the left edge first. */
  function RectPath(d: RectDims): seq<PathCmd> {
    [V(d.length), H(d.width), V(0.0)]
  }

  function RectOutline(d: RectDims): (r: seq<Point>)
    ensures |r| == 4
  {
    Trace(Origin, RectPath(d))
  }

  /** The L-shape path `M0 0 V<length1> H<width2> V<length2> H<width1> V0 Z`. */
  function LPath(d: LDims): seq<PathCmd> {
    [V(d.length1), H(d.width2), V(d.length2), H(d.width1), V(0.0)]
  }

  function LOutline(d: LDims): (r: seq<Point>)
    ensures |r| == 6
  {
    Trace(Origin, LPath(d))
  }

  lemma RectOutlineVertices(d: RectDims)
    ensures RectOutline(d) == [Point(0.0, 0.0), Point(0.0, d.length), Point(d.width, d.length), Point(d.width, 0.0)]
  {
    var r := RectOutline(d);
    TraceStep(Origin, RectPath(d), 0);
    TraceStep(Origin, RectPath(d), 1);
    TraceStep(Origin, RectPath(d), 2);
  }

  lemma LOutlineVertices(d: LDims)
    ensures LOutline(d) == [Point(0.0, 0.0), Point(0.0, d.length1), Point(d.width2, d.length1),
                            Point(d.width2, d.length2), Point(d.width1, d.length2), Point(d.width1, 0.0)]
  {
    TraceStep(Origin, LPath(d), 0);
    TraceStep(Origin, LPath(d), 1);
    TraceStep(Origin, LPath(d), 2);
    TraceStep(Origin, LPath(d), 3);
    TraceStep(Origin, LPath(d), 4);
  }

  /** Both outlines are closed rectilinear polygons: the closing `Z` edge is vertical too. */
  lemma OutlinesRectilinear(r: RectDims, l: LDims)
    ensures Rectilinear(RectOutline(r)) && Rectilinear(LOutline(l))
  {
    RectOutlineVertices(r);
    LOutlineVertices(l);
  }

  /** The rectangle encloses width x length; with positive dimensions its signed area is negative. */
  lemma RectEnclosedArea(d: RectDims)
    ensures TwiceSignedArea(RectOutline(d)) == -2.0 * d.width * d.length
    ensures d.width > 0.0 && d.length > 0.0 ==> TwiceSignedArea(RectOutline(d)) < 0.0
  {
    RectOutlineVertices(d);
    var ps := RectOutline(d);
    assert ChainCross(ps[3..]) == 0.0;
    assert ChainCross(ps[2..]) == Cross(ps[2], ps[3]);
    assert ChainCross(ps[1..]) == Cross(ps[1], ps[2]) + Cross(ps[2], ps[3]);
  }

  /** When length2 <= length1 the L outline encloses a width1 x length2 block and a
      width2 x (length1 - length2) block below it, and for positive dimensions it winds like the
      rectangle. The formula holds for all dimensions, but with length2 > length1 its sign depends on
      them. */
  lemma LEnclosedArea(d: LDims)
    ensures TwiceSignedArea(LOutline(d))
         == -2.0 * (d.width1 * d.length2 + d.width2 * (d.length1 - d.length2))
    ensures d.width1 > 0.0 && d.length2 > 0.0 && d.width2 >= 0.0 && d.length1 >= d.length2 ==>
      TwiceSignedArea(LOutline(d)) < 0.0
  {
    LOutlineVertices(d);
    var ps := LOutline(d);
    assert ChainCross(ps[5..]) == 0.0;
    assert ChainCross(ps[4..]) == Cross(ps[4], ps[5]);
    assert ChainCross(ps[3..]) == Cross(ps[3], ps[4]) + Cross(ps[4], ps[5]);
    assert ChainCross(ps[2..]) == Cross(ps[2], ps[3]) + ChainCross(ps[3..]);
    assert ChainCross(ps[1..]) == Cross(ps[1], ps[2]) + ChainCross(ps[2..]);
    if d.width1 > 0.0 && d.length2 > 0.0 && d.width2 >= 0.0 && d.length1 >= d.length2 {
      assert d.width1 * d.length2 > 0.0;
      assert d.width2 * (d.length1 - d.length2) >= 0.0;
    }
  }

  // ---------------------------------------------------------------- edge strips

  /** `renderSides` for the rectangle: one strip per edge. */
  function RectSides(d: RectDims): (r: seq<Strip>)
    ensures |r| == 4
    ensures [r[0].id, r[1].id, r[2].id, r[3].id] == ["side-top", "side-bottom", "side-left", "side-right"]
    ensures r[0].boundKey == r[1].boundKey == "length" && r[2].boundKey == r[3].boundKey == "width"
  {
    [ Strip("side-top", Box(0.0, -StripThickness, d.width, StripThickness), "length"),
      Strip("side-bottom", Box(0.0, d.length, d.width, StripThickness), "length"),
      Strip("side-left", Box(-StripThickness, 0.0, StripThickness, d.length), "width"),
      Strip("side-right", Box(d.width, 0.0, StripThickness, d.length), "width") ]
  }

  /** `renderSides` for the L-shape: one strip per dimension key. */
  function LSides(d: LDims): (r: seq<Strip>)
    ensures |r| == 4
    ensures [r[0].id, r[1].id, r[2].id, r[3].id] == ["side-top1", "side-right1", "side-bottom1", "side-left2"]
    ensures [r[0].boundKey, r[1].boundKey, r[2].boundKey, r[3].boundKey] == ["width1", "length1", "width2", "length2"]
  {
    [ Strip("side-top1", Box(0.0, -StripThickness, d.width1, StripThickness), "width1"),
      Strip("side-right1", Box(d.width1, 0.0, StripThickness, d.length1), "length1"),
      Strip("side-bottom1", Box(0.0, d.length1, d.width2, StripThickness), "width2"),
      Strip("side-left2", Box(d.width1 + d.width2, d.length1 - d.length2, StripThickness, d.length2), "length2") ]
  }

  /** Each rectangle strip is a band one strip thick lying just outside one outline edge and spanning
      it: top and bottom bands along the horizontal edges (bound to "length"), left and right bands along
      the vertical edges (bound to "width"). */
  lemma RectSidesHugOutline(d: RectDims)
    ensures var s := RectSides(d); var o := RectOutline(d);
      && s[0].rect.h == StripThickness && s[1].rect.h == StripThickness
      && s[2].rect.w == StripThickness && s[3].rect.w == StripThickness
      && s[0].rect.y + s[0].rect.h == o[0].y && s[0].rect.x == o[0].x && s[0].rect.x + s[0].rect.w == o[3].x
      && s[1].rect.y == o[1].y && s[1].rect.x == o[1].x && s[1].rect.x + s[1].rect.w == o[2].x
      && s[2].rect.x + s[2].rect.w == o[0].x && s[2].rect.y == o[0].y && s[2].rect.y + s[2].rect.h == o[1].y
      && s[3].rect.x == o[3].x && s[3].rect.y == o[3].y && s[3].rect.y + s[3].rect.h == o[2].y
      && s[0].boundKey == s[1].boundKey == "length" && s[2].boundKey == s[3].boundKey == "width"
  {
    RectOutlineVertices(d);
  }

  /** Where the L-shape strips lie against its outline. `side-top1` is a band above the top edge from the
      origin to (width1, 0). `side-bottom1` is a band below the bottom edge from (0, length1) to
      (width2, length1). `side-right1` stands right of x = width1 from y = 0 down to length1, although
      the outline's edge at x = width1 only reaches down to length2. `side-left2` stands right of
      x = width1 + width2, ending at y = length1 and length2 tall: its top is at length1 - length2, which
      is above the origin exactly when length2 > length1. */
  lemma LSidesBindings(d: LDims)
    ensures var s := LSides(d); var o := LOutline(d);
      && s[0].rect == Box(o[0].x, o[0].y - StripThickness, o[5].x - o[0].x, StripThickness)
      && s[1].rect == Box(o[5].x, o[5].y, StripThickness, o[1].y)
      && o[4].x == o[5].x && o[4].y == d.length2
      && s[2].rect == Box(o[1].x, o[1].y, o[2].x - o[1].x, StripThickness)
      && s[3].rect == Box(d.width1 + d.width2, d.length1 - d.length2, StripThickness, d.length2)
      && s[3].rect.y + s[3].rect.h == o[1].y
      && (s[3].rect.y < 0.0 <==> d.length2 > d.length1)
  {
    LOutlineVertices(d);
  }

  /** For positive widths the `side-left2` strip lies strictly to the right of every
      vertex of the L outline: it is not next to any outline edge. */
  lemma LLeft2DetachedFromOutline(d: LDims)
    requires d.width1 > 0.0 && d.width2 > 0.0
    ensures forall p :: p in LOutline(d) ==> p.x < LSides(d)[3].rect.x
  {
    LOutlineVertices(d);
  }

  // ---------------------------------------------------------------- extent and viewBox

  /** The rectangle's viewBox: its extent, width x length, with the padding on every side. */
  function RectViewBox(d: RectDims): (r: Box)
    ensures r.x == -Padding && r.y == -Padding
    ensures r.x + r.w - Padding == d.width && r.y + r.h - Padding == d.length
  {
    Box(-Padding, -Padding, d.width + 2.0 * Padding, d.length + 2.0 * Padding)
  }

  /** The L-shape's viewBox: its extent, (width1 + width2) x the larger length, with the padding on every
      side. */
  function LViewBox(d: LDims): (r: Box)
    ensures r.x == -Padding && r.y == -Padding
    ensures r.x + r.w - Padding == d.width1 + d.width2
    ensures r.y + r.h - Padding >= d.length1 && r.y + r.h - Padding >= d.length2
    ensures r.y + r.h - Padding == d.length1 || r.y + r.h - Padding == d.length2
  {
    Box(-Padding, -Padding, d.width1 + d.width2 + 2.0 * Padding, Max(d.length1, d.length2) + 2.0 * Padding)
  }

  /** For non-negative dimensions the rectangle's outline and all four strips fit in its viewBox. */
  lemma RectFitsViewBox(d: RectDims)
    requires NonNegRect(d)
    ensures forall p :: p in RectOutline(d) ==> InBox(p, RectViewBox(d))
    ensures forall s :: s in RectSides(d) ==> BoxWithin(s.rect, RectViewBox(d))
  {
    RectOutlineVertices(d);
  }

  /** For non-negative dimensions the L outline fits in its viewBox, and so do the strips as long as
      `side-left2` does not start more than the padding above the origin (length2 <= length1 + 30). */
  lemma LFitsViewBox(d: LDims)
    requires NonNegL(d)
    ensures forall p :: p in LOutline(d) ==> InBox(p, LViewBox(d))
    ensures (forall s :: s in LSides(d) ==> BoxWithin(s.rect, LViewBox(d))) <==> d.length2 <= d.length1 + Padding
  {
    LOutlineVertices(d);
    var s := LSides(d)[3];
    assert s in LSides(d);
  }

  // ---------------------------------------------------------------- the component over a dimension map

  function RectDimsOf(d: Dims): (r: Option<RectDims>)
    ensures r.Some? <==> "width" in d && "length" in d
    ensures r.Some? ==> r.value == RectDims(d["width"], d["length"])
  {
    if "width" in d && "length" in d then Some(RectDims(d["width"], d["length"])) else None
  }

  function LDimsOf(d: Dims): (r: Option<LDims>)
    ensures r.Some? <==> "width1" in d && "length1" in d && "width2" in d && "length2" in d
    ensures r.Some? ==> r.value == LDims(d["width1"], d["length1"], d["width2"], d["length2"])
  {
    if "width1" in d && "length1" in d && "width2" in d && "length2" in d
    then Some(LDims(d["width1"], d["length1"], d["width2"], d["length2"]))
    else None
  }

  /** `getShapePath`: the outline for "rectangle" and "L-shape", the empty path for any other name. */
  function ShapePath(shape: string, d: Dims): (r: Option<seq<Point>>)
    ensures shape != "rectangle" && shape != "L-shape" ==> r == Some([])
    ensures shape == "rectangle" ==> r.Some? == RectDimsOf(d).Some? && (r.Some? ==> |r.value| == 4)
    ensures shape == "L-shape" ==> r.Some? == LDimsOf(d).Some? && (r.Some? ==> |r.value| == 6)
    ensures shape == "rectangle" && r.Some? ==> r.value == RectOutline(RectDimsOf(d).value)
    ensures shape == "L-shape" && r.Some? ==> r.value == LOutline(LDimsOf(d).value)
  {
    if shape == "rectangle" then
      match RectDimsOf(d)
      case Some(rd) => Some(RectOutline(rd))
      case None => None
    else if shape == "L-shape" then
      match LDimsOf(d)
      case Some(ld) => Some(LOutline(ld))
      case None => None
    else Some([])
  }

  /** `renderSides`: four strips for "rectangle" and "L-shape", none for any other name. */
  function RenderSides(shape: string, d: Dims): (r: Option<seq<Strip>>)
    ensures shape != "rectangle" && shape != "L-shape" ==> r == Some([])
    ensures shape == "rectangle" ==> r.Some? == RectDimsOf(d).Some? && (r.Some? ==> |r.value| == 4)
    ensures shape == "L-shape" ==> r.Some? == LDimsOf(d).Some? && (r.Some? ==> |r.value| == 4)
    ensures shape == "rectangle" && r.Some? ==> r.value == RectSides(RectDimsOf(d).value)
    ensures shape == "L-shape" && r.Some? ==> r.value == LSides(LDimsOf(d).value)
  {
    if shape == "rectangle" then
      match RectDimsOf(d)
      case Some(rd) => Some(RectSides(rd))
      case None => None
    else if shape == "L-shape" then
      match LDimsOf(d)
      case Some(ld) => Some(LSides(ld))
      case None => None
    else Some([])
  }

  /** `svgWidth`: width1 + width2 for the L-shape, width for every other name. */
  function SvgWidth(shape: string, d: Dims): (r: Option<real>)
    ensures shape == "L-shape" ==> (r.Some? <==> "width1" in d && "width2" in d)
    ensures shape == "L-shape" && r.Some? ==> r.value == d["width1"] + d["width2"]
    ensures shape != "L-shape" ==> (r.Some? <==> "width" in d) && (r.Some? ==> r.value == d["width"])
  {
    if shape == "L-shape" then
      (if "width1" in d && "width2" in d then Some(d["width1"] + d["width2"]) else None)
    else if "width" in d then Some(d["width"]) else None
  }

  /** `svgHeight`: the larger of length1 and length2 for the L-shape, length for every other name. */
  function SvgHeight(shape: string, d: Dims): (r: Option<real>)
    ensures shape == "L-shape" ==> (r.Some? <==> "length1" in d && "length2" in d)
    ensures shape == "L-shape" && r.Some? ==>
      r.value >= d["length1"] && r.value >= d["length2"] && (r.value == d["length1"] || r.value == d["length2"])
    ensures shape != "L-shape" ==> (r.Some? <==> "length" in d) && (r.Some? ==> r.value == d["length"])
  {
    if shape == "L-shape" then
      (if "length1" in d && "length2" in d then Some(Max(d["length1"], d["length2"])) else None)
    else if "length" in d then Some(d["length"]) else None
  }

  /** The viewBox `-30 -30 (svgWidth + 60) (svgHeight + 60)`. */
  function ViewBox(shape: string, d: Dims): (r: Option<Box>)
    ensures r.Some? <==> SvgWidth(shape, d).Some? && SvgHeight(shape, d).Some?
    ensures r.Some? ==> r.value.x == -Padding && r.value.y == -Padding
    ensures r.Some? ==> r.value.w == SvgWidth(shape, d).value + 2.0 * Padding
    ensures r.Some? ==> r.value.h == SvgHeight(shape, d).value + 2.0 * Padding
    ensures shape == "rectangle" && RectDimsOf(d).Some? ==> r == Some(RectViewBox(RectDimsOf(d).value))
    ensures shape == "L-shape" && LDimsOf(d).Some? ==> r == Some(LViewBox(LDimsOf(d).value))
  {
    match (SvgWidth(shape, d), SvgHeight(shape, d))
    case (Some(w), Some(h)) => Some(Box(-Padding, -Padding, w + 2.0 * Padding, h + 2.0 * Padding))
    case _ => None
  }

  /** The component: the U-shape is delegated, every other name draws the three parts above. */
  function Render(shape: string, d: Dims): (r: Drawing)
    ensures r.DelegatedToUShape? <==> shape == "U-shape"
    ensures r.Svg? ==> r.viewBox == ViewBox(shape, d) && r.outline == ShapePath(shape, d) && r.sides == RenderSides(shape, d)
  {
    if shape == "U-shape" then DelegatedToUShape
    else Svg(ViewBox(shape, d), ShapePath(shape, d), RenderSides(shape, d))
  }

  /** The U-shape ignores the dimension map it is given; an unknown name draws nothing clickable. */
  lemma RenderDispatch(shape: string, d: Dims, d': Dims)
    ensures shape == "U-shape" ==> Render(shape, d) == Render(shape, d') == DelegatedToUShape
    ensures shape !in {"U-shape", "rectangle", "L-shape"} ==>
      Render(shape, d).outline == Some([]) && Render(shape, d).sides == Some([])
  {
  }

  /** Through the component: whenever the dimensions a rectangle or L-shape reads are present and
      non-negative, every outline vertex lies inside the drawn viewBox. */
  lemma OutlineInsideViewBox(shape: string, d: Dims)
    requires shape == "rectangle" || shape == "L-shape"
    requires ShapePath(shape, d).Some? && ViewBox(shape, d).Some?
    requires forall k :: k in d ==> d[k] >= 0.0
    ensures forall p :: p in ShapePath(shape, d).value ==> InBox(p, ViewBox(shape, d).value)
  {
    if shape == "rectangle" {
      RectFitsViewBox(RectDimsOf(d).value);
    } else {
      LFitsViewBox(LDimsOf(d).value);
    }
  }
}
