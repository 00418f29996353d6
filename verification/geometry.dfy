/** Plane geometry shared by the two shape visualizers: points, axis-aligned boxes, the transparent hit
    strips drawn along the edges, and the horizontal/vertical commands the SVG outlines are written in. */
module Geometry {

  /** A point in SVG user coordinates (the y axis points down). */
  datatype Point = Point(x: real, y: real)

  /** An axis-aligned rectangle: an SVG `<rect>` or a `viewBox`, given by its corner and its size. */
  datatype Box = Box(x: real, y: real, w: real, h: real)

  /** A transparent `<rect>` the user clicks or drags; `boundKey` is the dimension key it edits. */
  datatype Strip = Strip(id: string, rect: Box, boundKey: string)

  /** One command of an outline path after its initial `M0 0`: `H` moves to an absolute x, `V` to an absolute y. */
  datatype PathCmd = H(x: real) | V(y: real)

  const Origin := Point(0.0, 0.0)

  /** Thickness of every hit strip. */
  const StripThickness := 10.0

  /** `Math.max` of two lengths. */
  function Max(a: real, b: real): (r: real)
    ensures r >= a && r >= b && (r == a || r == b)
  {
    if a >= b then a else b
  }

  function Apply(p: Point, c: PathCmd): (q: Point)
    ensures q.x == p.x || q.y == p.y
  {
    match c
    case H(x) => Point(x, p.y)
    case V(y) => Point(p.x, y)
  }

  /** The vertices a path visits when it starts at `p` and follows `cmds`; the closing `Z` adds no vertex. */
  function Trace(p: Point, cmds: seq<PathCmd>): (r: seq<Point>)
    ensures |r| == |cmds| + 1 && r[0] == p
    decreases |cmds|
  {
    if cmds == [] then [p] else [p] + Trace(Apply(p, cmds[0]), cmds[1..])
  }

  /** Each vertex of a trace is the previous one moved by the corresponding command. */
  lemma {:induction false} TraceStep(p: Point, cmds: seq<PathCmd>, i: nat)
    requires i < |cmds|
    ensures Trace(p, cmds)[i + 1] == Apply(Trace(p, cmds)[i], cmds[i])
    decreases |cmds|
  {
    if i > 0 {
      TraceStep(Apply(p, cmds[0]), cmds[1..], i - 1);
    }
  }

  predicate AxisAligned(p: Point, q: Point) {
    p.x == q.x || p.y == q.y
  }

  /** Every edge a traced path draws (the closing edge aside) is horizontal or vertical. */
  lemma TraceEdgesAxisAligned(p: Point, cmds: seq<PathCmd>)
    ensures forall i :: 0 <= i < |cmds| ==> AxisAligned(Trace(p, cmds)[i], Trace(p, cmds)[i + 1])
  {
    forall i | 0 <= i < |cmds|
      ensures AxisAligned(Trace(p, cmds)[i], Trace(p, cmds)[i + 1])
    {
      TraceStep(p, cmds, i);
    }
  }

  /** A closed polygon all of whose edges, the closing one included, are horizontal or vertical. */
  predicate Rectilinear(poly: seq<Point>) {
    && (forall i :: 0 <= i < |poly| - 1 ==> AxisAligned(poly[i], poly[i + 1]))
    && (|poly| > 0 ==> AxisAligned(poly[|poly| - 1], poly[0]))
  }

  function Cross(p: Point, q: Point): real {
    p.x * q.y - q.x * p.y
  }

  /** Sum of `Cross` over the consecutive pairs of an open chain. */
  function ChainCross(ps: seq<Point>): real
    decreases |ps|
  {
    if |ps| < 2 then 0.0 else Cross(ps[0], ps[1]) + ChainCross(ps[1..])
  }

  /** Twice the signed area of the closed polygon `ps` (shoelace formula); its sign gives the winding. */
  function TwiceSignedArea(ps: seq<Point>): real {
    if ps == [] then 0.0 else ChainCross(ps) + Cross(ps[|ps| - 1], ps[0])
  }

  predicate InBox(p: Point, b: Box) {
    b.x <= p.x <= b.x + b.w && b.y <= p.y <= b.y + b.h
  }

  predicate BoxWithin(inner: Box, outer: Box) {
    outer.x <= inner.x && inner.x + inner.w <= outer.x + outer.w &&
    outer.y <= inner.y && inner.y + inner.h <= outer.y + outer.h
  }

  /** The two boxes share no interior point (they may touch along an edge). */
  predicate Disjoint(a: Box, b: Box) {
    a.x + a.w <= b.x || b.x + b.w <= a.x || a.y + a.h <= b.y || b.y + b.h <= a.y
  }
}
