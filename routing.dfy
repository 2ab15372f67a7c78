/** Connection routing between node boxes: which pair of edges a connection joins, and
    where the control points of its cubic curve lie (createConnection, createDataFlowPath). */
module Routing {

  import opened Wrappers

  datatype Point = Point(x: real, y: real)

  /** A box as recorded on a node: top-left corner, width and height. */
  datatype Box = Box(x: real, y: real, width: real, height: real)

  datatype Side = Top | Bottom | Left | Right

  /** A cubic curve "M start C cp1 cp2 end". */
  datatype Curve = Curve(start: Point, cp1: Point, cp2: Point, end: Point)

  function Abs(a: real): real { if a < 0.0 then -a else a }
  function Sign(a: real): real { if a > 0.0 then 1.0 else if a < 0.0 then -1.0 else 0.0 }
  function Min(a: real, b: real): real { if a <= b then a else b }

  /** The midpoint of one edge of a box. */
  function EdgeMid(b: Box, side: Side): Point
  {
    match side
    case Top => Point(b.x + b.width / 2.0, b.y)
    case Bottom => Point(b.x + b.width / 2.0, b.y + b.height)
    case Left => Point(b.x, b.y + b.height / 2.0)
    case Right => Point(b.x + b.width, b.y + b.height / 2.0)
  }

  /** The edge rule, tested in this order: from-box entirely above, entirely below,
      entirely to the left; otherwise (to the right, or overlapping) left edge to right edge. */
  function ChooseSides(from: Box, to: Box): (sides: (Side, Side))
    ensures sides == (Bottom, Top) <==> from.y + from.height < to.y
    ensures sides == (Top, Bottom) <==> !(from.y + from.height < to.y) && from.y > to.y + to.height
    ensures sides == (Right, Left) <==>
      !(from.y + from.height < to.y) && !(from.y > to.y + to.height) && from.x + from.width < to.x
    ensures sides.0 in {Top, Bottom} <==> sides.1 in {Top, Bottom}
  {
    if from.y + from.height < to.y then (Bottom, Top)
    else if from.y > to.y + to.height then (Top, Bottom)
    else if from.x + from.width < to.x then (Right, Left)
    else (Left, Right)
  }

  predicate Disjoint(a: Box, b: Box)
  {
    a.y + a.height < b.y || b.y + b.height < a.y || a.x + a.width < b.x || b.x + b.width < a.x
  }

  /** The edge `side` of box a looks at box b: b lies wholly beyond that edge. */
  predicate Faces(a: Box, side: Side, b: Box)
  {
    match side
    case Bottom => a.y + a.height < b.y
    case Top => b.y + b.height < a.y
    case Right => a.x + a.width < b.x
    case Left => b.x + b.width < a.x
  }

  /** For two disjoint boxes the chosen edges face each other. */
  lemma DisjointBoxesFace(from: Box, to: Box)
    requires Disjoint(from, to)
    ensures var (s1, s2) := ChooseSides(from, to); Faces(from, s1, to) && Faces(to, s2, from)
  {}

  /** The two endpoints: midpoints of the chosen edges. */
  function Endpoints(from: Box, to: Box): (ends: (Point, Point))
    ensures ends.0 == EdgeMid(from, ChooseSides(from, to).0)
    ensures ends.1 == EdgeMid(to, ChooseSides(from, to).1)
  {
    var (s1, s2) := ChooseSides(from, to);
    (EdgeMid(from, s1), EdgeMid(to, s2))
  }

  /** The control-point offset: min(80, 0.4 * |dx|); the horizontal distance is used even
      when the curve is drawn vertically. */
  function ControlOffset(dx: real): (offset: real)
    ensures 0.0 <= offset <= 80.0
    ensures offset <= 0.4 * Abs(dx)
    ensures offset == 80.0 || offset == 0.4 * Abs(dx)
  {
    Min(80.0, Abs(dx) * 0.4)
  }

  /** The curve between two endpoints: control points leave each endpoint along the
      dominant axis only (horizontal when |dx| > |dy|, vertical otherwise). */
  function CurveBetween(p1: Point, p2: Point): (c: Curve)
    ensures c.start == p1 && c.end == p2
    ensures Abs(p2.x - p1.x) > Abs(p2.y - p1.y) ==> c.cp1.y == p1.y && c.cp2.y == p2.y
    ensures Abs(p2.x - p1.x) <= Abs(p2.y - p1.y) ==> c.cp1.x == p1.x && c.cp2.x == p2.x
  {
    var dx := p2.x - p1.x;
    var dy := p2.y - p1.y;
    var offset := ControlOffset(dx);
    if Abs(dx) > Abs(dy) then
      Curve(p1, Point(p1.x + Sign(dx) * offset, p1.y), Point(p2.x - Sign(dx) * offset, p2.y), p2)
    else
      Curve(p1, Point(p1.x, p1.y + Sign(dy) * offset), Point(p2.x, p2.y - Sign(dy) * offset), p2)
  }

  predicate Between(a: real, v: real, b: real) { (a <= v <= b) || (b <= v <= a) }

  /** Each control point is moved from its endpoint by the offset, towards the other endpoint,
      and stays within the span of the two endpoints on the dominant axis. */
  lemma ControlPointsWithinSpan(p1: Point, p2: Point)
    ensures var c := CurveBetween(p1, p2); var off := ControlOffset(p2.x - p1.x);
      if Abs(p2.x - p1.x) > Abs(p2.y - p1.y) then
        Abs(c.cp1.x - p1.x) == off && Abs(c.cp2.x - p2.x) == off &&
        Between(p1.x, c.cp1.x, p2.x) && Between(p1.x, c.cp2.x, p2.x)
      else
        Abs(c.cp1.y - p1.y) <= off && Abs(c.cp2.y - p2.y) <= off &&
        Between(p1.y, c.cp1.y, p2.y) && Between(p1.y, c.cp2.y, p2.y)
  {}

  /** Because the offset uses dx, a vertically aligned pair (dx = 0) gets a straight line:
      both control points coincide with the endpoints. */
  lemma VerticalAlignedIsStraight(p1: Point, p2: Point)
    requires p1.x == p2.x
    ensures CurveBetween(p1, p2) == Curve(p1, p1, p2, p2)
  {}

  /** The curve of a connection drawn between two node boxes. */
  function ConnectionCurve(from: Box, to: Box): (c: Curve)
    ensures (c.start, c.end) == Endpoints(from, to)
  {
    var (p1, p2) := Endpoints(from, to);
    CurveBetween(p1, p2)
  }

  /** A node as the flow lookup sees it: its centre (the group's translate) and its box. */
  datatype NodeAt = NodeAt(center: Point, box: Box)

  /** findNodeByCoordinates: the first node whose centre is within 10 of (x, y) on both axes. */
  function FindNodeByCoordinates(nodes: seq<NodeAt>, p: Point): (r: Option<nat>)
    ensures r.Some? ==> r.value < |nodes| && Near(nodes[r.value].center, p)
    ensures r.Some? ==> forall j :: 0 <= j < r.value ==> !Near(nodes[j].center, p)
    ensures r.None? ==> forall j :: 0 <= j < |nodes| ==> !Near(nodes[j].center, p)
  {
    if nodes == [] then None
    else if Near(nodes[0].center, p) then Some(0)
    else
      match FindNodeByCoordinates(nodes[1..], p)
      case None => None
      case Some(k) => Some(k + 1)
  }

  predicate Near(c: Point, p: Point) { Abs(c.x - p.x) < 10.0 && Abs(c.y - p.y) < 10.0 }

  /** createDataFlowPath: when both coordinate pairs belong to nodes the path joins their
      box edges by the edge rule; otherwise it joins the raw coordinates. */
  function FlowCurve(nodes: seq<NodeAt>, p1: Point, p2: Point): (c: Curve)
    ensures FindNodeByCoordinates(nodes, p1).Some? && FindNodeByCoordinates(nodes, p2).Some? ==>
      c == ConnectionCurve(nodes[FindNodeByCoordinates(nodes, p1).value].box,
                           nodes[FindNodeByCoordinates(nodes, p2).value].box)
    ensures FindNodeByCoordinates(nodes, p1).None? || FindNodeByCoordinates(nodes, p2).None? ==>
      c == CurveBetween(p1, p2)
  {
    match (FindNodeByCoordinates(nodes, p1), FindNodeByCoordinates(nodes, p2))
    case (Some(i), Some(j)) => ConnectionCurve(nodes[i].box, nodes[j].box)
    case _ => CurveBetween(p1, p2)
  }
}
