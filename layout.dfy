/** Box sizing, tier layout, the node grid inside a box, the "+N more" badge, and the
    fixed list of connections that the cluster-node diagram draws (update, createNode,
    updateAllConnections). */
module Layout {

  import opened Wrappers
  import opened Routing

  datatype NodeType = Helper | Master | Hot | Ml | Frozen

  datatype ConnectionKind = Normal | Data | Monitoring

  /** A connection as drawn: from-node, to-node and kind. */
  datatype ConnectionSpec = ConnectionSpec(from: NodeType, to: NodeType, kind: ConnectionKind)

  function MinInt(a: int, b: int): int { if a <= b then a else b }
  function MaxInt(a: int, b: int): int { if a >= b then a else b }

  /** Math.ceil(a / b) for a positive divisor. */
  function CeilDiv(a: int, b: int): (r: int)
    requires b > 0
    ensures b * (r - 1) < a <= b * r
  {
    if a % b == 0 then a / b else a / b + 1
  }

  /** calculateBoxHeight: 140 plus 60 per row of three beyond the first, for at most five nodes. */
  function BoxHeight(count: int): (h: real)
    ensures count <= 3 ==> h == 140.0
    ensures count >= 4 ==> h == 200.0
  {
    var rows := CeilDiv(MinInt(count, 5), 3);
    140.0 + (if rows > 1 then (rows - 1) as real * 60.0 else 0.0)
  }

  /** The hot box width: 40 per node, kept within [300, 360]. */
  function HotBoxWidth(hotCount: int): (w: real)
    ensures 300.0 <= w <= 360.0
    ensures 300.0 <= hotCount as real * 40.0 <= 360.0 ==> w == hotCount as real * 40.0
  {
    var raw := hotCount as real * 40.0;
    if raw < 300.0 then 300.0 else if raw > 360.0 then 360.0 else raw
  }

  function BoxWidth(t: NodeType, hotCount: int): real
  {
    match t
    case Helper => 220.0
    case Master => 240.0
    case Hot => HotBoxWidth(hotCount)
    case Ml => 220.0
    case Frozen => 220.0
  }

  // ---------------------------------------------------------------------------------
  // Node grid inside a box (createNode).

  const MaxVisibleNodes: int := 5

  /** visible = min(count, 5); cols = 2 when visible = 4, otherwise min(3, visible);
      rows = ceil(visible / cols). No circles are drawn when visible <= 0, and rows is then 0. */
  datatype Grid = Grid(visible: int, cols: int, rows: int)

  function NodeGrid(count: int): (g: Grid)
    ensures g.visible == MinInt(count, MaxVisibleNodes)
    ensures g.visible > 0 ==> 1 <= g.cols <= 3 && 1 <= g.rows <= 2
    ensures g.visible > 0 ==> g.cols * g.rows >= g.visible && g.cols * (g.rows - 1) < g.visible
    ensures g.visible == 4 ==> g.cols == 2 && g.rows == 2
  {
    var visible := MinInt(count, MaxVisibleNodes);
    var cols := if visible == 4 then 2 else MinInt(3, visible);
    if visible <= 0 then Grid(visible, cols, 0) else Grid(visible, cols, CeilDiv(visible, cols))
  }

  /** The offset of circle i from the node centre: cells 2.5 radii apart, centred, with the
      four-node grid spread to a 3-radius column pitch. */
  function CircleOffset(i: nat, g: Grid, radius: real): Point
    requires g.cols > 0
  {
    var col := i % g.cols;
    var row := i / g.cols;
    var offsetX := if g.cols == 2 && g.visible == 4 then col as real * radius * 3.0 - radius * 1.5
                   else (col as real - (g.cols - 1) as real / 2.0) * (radius * 2.5);
    var offsetY := (row as real - (g.rows - 1) as real / 2.0) * (radius * 2.5);
    Point(offsetX, offsetY)
  }

  /** Distinct circles of one node sit in distinct grid cells, at least 2.5 radii apart on
      one axis, so circles of the drawn radius never overlap. */
  lemma {:induction false} CirclesApart(count: int, i: nat, j: nat, radius: real)
    requires radius > 0.0
    requires i < j < NodeGrid(count).visible
    ensures var g := NodeGrid(count); var a := CircleOffset(i, g, radius); var b := CircleOffset(j, g, radius);
      Abs(a.x - b.x) >= 2.5 * radius || Abs(a.y - b.y) >= 2.5 * radius
  {
    var g := NodeGrid(count);
    var ci, cj, ri, rj := i % g.cols, j % g.cols, i / g.cols, j / g.cols;
    assert i == g.cols * ri + ci && j == g.cols * rj + cj;
    if ri == rj {
      assert ci != cj;
      var d := (ci - cj) as real;
      var a := CircleOffset(i, g, radius);
      var b := CircleOffset(j, g, radius);
      if g.cols == 2 && g.visible == 4 {
        assert a.x - b.x == d * radius * 3.0;
      } else {
        assert a.x - b.x == d * (radius * 2.5);
      }
      assert d >= 1.0 || d <= -1.0;
    } else {
      var d := (ri - rj) as real;
      var a := CircleOffset(i, g, radius);
      var b := CircleOffset(j, g, radius);
      assert a.y - b.y == d * (radius * 2.5);
      assert d >= 1.0 || d <= -1.0;
    }
  }

  /** The node-circle loop of createNode: one offset per visible circle, in drawing order. */
  method CircleOffsets(count: int, radius: real) returns (offsets: seq<Point>)
    requires radius > 0.0
    ensures |offsets| == MaxInt(0, MinInt(count, MaxVisibleNodes))
    ensures forall i, j :: 0 <= i < j < |offsets| ==>
      Abs(offsets[i].x - offsets[j].x) >= 2.5 * radius || Abs(offsets[i].y - offsets[j].y) >= 2.5 * radius
  {
    var g := NodeGrid(count);
    offsets := [];
    var i := 0;
    while i < g.visible
      invariant 0 <= i <= MaxInt(0, g.visible)
      invariant |offsets| == i
      invariant forall k :: 0 <= k < i ==> offsets[k] == CircleOffset(k, g, radius)
    {
      offsets := offsets + [CircleOffset(i, g, radius)];
      i := i + 1;
    }
    forall a, b | 0 <= a < b < |offsets|
      ensures Abs(offsets[a].x - offsets[b].x) >= 2.5 * radius || Abs(offsets[a].y - offsets[b].y) >= 2.5 * radius
    {
      CirclesApart(count, a, b, radius);
    }
  }

  /** The number of decimal digits of n. */
  function NumDigits(n: nat): (d: nat)
    ensures d >= 1
    ensures n < Pow10(d) && (d > 1 ==> Pow10(d - 1) <= n)
  {
    if n < 10 then 1 else 1 + NumDigits(n / 10)
  }

  function Pow10(d: nat): nat { if d == 0 then 1 else 10 * Pow10(d - 1) }

  /** The "+N more" badge: present only when more than five nodes exist, with N = count - 5
      and a pill width of 10 per digit of N plus 20. */
  datatype Badge = Badge(extra: nat, width: nat)

  function MoreBadge(count: int): (b: Option<Badge>)
    ensures b.Some? <==> count > MaxVisibleNodes
    ensures b.Some? ==> b.value.extra == count - MaxVisibleNodes && b.value.extra >= 1
    ensures b.Some? ==> b.value.width >= 30 && (b.value.extra < 10 <==> b.value.width == 30)
  {
    if count > MaxVisibleNodes then
      var extra := count - MaxVisibleNodes;
      Some(Badge(extra, NumDigits(extra) * 10 + 20))
    else None
  }

  /** With the badge, the circles shown plus N account for every node. */
  lemma BadgeAccountsForAll(count: int)
    requires count >= 0
    ensures NodeGrid(count).visible + (if MoreBadge(count).Some? then MoreBadge(count).value.extra else 0) == count
  {}

  // ---------------------------------------------------------------------------------
  // The form values update() reads, with the defaults it uses when a field is absent.

  datatype FormFields = FormFields(
    masterInstanceType: Option<string>,
    hotNodeCount: Option<int>,
    hotInstanceType: Option<string>,
    mlNodeCount: Option<int>,
    mlInstanceType: Option<string>,
    frozenNodeCount: Option<int>,
    frozenInstanceType: Option<string>)

  function OrDefault<T>(o: Option<T>, d: T): T { if o.Some? then o.value else d }

  datatype FormValues = FormValues(
    masterInstanceType: string, hotCount: int, hotInstanceType: string,
    mlCount: int, mlInstanceType: string, frozenCount: int, frozenInstanceType: string)

  /** Three masters, always, for high availability. */
  const MasterCount: int := 3

  function ReadForm(f: FormFields): (v: FormValues)
    ensures f.hotNodeCount.None? ==> v.hotCount == 7
    ensures f.mlNodeCount.None? ==> v.mlCount == 2
    ensures f.frozenNodeCount.None? ==> v.frozenCount == 3
    ensures f.masterInstanceType.None? ==> v.masterInstanceType == "m6i.xlarge"
    ensures f.hotInstanceType.None? ==> v.hotInstanceType == "c6i.xlarge"
    ensures f.mlInstanceType.None? ==> v.mlInstanceType == "m6i.2xlarge"
    ensures f.frozenInstanceType.None? ==> v.frozenInstanceType == "i3.2xlarge"
  {
    FormValues(
      OrDefault(f.masterInstanceType, "m6i.xlarge"),
      OrDefault(f.hotNodeCount, 7),
      OrDefault(f.hotInstanceType, "c6i.xlarge"),
      OrDefault(f.mlNodeCount, 2),
      OrDefault(f.mlInstanceType, "m6i.2xlarge"),
      OrDefault(f.frozenNodeCount, 3),
      OrDefault(f.frozenInstanceType, "i3.2xlarge"))
  }

  // ---------------------------------------------------------------------------------
  // Tier layout (update()): helper and master on the first tier, hot below master,
  // ML and frozen on the third tier, mirrored about the hot box.

  /** A placed node: its centre, its box, how many nodes it stands for, and the instance type. */
  datatype PlacedNode = PlacedNode(center: Point, box: Box, count: int, instanceType: string)

  function BoxCenter(b: Box): Point { Point(b.x + b.width / 2.0, b.y + b.height / 2.0) }

  function Place(b: Box, count: int, instanceType: string): PlacedNode
  {
    PlacedNode(BoxCenter(b), b, count, instanceType)
  }

  function HelperBox(height: real): Box { Box(80.0, height * 0.15, 220.0, BoxHeight(1)) }

  function MasterBox(width: real, height: real): Box
  {
    Box(width / 2.0 - 240.0 / 2.0, height * 0.15, 240.0, BoxHeight(MasterCount))
  }

  function HotBox(width: real, height: real, hotCount: int): Box
  {
    var m := MasterBox(width, height);
    var w := HotBoxWidth(hotCount);
    Box(width / 2.0 - w / 2.0, m.y + m.height + height * 0.14, w, BoxHeight(hotCount))
  }

  function ThirdTierY(width: real, height: real, hotCount: int): real
  {
    var h := HotBox(width, height, hotCount);
    h.y + h.height + height * 0.14
  }

  function MlBox(width: real, height: real, hotCount: int, mlCount: int): Box
  {
    var h := HotBox(width, height, hotCount);
    Box(h.x - width * 0.12 / 2.0, ThirdTierY(width, height, hotCount), 220.0, BoxHeight(mlCount))
  }

  function FrozenBox(width: real, height: real, hotCount: int, frozenCount: int): Box
  {
    var h := HotBox(width, height, hotCount);
    Box(h.x + h.width - 220.0 + width * 0.12 / 2.0, ThirdTierY(width, height, hotCount), 220.0, BoxHeight(frozenCount))
  }

  /** The set of node types update() places: helper, master and hot always; ML and frozen
      only for a positive count. */
  function PresentTypes(v: FormValues): (s: set<NodeType>)
    ensures Helper in s && Master in s && Hot in s
    ensures Ml in s <==> v.mlCount > 0
    ensures Frozen in s <==> v.frozenCount > 0
  {
    {Helper, Master, Hot} + (if v.mlCount > 0 then {Ml} else {}) + (if v.frozenCount > 0 then {Frozen} else {})
  }

  /** All placed nodes of one update(), keyed by type. */
  function LayoutNodes(width: real, height: real, v: FormValues): (nodes: map<NodeType, PlacedNode>)
    ensures nodes.Keys == PresentTypes(v)
  {
    var base := map[
      Helper := Place(HelperBox(height), 1, "t3.medium"),
      Master := Place(MasterBox(width, height), MasterCount, v.masterInstanceType),
      Hot := Place(HotBox(width, height, v.hotCount), v.hotCount, v.hotInstanceType)];
    var withMl := if v.mlCount > 0 then base[Ml := Place(MlBox(width, height, v.hotCount, v.mlCount), v.mlCount, v.mlInstanceType)] else base;
    if v.frozenCount > 0 then withMl[Frozen := Place(FrozenBox(width, height, v.hotCount, v.frozenCount), v.frozenCount, v.frozenInstanceType)]
    else withMl
  }

  /** Each placed node is centred in its box and carries its count; the box widths and
      heights follow the node type and the count. */
  lemma LayoutNodesPlaced(width: real, height: real, v: FormValues)
    ensures var nodes := LayoutNodes(width, height, v);
      (forall t :: t in nodes ==> nodes[t].center == BoxCenter(nodes[t].box)) &&
      nodes[Hot].count == v.hotCount && nodes[Master].count == MasterCount && nodes[Helper].count == 1 &&
      (Ml in nodes ==> nodes[Ml].count == v.mlCount) &&
      (Frozen in nodes ==> nodes[Frozen].count == v.frozenCount) &&
      (forall t :: t in nodes ==> nodes[t].box.width == BoxWidth(t, v.hotCount)) &&
      (forall t :: t in nodes ==> nodes[t].box.height == BoxHeight(nodes[t].count))
  {}

  /** The tiers are stacked: on a canvas of positive height the master box ends above the hot
      box and the hot box above the third tier, so those connections run bottom edge to top edge;
      the ML and frozen boxes mirror each other about the vertical centre line. */
  lemma TiersStacked(width: real, height: real, v: FormValues)
    requires height > 0.0
    ensures var nodes := LayoutNodes(width, height, v);
      ChooseSides(nodes[Master].box, nodes[Hot].box) == (Bottom, Top) &&
      (Ml in nodes ==> ChooseSides(nodes[Hot].box, nodes[Ml].box) == (Bottom, Top)) &&
      (Frozen in nodes ==> ChooseSides(nodes[Hot].box, nodes[Frozen].box) == (Bottom, Top)) &&
      (Ml in nodes && Frozen in nodes ==>
        nodes[Ml].box.x + (nodes[Frozen].box.x + nodes[Frozen].box.width) == width)
  {}

  // ---------------------------------------------------------------------------------
  // The connection list.

  /** The connections update() draws, in drawing order (ML and frozen ones only when placed). */
  function UpdatePlan(hasMl: bool, hasFrozen: bool): seq<ConnectionSpec>
  {
    [ConnectionSpec(Helper, Master, Normal), ConnectionSpec(Master, Hot, Normal)]
    + (if hasMl then [ConnectionSpec(Hot, Ml, Normal)] else [])
    + (if hasFrozen then [ConnectionSpec(Hot, Frozen, Normal)] else [])
    + [ConnectionSpec(Helper, Hot, Data)]
    + (if hasMl then [ConnectionSpec(Ml, Helper, Monitoring)] else [])
    + (if hasFrozen then [ConnectionSpec(Frozen, Helper, Monitoring)] else [])
    + [ConnectionSpec(Hot, Helper, Monitoring), ConnectionSpec(Master, Helper, Monitoring)]
  }

  /** Every connection update() draws joins two node types it placed. */
  lemma UpdatePlanPlaced(v: FormValues)
    ensures forall c :: c in UpdatePlan(v.mlCount > 0, v.frozenCount > 0) ==>
      c.from in PresentTypes(v) && c.to in PresentTypes(v)
  {}

  /** One guarded connection of updateAllConnections: drawn only when both of its nodes are present. */
  function IfPresent(present: set<NodeType>, c: ConnectionSpec): (r: seq<ConnectionSpec>)
    ensures r == [c] <==> c.from in present && c.to in present
    ensures r == [] <==> !(c.from in present && c.to in present)
  {
    if c.from in present && c.to in present then [c] else []
  }

  /** The connections updateAllConnections redraws from the node types it finds, in order. */
  function RebuildPlan(present: set<NodeType>): (plan: seq<ConnectionSpec>)
    ensures forall c :: c in plan ==> c.from in present && c.to in present
  {
    IfPresent(present, ConnectionSpec(Helper, Master, Normal))
    + IfPresent(present, ConnectionSpec(Master, Hot, Normal))
    + IfPresent(present, ConnectionSpec(Hot, Ml, Normal))
    + IfPresent(present, ConnectionSpec(Hot, Frozen, Normal))
    + IfPresent(present, ConnectionSpec(Helper, Hot, Data))
    + IfPresent(present, ConnectionSpec(Ml, Helper, Monitoring))
    + IfPresent(present, ConnectionSpec(Frozen, Helper, Monitoring))
    + IfPresent(present, ConnectionSpec(Hot, Helper, Monitoring))
    + IfPresent(present, ConnectionSpec(Master, Helper, Monitoring))
  }

  /** updateAllConnections rebuilds the same ordered list as update() for the node types
      update() placed: ML and frozen edges appear exactly when those nodes exist. */
  lemma RebuildMatchesUpdate(v: FormValues)
    ensures RebuildPlan(PresentTypes(v)) == UpdatePlan(v.mlCount > 0, v.frozenCount > 0)
  {}
}
