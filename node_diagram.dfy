/** The cluster-node diagram as a state machine: the viewport record, the pan-drag state,
    the monitoring-overlay flag, the placed nodes and the connection paths drawn between
    them. Element creation is abstracted away; what remains is what the handlers change. */
module NodeDiagramModel {

  import opened Wrappers
  import opened Routing
  import opened Layout
  import V = Viewport

  /** The pan snapshot taken on mouse-down: pointer position and viewport translate. */
  datatype DragStart = DragStart(x: real, y: real, translateX: real, translateY: real)

  /** The classes mouse-down looks for on the target and its ancestors (`closest`). */
  datatype ElementClass = NodeClass | FlowToggle | FullscreenToggle | MonitoringToggle | DiagramControls
                        | OtherClass(name: string)

  /** A class that keeps mouse-down from starting a pan. */
  predicate Interactive(c: ElementClass) { !c.OtherClass? }

  /** A drawn connection path: what it connects, its curve, and whether it is hidden. */
  datatype Path = Path(spec: ConnectionSpec, curve: Curve, hidden: bool)

  predicate Connects(nodes: map<NodeType, PlacedNode>, spec: ConnectionSpec)
  {
    spec.from in nodes && spec.to in nodes
  }

  /** The path createConnection draws: the edge-to-edge curve between the two boxes; a
      monitoring path starts hidden unless the overlay is on. */
  function PathFor(nodes: map<NodeType, PlacedNode>, spec: ConnectionSpec, overlay: bool): (p: Path)
    requires Connects(nodes, spec)
    ensures p.spec == spec
    ensures p.hidden <==> spec.kind == Monitoring && !overlay
  {
    Path(spec, ConnectionCurve(nodes[spec.from].box, nodes[spec.to].box), spec.kind == Monitoring && !overlay)
  }

  /** The paths drawn for a plan, in plan order. */
  function PlanPaths(nodes: map<NodeType, PlacedNode>, plan: seq<ConnectionSpec>, overlay: bool): (ps: seq<Path>)
    requires forall c :: c in plan ==> Connects(nodes, c)
    ensures |ps| == |plan|
  {
    if plan == [] then []
    else PlanPaths(nodes, plan[..|plan| - 1], overlay) + [PathFor(nodes, plan[|plan| - 1], overlay)]
  }

  /** The paths update() draws for the given form values on a canvas of the given size. */
  function UpdatePaths(width: real, height: real, v: FormValues, overlay: bool): seq<Path>
  {
    UpdatePlanConnects(width, height, v);
    PlanPaths(LayoutNodes(width, height, v), UpdatePlan(v.mlCount > 0, v.frozenCount > 0), overlay)
  }

  /** Every connection update() draws joins two of the nodes it lays out. */
  lemma UpdatePlanConnects(width: real, height: real, v: FormValues)
    ensures forall c :: c in UpdatePlan(v.mlCount > 0, v.frozenCount > 0) ==> Connects(LayoutNodes(width, height, v), c)
  {
    UpdatePlanPlaced(v);
  }

  /** Each drawn path is the plan entry's path, so drawn plans keep the paths attached. */
  lemma {:induction false} PlanPathsAttached(nodes: map<NodeType, PlacedNode>, plan: seq<ConnectionSpec>, overlay: bool)
    requires forall c :: c in plan ==> Connects(nodes, c)
    ensures forall i :: 0 <= i < |plan| ==> PlanPaths(nodes, plan, overlay)[i] == PathFor(nodes, plan[i], overlay)
    ensures PathsAttached(nodes, PlanPaths(nodes, plan, overlay), 0, overlay)
  {
    if plan != [] {
      var init := plan[..|plan| - 1];
      assert forall c :: c in init ==> c in plan;
      PlanPathsAttached(nodes, init, overlay);
    }
  }

  /** Every path from index `from` on joins the current boxes of two placed nodes, and
      exactly the monitoring ones among them are hidden while the overlay is off. */
  ghost predicate PathsAttached(nodes: map<NodeType, PlacedNode>, paths: seq<Path>, from: int, overlay: bool)
  {
    forall i :: 0 <= from <= i < |paths| ==>
      Connects(nodes, paths[i].spec) && paths[i] == PathFor(nodes, paths[i].spec, overlay)
  }

  /** update()'s drawing always ends with a monitoring path (hot to helper, master to helper). */
  lemma UpdatePathsEndWithMonitoring(width: real, height: real, v: FormValues, overlay: bool)
    ensures var ps := UpdatePaths(width, height, v, overlay);
      |ps| > 0 && ps[|ps| - 1].spec.kind == Monitoring
  {
    UpdatePlanConnects(width, height, v);
    var plan := UpdatePlan(v.mlCount > 0, v.frozenCount > 0);
    PlanPathsAttached(LayoutNodes(width, height, v), plan, overlay);
  }

  /** The placed nodes in drawing order, as findNodeByCoordinates scans them. */
  function NodesInOrder(nodes: map<NodeType, PlacedNode>): (r: seq<NodeAt>)
    ensures |r| <= 5
  {
    (if Helper in nodes then [NodeAt(nodes[Helper].center, nodes[Helper].box)] else [])
    + (if Master in nodes then [NodeAt(nodes[Master].center, nodes[Master].box)] else [])
    + (if Hot in nodes then [NodeAt(nodes[Hot].center, nodes[Hot].box)] else [])
    + (if Ml in nodes then [NodeAt(nodes[Ml].center, nodes[Ml].box)] else [])
    + (if Frozen in nodes then [NodeAt(nodes[Frozen].center, nodes[Frozen].box)] else [])
  }

  class NodeDiagram {
    var width: real
    var height: real
    var showMonitoringOverlay: bool
    var viewport: V.Transform
    var isDragging: bool
    var dragStart: DragStart
    var nodes: map<NodeType, PlacedNode>
    /** The connection paths among the children of the connections group, in drawing order. */
    var paths: seq<Path>
    /** Where the paths listed in `this.connections` and `this.monitoringConnections` begin:
        update() keeps the earlier paths in the group but no longer lists them. */
    var firstListed: nat

    ghost predicate Valid()
      reads this
    {
      viewport.scale > 0.0 && width > 0.0 && height > 0.0 && firstListed <= |paths| &&
      PathsAttached(nodes, paths, firstListed, showMonitoringOverlay)
    }

    /** The constructor followed by init(): the size is the container's client size, or
        1000 x 700 where that is 0; the first update() draws the diagram, and initCentering
        puts the viewport at scale 0.5 centred on the canvas. Without a container nothing is
        drawn and the viewport stays at the identity. */
    constructor (container: Option<(real, real)>, form: FormFields)
      requires container.Some? ==> container.value.0 >= 0.0 && container.value.1 >= 0.0
      ensures Valid() == true
      ensures !isDragging && !showMonitoringOverlay && dragStart == DragStart(0.0, 0.0, 0.0, 0.0)
      ensures container.None? ==>
        width == 1000.0 && height == 700.0 && viewport == V.Transform(1.0, 0.0, 0.0) && nodes == map[] && paths == []
      ensures firstListed == 0
      ensures container.Some? ==>
        width == (if container.value.0 > 0.0 then container.value.0 else 1000.0) &&
        height == (if container.value.1 > 0.0 then container.value.1 else 700.0) &&
        viewport == V.Transform(0.5, width / 2.0, height / 2.0) &&
        nodes == LayoutNodes(width, height, ReadForm(form)) &&
        paths == UpdatePaths(width, height, ReadForm(form), false)
    {
      width := 1000.0;
      height := 700.0;
      showMonitoringOverlay := false;
      viewport := V.Transform(1.0, 0.0, 0.0);
      isDragging := false;
      dragStart := DragStart(0.0, 0.0, 0.0, 0.0);
      nodes := map[];
      paths := [];
      firstListed := 0;
      new;
      Init(container, form);
    }

    /** init(): without a container nothing is drawn; otherwise the size becomes the
        container's client size where that is not 0, the first update() draws the diagram,
        and initCentering puts the viewport at scale 0.5 centred on the canvas. */
    method Init(container: Option<(real, real)>, form: FormFields)
      requires container.Some? ==> container.value.0 >= 0.0 && container.value.1 >= 0.0
      requires Valid()
      modifies this
      ensures Valid()
      ensures isDragging == old(isDragging) && dragStart == old(dragStart)
      ensures showMonitoringOverlay == old(showMonitoringOverlay)
      ensures container.None? ==>
        width == old(width) && height == old(height) && viewport == old(viewport) &&
        nodes == old(nodes) && paths == old(paths) && firstListed == old(firstListed)
      ensures container.Some? ==>
        width == (if container.value.0 > 0.0 then container.value.0 else old(width)) &&
        height == (if container.value.1 > 0.0 then container.value.1 else old(height)) &&
        viewport == V.Transform(0.5, width / 2.0, height / 2.0) &&
        nodes == LayoutNodes(width, height, ReadForm(form)) &&
        paths == old(paths) + UpdatePaths(width, height, ReadForm(form), showMonitoringOverlay) &&
        firstListed == |old(paths)|
    {
      if container.Some? {
        var (cw, ch) := container.value;
        width := if cw > 0.0 then cw else width;
        height := if ch > 0.0 then ch else height;
        Update(form);
        SetCentering();
      }
    }

    /** initCentering: the first transform, at scale 0.5 about the canvas centre. */
    method SetCentering()
      requires Valid()
      modifies this
      ensures Valid() && viewport == V.Transform(0.5, width / 2.0, height / 2.0)
      ensures width == old(width) && height == old(height) && nodes == old(nodes) && paths == old(paths)
      ensures firstListed == old(firstListed) && showMonitoringOverlay == old(showMonitoringOverlay)
      ensures isDragging == old(isDragging) && dragStart == old(dragStart)
    {
      viewport := V.Transform(0.5, width / 2.0, height / 2.0);
    }

    /** createConnection: appends one path; nothing else changes. */
    method CreateConnection(spec: ConnectionSpec)
      requires Connects(nodes, spec)
      modifies this
      ensures nodes == old(nodes) && viewport == old(viewport) && showMonitoringOverlay == old(showMonitoringOverlay)
      ensures paths == old(paths) + [PathFor(nodes, spec, showMonitoringOverlay)] && firstListed == old(firstListed)
      ensures width == old(width) && height == old(height)
      ensures isDragging == old(isDragging) && dragStart == old(dragStart)
    {
      var p := Path(spec, ConnectionCurve(nodes[spec.from].box, nodes[spec.to].box),
                    spec.kind == Monitoring && !showMonitoringOverlay);
      paths := paths + [p];
    }

    /** update() as written: lays the nodes out afresh from the form and draws the plan's
        connections; the connection paths already in the group are kept (only flow paths
        are removed) but no longer listed, so later visibility updates do not reach them. */
    method Update(form: FormFields)
      modifies this
      ensures nodes == LayoutNodes(width, height, ReadForm(form))
      ensures paths == old(paths) + UpdatePaths(width, height, ReadForm(form), showMonitoringOverlay)
      ensures firstListed == |old(paths)|
      ensures PathsAttached(nodes, paths, firstListed, showMonitoringOverlay)
      ensures viewport == old(viewport) && showMonitoringOverlay == old(showMonitoringOverlay)
      ensures width == old(width) && height == old(height)
      ensures isDragging == old(isDragging) && dragStart == old(dragStart)
    {
      var v := ReadForm(form);
      var plan := UpdatePlan(v.mlCount > 0, v.frozenCount > 0);
      UpdatePlanConnects(width, height, v);
      nodes := LayoutNodes(width, height, v);
      firstListed := |paths|;
      DrawPlan(plan);
    }

    /** update() as its comment intends ("clear other connections"): every connection path is
        removed before the plan is drawn, so all drawn paths are listed and attached. */
    method UpdateClearingConnections(form: FormFields)
      modifies this
      ensures nodes == LayoutNodes(width, height, ReadForm(form))
      ensures paths == UpdatePaths(width, height, ReadForm(form), showMonitoringOverlay)
      ensures firstListed == 0
      ensures PathsAttached(nodes, paths, 0, showMonitoringOverlay)
      ensures viewport == old(viewport) && showMonitoringOverlay == old(showMonitoringOverlay)
      ensures width == old(width) && height == old(height)
      ensures isDragging == old(isDragging) && dragStart == old(dragStart)
    {
      paths := [];
      Update(form);
      assert paths == [] + UpdatePaths(width, height, ReadForm(form), showMonitoringOverlay);
    }

    /** The createConnection calls of one redraw, in order. */
    method DrawPlan(plan: seq<ConnectionSpec>)
      requires forall c :: c in plan ==> Connects(nodes, c)
      requires firstListed <= |paths| && PathsAttached(nodes, paths, firstListed, showMonitoringOverlay)
      modifies this
      ensures PathsAttached(nodes, paths, firstListed, showMonitoringOverlay)
      ensures nodes == old(nodes) && viewport == old(viewport) && showMonitoringOverlay == old(showMonitoringOverlay)
      ensures paths == old(paths) + PlanPaths(nodes, plan, showMonitoringOverlay) && firstListed == old(firstListed)
      ensures width == old(width) && height == old(height)
      ensures isDragging == old(isDragging) && dragStart == old(dragStart)
    {
      for k := 0 to |plan|
        invariant nodes == old(nodes) && viewport == old(viewport) && showMonitoringOverlay == old(showMonitoringOverlay)
        invariant paths == old(paths) + PlanPaths(nodes, plan[..k], showMonitoringOverlay) && firstListed == old(firstListed)
        invariant PathsAttached(nodes, paths, firstListed, showMonitoringOverlay)
        invariant width == old(width) && height == old(height)
        invariant isDragging == old(isDragging) && dragStart == old(dragStart)
      {
        assert plan[..k + 1][..k] == plan[..k];
        CreateConnection(plan[k]);
      }
      assert plan[..|plan|] == plan;
    }

    /** updateAllConnections: clears the connections and redraws, against the current boxes,
        each fixed connection whose two nodes are present. */
    method UpdateAllConnections()
      modifies this
      ensures paths == PlanPaths(nodes, RebuildPlan(nodes.Keys), showMonitoringOverlay) && firstListed == 0
      ensures PathsAttached(nodes, paths, 0, showMonitoringOverlay)
      ensures nodes == old(nodes) && viewport == old(viewport) && showMonitoringOverlay == old(showMonitoringOverlay)
      ensures width == old(width) && height == old(height)
      ensures isDragging == old(isDragging) && dragStart == old(dragStart)
    {
      paths := [];
      firstListed := 0;
      DrawPlan(RebuildPlan(nodes.Keys));
    }

    /** The monitoring-toggle click: flips the overlay flag and re-applies visibility to the
        listed paths; paths an update() stopped listing are left as they were. */
    method ToggleMonitoring()
      requires Valid()
      modifies this
      ensures Valid()
      ensures showMonitoringOverlay == !old(showMonitoringOverlay)
      ensures nodes == old(nodes) && viewport == old(viewport) && firstListed == old(firstListed)
      ensures |paths| == |old(paths)|
      ensures forall i :: 0 <= i < firstListed ==> paths[i] == old(paths[i])
      ensures forall i :: firstListed <= i < |paths| ==>
        paths[i].spec == old(paths[i].spec) && paths[i].curve == old(paths[i].curve) &&
        (paths[i].hidden <==> paths[i].spec.kind == Monitoring && !showMonitoringOverlay)
    {
      showMonitoringOverlay := !showMonitoringOverlay;
      UpdateMonitoringConnections();
    }

    /** updateMonitoringConnections: every listed monitoring path is shown exactly when the
        overlay is on; other paths, listed or not, keep their visibility. */
    method UpdateMonitoringConnections()
      modifies this
      ensures |paths| == |old(paths)| && firstListed == old(firstListed)
      ensures forall i :: 0 <= i < |paths| ==>
        paths[i].spec == old(paths[i].spec) && paths[i].curve == old(paths[i].curve) &&
        paths[i].hidden == (if firstListed <= i && paths[i].spec.kind == Monitoring then !showMonitoringOverlay
                            else old(paths[i].hidden))
      ensures nodes == old(nodes) && viewport == old(viewport) && showMonitoringOverlay == old(showMonitoringOverlay)
      ensures width == old(width) && height == old(height)
      ensures isDragging == old(isDragging) && dragStart == old(dragStart)
    {
      var i := firstListed;
      while i < |paths|
        invariant firstListed == old(firstListed) && |paths| == |old(paths)|
        invariant firstListed <= i && (firstListed <= |paths| ==> i <= |paths|)
        invariant forall k :: 0 <= k < |paths| ==> paths[k].spec == old(paths[k].spec) && paths[k].curve == old(paths[k].curve)
        invariant forall k :: firstListed <= k < i && k < |paths| ==>
          paths[k].hidden == (if paths[k].spec.kind == Monitoring then !showMonitoringOverlay else old(paths[k].hidden))
        invariant forall k :: (k < firstListed || i <= k) && 0 <= k < |paths| ==> paths[k].hidden == old(paths[k].hidden)
        invariant nodes == old(nodes) && viewport == old(viewport) && showMonitoringOverlay == old(showMonitoringOverlay)
        invariant width == old(width) && height == old(height)
        invariant isDragging == old(isDragging) && dragStart == old(dragStart)
      {
        if paths[i].spec.kind == Monitoring {
          paths := paths[i := paths[i].(hidden := !showMonitoringOverlay)];
        }
        i := i + 1;
      }
    }

    // ------------------------------------------------------------------------------
    // Viewport handlers.

    /** handleMouseDown: a pan starts only for the primary button on a target outside node,
        toggle and control elements; it snapshots the pointer and the translate. */
    method HandleMouseDown(button: int, targetClasses: set<ElementClass>, clientX: real, clientY: real)
      modifies this
      ensures var starts := button == 0 && forall c :: c in targetClasses ==> !Interactive(c);
        (starts ==> (isDragging &&
          dragStart == DragStart(clientX, clientY, old(viewport.translateX), old(viewport.translateY)))) &&
        (!starts ==> isDragging == old(isDragging) && dragStart == old(dragStart))
      ensures viewport == old(viewport) && nodes == old(nodes) && paths == old(paths) && firstListed == old(firstListed)
      ensures showMonitoringOverlay == old(showMonitoringOverlay) && width == old(width) && height == old(height)
    {
      if button != 0 || exists c :: c in targetClasses && Interactive(c) {
        return;
      }
      isDragging := true;
      dragStart := DragStart(clientX, clientY, viewport.translateX, viewport.translateY);
    }

    /** handleMouseMove: while panning, translate = snapshot translate + pointer delta / scale;
        otherwise nothing. */
    method HandleMouseMove(clientX: real, clientY: real)
      requires Valid()
      modifies this
      ensures Valid()
      ensures old(isDragging) ==> viewport == V.Transform(old(viewport.scale),
        V.PanTranslate(dragStart.translateX, dragStart.x, clientX, old(viewport.scale)),
        V.PanTranslate(dragStart.translateY, dragStart.y, clientY, old(viewport.scale)))
      ensures !old(isDragging) ==> viewport == old(viewport)
      ensures isDragging == old(isDragging) && dragStart == old(dragStart)
      ensures nodes == old(nodes) && paths == old(paths) && firstListed == old(firstListed)
      ensures showMonitoringOverlay == old(showMonitoringOverlay) && width == old(width) && height == old(height)
    {
      if !isDragging {
        return;
      }
      var dx := clientX - dragStart.x;
      var dy := clientY - dragStart.y;
      viewport := viewport.(translateX := dragStart.translateX + dx / viewport.scale,
                            translateY := dragStart.translateY + dy / viewport.scale);
    }

    /** handleMouseUp: ends any pan. */
    method HandleMouseUp()
      modifies this
      ensures !isDragging
      ensures viewport == old(viewport) && dragStart == old(dragStart) && nodes == old(nodes) && paths == old(paths) && firstListed == old(firstListed)
      ensures showMonitoringOverlay == old(showMonitoringOverlay) && width == old(width) && height == old(height)
    {
      if isDragging {
        isDragging := false;
      }
    }

    /** handleWheel, with the pointer offset from the drawing's corner as (mouseX, mouseY). */
    method HandleWheel(mouseX: real, mouseY: real, deltaY: real)
      requires Valid()
      modifies this
      ensures Valid()
      ensures viewport == V.WheelStep(old(viewport), mouseX, mouseY, deltaY)
      ensures V.MinScale <= viewport.scale <= V.MaxScale
      ensures isDragging == old(isDragging) && dragStart == old(dragStart) && nodes == old(nodes) && paths == old(paths) && firstListed == old(firstListed)
      ensures showMonitoringOverlay == old(showMonitoringOverlay) && width == old(width) && height == old(height)
    {
      var cx := V.ContentCoord(mouseX, viewport.scale, viewport.translateX);
      var cy := V.ContentCoord(mouseY, viewport.scale, viewport.translateY);
      var newScale := V.ClampScale(viewport.scale * V.WheelFactor(deltaY));
      if newScale != viewport.scale {
        viewport := V.Transform(newScale, V.PivotTranslate(cx, mouseX, newScale), V.PivotTranslate(cy, mouseY, newScale));
      }
    }

    /** The zoom-in button, pivoting on the centre of a drawing of the given size. */
    method ZoomIn(viewWidth: real, viewHeight: real)
      requires Valid()
      modifies this
      ensures Valid()
      ensures viewport == V.ZoomInStep(old(viewport), viewWidth, viewHeight)
      ensures isDragging == old(isDragging) && dragStart == old(dragStart) && nodes == old(nodes) && paths == old(paths) && firstListed == old(firstListed)
      ensures showMonitoringOverlay == old(showMonitoringOverlay) && width == old(width) && height == old(height)
    {
      var centerX := viewWidth / 2.0;
      var centerY := viewHeight / 2.0;
      var cx := centerX / viewport.scale - viewport.translateX;
      var cy := centerY / viewport.scale - viewport.translateY;
      var newScale := V.Min(2.5, viewport.scale * 1.2);
      viewport := V.Transform(newScale, -(cx * newScale - centerX) / newScale, -(cy * newScale - centerY) / newScale);
    }

    /** The zoom-out button, pivoting on the centre of a drawing of the given size. */
    method ZoomOut(viewWidth: real, viewHeight: real)
      requires Valid()
      modifies this
      ensures Valid()
      ensures viewport == V.ZoomOutStep(old(viewport), viewWidth, viewHeight)
      ensures isDragging == old(isDragging) && dragStart == old(dragStart) && nodes == old(nodes) && paths == old(paths) && firstListed == old(firstListed)
      ensures showMonitoringOverlay == old(showMonitoringOverlay) && width == old(width) && height == old(height)
    {
      var centerX := viewWidth / 2.0;
      var centerY := viewHeight / 2.0;
      var cx := centerX / viewport.scale - viewport.translateX;
      var cy := centerY / viewport.scale - viewport.translateY;
      var newScale := V.Max(0.25, viewport.scale / 1.2);
      viewport := V.Transform(newScale, -(cx * newScale - centerX) / newScale, -(cy * newScale - centerY) / newScale);
    }

    /** The deferred step of initCentering: the hand-tuned scale 0.45 and offset (250, 230). */
    method ApplyDefaultCentering()
      requires Valid()
      modifies this
      ensures Valid()
      ensures viewport == V.Transform(0.45, 250.0, 230.0)
      ensures isDragging == old(isDragging) && dragStart == old(dragStart) && nodes == old(nodes) && paths == old(paths) && firstListed == old(firstListed)
      ensures showMonitoringOverlay == old(showMonitoringOverlay) && width == old(width) && height == old(height)
    {
      viewport := V.Transform(0.45, 250.0, 230.0);
    }

    /** The animation-frame step of initCentering: optimizeLayoutForContainer runs only for a
        measured content box of positive size. */
    method OptimizeIfMeasured(bbox: V.BBox)
      requires Valid() && bbox.width >= 0.0 && bbox.height >= 0.0
      modifies this
      ensures Valid()
      ensures bbox.width > 0.0 && bbox.height > 0.0 ==> viewport == V.OptimizeTransform(bbox, width, height)
      ensures !(bbox.width > 0.0 && bbox.height > 0.0) ==> viewport == old(viewport)
      ensures isDragging == old(isDragging) && dragStart == old(dragStart) && nodes == old(nodes) && paths == old(paths) && firstListed == old(firstListed)
      ensures showMonitoringOverlay == old(showMonitoringOverlay) && width == old(width) && height == old(height)
    {
      if bbox.width > 0.0 && bbox.height > 0.0 {
        viewport := V.OptimizeTransform(bbox, width, height);
      }
    }

    /** resetView: back to the identity viewport (its deferred fit is FitToContent). */
    method ResetView()
      requires Valid()
      modifies this
      ensures Valid()
      ensures viewport == V.Transform(1.0, 0.0, 0.0)
      ensures isDragging == old(isDragging) && dragStart == old(dragStart) && nodes == old(nodes) && paths == old(paths) && firstListed == old(firstListed)
      ensures showMonitoringOverlay == old(showMonitoringOverlay) && width == old(width) && height == old(height)
    {
      viewport := V.Transform(1.0, 0.0, 0.0);
    }

    /** The deferred fit of resetView and handleResize: padding 30, scale capped at 1. */
    method FitToContent(bbox: V.BBox)
      requires Valid() && bbox.width >= 0.0 && bbox.height >= 0.0
      modifies this
      ensures Valid()
      ensures viewport == V.FitTransform(bbox, width, height, 30.0, 1.0)
      ensures 0.0 < viewport.scale <= 1.0
      ensures isDragging == old(isDragging) && dragStart == old(dragStart) && nodes == old(nodes) && paths == old(paths) && firstListed == old(firstListed)
      ensures showMonitoringOverlay == old(showMonitoringOverlay) && width == old(width) && height == old(height)
    {
      viewport := V.FitTransform(bbox, width, height, 30.0, 1.0);
    }

    /** handleResize: for a visible container whose size moved by more than 50 on either axis,
        adopt the new size (at least 800 x 600) and redraw; otherwise nothing changes. */
    method HandleResize(visible: bool, clientWidth: real, clientHeight: real, form: FormFields)
      requires Valid()
      modifies this
      ensures Valid()
      ensures var resized := visible && (V.Max(clientWidth - old(width), old(width) - clientWidth) > 50.0 ||
                                         V.Max(clientHeight - old(height), old(height) - clientHeight) > 50.0);
        (resized ==> width == V.Max(clientWidth, 800.0) && height == V.Max(clientHeight, 600.0) &&
                     nodes == LayoutNodes(width, height, ReadForm(form)) &&
                     paths == old(paths) + UpdatePaths(width, height, ReadForm(form), showMonitoringOverlay) &&
                     firstListed == |old(paths)|) &&
        (!resized ==> width == old(width) && height == old(height) && nodes == old(nodes) &&
                      paths == old(paths) && firstListed == old(firstListed))
      ensures viewport == old(viewport) && isDragging == old(isDragging) && dragStart == old(dragStart)
      ensures showMonitoringOverlay == old(showMonitoringOverlay)
    {
      if visible {
        if V.Max(clientWidth - width, width - clientWidth) > 50.0 || V.Max(clientHeight - height, height - clientHeight) > 50.0 {
          width := V.Max(clientWidth, 800.0);
          height := V.Max(clientHeight, 600.0);
          Update(form);
        }
      }
    }

    /** createDataFlowPath's curve between two coordinate pairs, against the current nodes. */
    function FlowCurveAt(p1: Point, p2: Point): Curve
      reads this
    {
      FlowCurve(NodesInOrder(nodes), p1, p2)
    }
  }

  /** The stale-path scenario with update() as written: the overlay is turned on, an update()
      keeps the shown monitoring paths without listing them, and turning the overlay off
      again leaves one of them shown. */
  method StaleMonitoringPathAfterUpdate(size: (real, real), form1: FormFields, form2: FormFields)
    returns (d: NodeDiagram)
    requires size.0 >= 0.0 && size.1 >= 0.0
    ensures !d.showMonitoringOverlay
    ensures exists i :: 0 <= i < |d.paths| && d.paths[i].spec.kind == Monitoring && !d.paths[i].hidden
  {
    d := new NodeDiagram(Some(size), form1);
    UpdatePathsEndWithMonitoring(d.width, d.height, ReadForm(form1), false);
    d.ToggleMonitoring();
    var stale := |d.paths| - 1;
    d.Update(form2);
    d.ToggleMonitoring();
    assert d.paths[stale].spec.kind == Monitoring && !d.paths[stale].hidden;
  }

  /** The same sequence with an update() that clears every connection path: once the overlay
      is off again, exactly the monitoring paths are hidden. */
  method NoStaleMonitoringPathWhenCleared(size: (real, real), form1: FormFields, form2: FormFields)
    returns (d: NodeDiagram)
    requires size.0 >= 0.0 && size.1 >= 0.0
    ensures !d.showMonitoringOverlay && d.Valid() && d.firstListed == 0
    ensures forall i :: 0 <= i < |d.paths| ==> (d.paths[i].hidden <==> d.paths[i].spec.kind == Monitoring)
  {
    d := new NodeDiagram(Some(size), form1);
    d.ToggleMonitoring();
    d.UpdateClearingConnections(form2);
    d.ToggleMonitoring();
  }

  /** Redrawing right after update() reproduces update()'s paths exactly, in the same order. */
  lemma RebuildAfterUpdateSamePaths(width: real, height: real, form: FormFields, overlay: bool)
    ensures var v := ReadForm(form); var nodes := LayoutNodes(width, height, v);
      (forall c :: c in UpdatePlan(v.mlCount > 0, v.frozenCount > 0) ==> Connects(nodes, c)) &&
      PlanPaths(nodes, RebuildPlan(nodes.Keys), overlay) == PlanPaths(nodes, UpdatePlan(v.mlCount > 0, v.frozenCount > 0), overlay)
  {
    RebuildMatchesUpdate(ReadForm(form));
  }
}
