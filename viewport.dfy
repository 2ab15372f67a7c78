/** Pan/zoom arithmetic of the cluster-node diagram, over real numbers.

    The diagram keeps a viewport record {scale, translateX, translateY}. Every handler
    reads a screen offset m (pixels from the drawing's top-left corner) as the content
    coordinate m / scale - translate, i.e. it treats the viewport as mapping a content
    coordinate p to the screen offset scale * (p + translate). */
module Viewport {

  const MinScale: real := 0.25
  const MaxScale: real := 2.5
  /** Zoom step of the zoom-in / zoom-out buttons. */
  const ButtonStep: real := 1.2

  datatype Transform = Transform(scale: real, translateX: real, translateY: real)

  ghost predicate Positive(v: Transform) { v.scale > 0.0 }

  function Min(a: real, b: real): real { if a <= b then a else b }
  function Max(a: real, b: real): real { if a >= b then a else b }

  /** The wheel zoom factor: 1.1 per step when scrolling up (deltaY < 0), 0.9 otherwise. */
  function WheelFactor(deltaY: real): (f: real)
    ensures f > 0.0
    ensures deltaY < 0.0 <==> f > 1.0
  {
    if deltaY < 0.0 then 1.1 else 0.9
  }

  /** max(0.25, min(2.5, s)): the clamp the wheel handler applies. */
  function ClampScale(s: real): (r: real)
    ensures MinScale <= r <= MaxScale
    ensures MinScale <= s <= MaxScale ==> r == s
    ensures s < MinScale ==> r == MinScale
    ensures s > MaxScale ==> r == MaxScale
  {
    Max(MinScale, Min(MaxScale, s))
  }

  /** The content coordinate the handlers attribute to screen offset m. */
  function ContentCoord(m: real, scale: real, translate: real): real
    requires scale != 0.0
  {
    m / scale - translate
  }

  /** The translate the handlers choose so that content coordinate p is read back at
      screen offset m once the scale is newScale: -(p * newScale - m) / newScale. */
  function PivotTranslate(p: real, m: real, newScale: real): (t: real)
    requires newScale != 0.0
    ensures ContentCoord(m, newScale, t) == p
  {
    DivSub(p * newScale, m, newScale);
    -(p * newScale - m) / newScale
  }

  lemma DivSub(a: real, b: real, c: real)
    requires c != 0.0
    ensures -(a - b) / c == b / c - a / c
  {}

  /** Re-anchors v at the new scale so that the content under screen point (mx, my) stays there. */
  function ZoomAbout(v: Transform, mx: real, my: real, newScale: real): (w: Transform)
    requires v.scale != 0.0 && newScale != 0.0
    ensures w.scale == newScale
    ensures ContentCoord(mx, w.scale, w.translateX) == ContentCoord(mx, v.scale, v.translateX)
    ensures ContentCoord(my, w.scale, w.translateY) == ContentCoord(my, v.scale, v.translateY)
  {
    Transform(newScale,
              PivotTranslate(ContentCoord(mx, v.scale, v.translateX), mx, newScale),
              PivotTranslate(ContentCoord(my, v.scale, v.translateY), my, newScale))
  }

  lemma ZoomAboutSameScale(v: Transform, mx: real, my: real)
    requires v.scale != 0.0
    ensures ZoomAbout(v, mx, my, v.scale) == v
  {
    var w := ZoomAbout(v, mx, my, v.scale);
    assert mx / v.scale - w.translateX == mx / v.scale - v.translateX;
    assert my / v.scale - w.translateY == my / v.scale - v.translateY;
  }

  /** One wheel event at screen offset (mx, my) (handleWheel). The translate is only
      recomputed when the clamped scale differs from the current one. */
  function WheelStep(v: Transform, mx: real, my: real, deltaY: real): (w: Transform)
    requires Positive(v)
    ensures MinScale <= w.scale <= MaxScale
    ensures w.scale == ClampScale(v.scale * WheelFactor(deltaY))
    ensures ContentCoord(mx, w.scale, w.translateX) == ContentCoord(mx, v.scale, v.translateX)
    ensures ContentCoord(my, w.scale, w.translateY) == ContentCoord(my, v.scale, v.translateY)
    ensures ClampScale(v.scale * WheelFactor(deltaY)) == v.scale ==> w == v
  {
    var newScale := ClampScale(v.scale * WheelFactor(deltaY));
    if newScale != v.scale then ZoomAbout(v, mx, my, newScale) else v
  }

  /** The zoom-in button: scale * 1.2 capped at 2.5, pivoting on the view centre. */
  function ZoomInStep(v: Transform, viewWidth: real, viewHeight: real): (w: Transform)
    requires Positive(v)
    ensures w.scale == Min(MaxScale, v.scale * ButtonStep)
    ensures w.scale >= v.scale || w.scale == MaxScale
    ensures w.scale > 0.0
    ensures ContentCoord(viewWidth / 2.0, w.scale, w.translateX) == ContentCoord(viewWidth / 2.0, v.scale, v.translateX)
    ensures ContentCoord(viewHeight / 2.0, w.scale, w.translateY) == ContentCoord(viewHeight / 2.0, v.scale, v.translateY)
  {
    ZoomAbout(v, viewWidth / 2.0, viewHeight / 2.0, Min(MaxScale, v.scale * ButtonStep))
  }

  /** The zoom-out button: scale / 1.2 floored at 0.25, pivoting on the view centre. */
  function ZoomOutStep(v: Transform, viewWidth: real, viewHeight: real): (w: Transform)
    requires Positive(v)
    ensures w.scale == Max(MinScale, v.scale / ButtonStep)
    ensures w.scale <= v.scale || w.scale == MinScale
    ensures w.scale >= MinScale
    ensures ContentCoord(viewWidth / 2.0, w.scale, w.translateX) == ContentCoord(viewWidth / 2.0, v.scale, v.translateX)
    ensures ContentCoord(viewHeight / 2.0, w.scale, w.translateY) == ContentCoord(viewHeight / 2.0, v.scale, v.translateY)
  {
    ZoomAbout(v, viewWidth / 2.0, viewHeight / 2.0, Max(MinScale, v.scale / ButtonStep))
  }

  /** After any sequence of wheel steps the scale lies in [0.25, 2.5], whatever it was before. */
  lemma {:induction false} WheelSequenceBounded(v: Transform, events: seq<(real, real, real)>)
    requires Positive(v) && |events| > 0
    ensures MinScale <= WheelAll(v, events).scale <= MaxScale
    decreases |events|
  {
    if |events| > 1 {
      WheelSequenceBounded(WheelStepOf(v, events[0]), events[1..]);
    }
  }

  function WheelStepOf(v: Transform, e: (real, real, real)): (w: Transform)
    requires Positive(v)
    ensures Positive(w)
  {
    WheelStep(v, e.0, e.1, e.2)
  }

  /** Applies wheel events (mouseX, mouseY, deltaY) in order. */
  function WheelAll(v: Transform, events: seq<(real, real, real)>): (w: Transform)
    requires Positive(v)
    ensures Positive(w)
    decreases |events|
  {
    if events == [] then v else WheelAll(WheelStepOf(v, events[0]), events[1..])
  }

  /** The pan rule: translate = drag-start translate + client delta / scale. */
  function PanTranslate(startTranslate: real, startClient: real, client: real, scale: real): real
    requires scale != 0.0
  {
    startTranslate + (client - startClient) / scale
  }

  /** Panning is computed from the drag-start snapshot: the result depends only on the
      snapshot and the latest pointer position, so intermediate moves do not accumulate. */
  lemma PanFromSnapshot(t0: real, c0: real, c1: real, c2: real, scale: real)
    requires scale != 0.0
    ensures PanTranslate(t0, c0, c2, scale) - PanTranslate(t0, c0, c1, scale) == (c2 - c1) / scale
    ensures PanTranslate(t0, c0, c0, scale) == t0
  {
    assert (c2 - c0) / scale - (c1 - c0) / scale == (c2 - c1) / scale;
  }

  // ---------------------------------------------------------------------------------
  // Screen mapping: intended (scale, then translate) and as rendered (translate, then scale).

  /** The screen offset of content coordinate p as the handlers assume it: scale * (p + t). */
  function ScreenOf(scale: real, translate: real, p: real): real
  {
    scale * (p + translate)
  }

  /** The handlers' content coordinate is exactly the inverse of ScreenOf. */
  lemma ContentCoordInvertsScreen(scale: real, translate: real, m: real)
    requires scale != 0.0
    ensures ScreenOf(scale, translate, ContentCoord(m, scale, translate)) == m
  {}

  /** Under ScreenOf, a wheel step keeps the content point under the cursor on the cursor. */
  lemma WheelPinsCursor(v: Transform, mx: real, my: real, deltaY: real)
    requires Positive(v)
    ensures var w := WheelStep(v, mx, my, deltaY);
      ScreenOf(w.scale, w.translateX, ContentCoord(mx, v.scale, v.translateX)) == mx &&
      ScreenOf(w.scale, w.translateY, ContentCoord(my, v.scale, v.translateY)) == my
  {
    var w := WheelStep(v, mx, my, deltaY);
    ContentCoordInvertsScreen(w.scale, w.translateX, mx);
    ContentCoordInvertsScreen(w.scale, w.translateY, my);
  }

  /** Under ScreenOf, a pan moves every content point by exactly the pointer delta. */
  lemma PanFollowsPointer(t0: real, c0: real, c1: real, scale: real, p: real)
    requires scale != 0.0
    ensures ScreenOf(scale, PanTranslate(t0, c0, c1, scale), p) == ScreenOf(scale, t0, p) + (c1 - c0)
  {
    assert scale * ((c1 - c0) / scale) == c1 - c0;
  }

  /** The offset the diagram root actually receives: `translate(t) scale(s)` maps p to t + s * p. */
  function RenderedScreen(scale: real, translate: real, p: real): real
  {
    translate + scale * p
  }

  /** As rendered, a wheel step from the identity viewport with the cursor at x = 100 moves the
      content point that was under the cursor from 100 to 1110/11. */
  lemma RenderedWheelMovesCursorPoint()
    ensures var v := Transform(1.0, 0.0, 0.0);
      var w := WheelStep(v, 100.0, 0.0, -1.0);
      RenderedScreen(v.scale, v.translateX, 100.0) == 100.0 &&
      RenderedScreen(w.scale, w.translateX, 100.0) == 1110.0 / 11.0 &&
      RenderedScreen(w.scale, w.translateX, 100.0) != 100.0
  {
    var v := Transform(1.0, 0.0, 0.0);
    var w := WheelStep(v, 100.0, 0.0, -1.0);
    assert ClampScale(1.1) == 1.1;
    assert w.scale == 1.1;
    assert w.translateX == -(100.0 * 1.1 - 100.0) / 1.1;
  }

  // ---------------------------------------------------------------------------------
  // Fit to content (resetView / handleResize timers and optimizeLayoutForContainer),
  // with the measured bounding box as a parameter.

  datatype BBox = BBox(x: real, y: real, width: real, height: real)

  /** scale = min(W / (bw + 2 pad), H / (bh + 2 pad), cap); translate centres the box:
      (W - bw * scale) / 2 - bx * scale, divided by scale. */
  function FitTransform(bbox: BBox, viewWidth: real, viewHeight: real, padding: real, cap: real): (v: Transform)
    requires bbox.width >= 0.0 && bbox.height >= 0.0 && padding > 0.0
    requires viewWidth > 0.0 && viewHeight > 0.0 && cap > 0.0
    ensures 0.0 < v.scale <= cap
    ensures v.scale * (bbox.width + 2.0 * padding) <= viewWidth
    ensures v.scale * (bbox.height + 2.0 * padding) <= viewHeight
  {
    var scaleX := viewWidth / (bbox.width + padding * 2.0);
    var scaleY := viewHeight / (bbox.height + padding * 2.0);
    var scale := Min(Min(scaleX, scaleY), cap);
    var centerX := (viewWidth - bbox.width * scale) / 2.0 - bbox.x * scale;
    var centerY := (viewHeight - bbox.height * scale) / 2.0 - bbox.y * scale;
    Transform(scale, centerX / scale, centerY / scale)
  }

  /** Under ScreenOf the fitted box is centred: its left margin equals its right margin,
      and likewise vertically. */
  lemma FitCentres(bbox: BBox, viewWidth: real, viewHeight: real, padding: real, cap: real)
    requires bbox.width >= 0.0 && bbox.height >= 0.0 && padding > 0.0
    requires viewWidth > 0.0 && viewHeight > 0.0 && cap > 0.0
    ensures var v := FitTransform(bbox, viewWidth, viewHeight, padding, cap);
      ScreenOf(v.scale, v.translateX, bbox.x) == viewWidth - ScreenOf(v.scale, v.translateX, bbox.x + bbox.width) &&
      ScreenOf(v.scale, v.translateY, bbox.y) == viewHeight - ScreenOf(v.scale, v.translateY, bbox.y + bbox.height)
  {
    var v := FitTransform(bbox, viewWidth, viewHeight, padding, cap);
    var s := v.scale;
    var cx := (viewWidth - bbox.width * s) / 2.0 - bbox.x * s;
    var cy := (viewHeight - bbox.height * s) / 2.0 - bbox.y * s;
    assert v.translateX == cx / s;
    assert s * (cx / s) == cx;
    assert s * (cy / s) == cy;
  }

  /** optimizeLayoutForContainer: the same centring written as (W / scale - bw) / 2 - bx. */
  function OptimizeTransform(bbox: BBox, viewWidth: real, viewHeight: real): (v: Transform)
    requires bbox.width >= 0.0 && bbox.height >= 0.0
    requires viewWidth > 0.0 && viewHeight > 0.0
    ensures 0.0 < v.scale <= 0.9
    ensures v == FitTransform(bbox, viewWidth, viewHeight, 60.0, 0.9)
  {
    var scaleX := viewWidth / (bbox.width + 60.0 * 2.0);
    var scaleY := viewHeight / (bbox.height + 60.0 * 2.0);
    var scale := Min(Min(scaleX, scaleY), 0.9);
    var v := Transform(scale, (viewWidth / scale - bbox.width) / 2.0 - bbox.x,
                              (viewHeight / scale - bbox.height) / 2.0 - bbox.y);
    FitFormsAgree(bbox, viewWidth, viewHeight, scale);
    v
  }

  lemma FitFormsAgree(bbox: BBox, viewWidth: real, viewHeight: real, scale: real)
    requires scale > 0.0
    ensures ((viewWidth - bbox.width * scale) / 2.0 - bbox.x * scale) / scale == (viewWidth / scale - bbox.width) / 2.0 - bbox.x
    ensures ((viewHeight - bbox.height * scale) / 2.0 - bbox.y * scale) / scale == (viewHeight / scale - bbox.height) / 2.0 - bbox.y
  {
    assert (bbox.width * scale) / scale == bbox.width;
    assert (bbox.x * scale) / scale == bbox.x;
    assert (bbox.height * scale) / scale == bbox.height;
    assert (bbox.y * scale) / scale == bbox.y;
  }
}
