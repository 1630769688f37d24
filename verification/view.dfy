/** The pan/zoom view of the canvas UI: the camera and drag records
    (sim/src/ui/camera.rs), the drag, wheel and touch handlers
    (sim/src/ui/input/camera_control.rs and the earlier sim/src/ui/input.rs),
    click selection (sim/src/ui/input/vehicle_selection.rs), the follow
    button (sim/src/ui/input/simulation_control.rs), the drawing rules
    (sim/src/ui/draw.rs) and the scale-less first version (sim/src/ui.rs).

    A world point p is drawn at `(p - pan) * scale`; a screen point q is the
    world point `q / scale + pan`. The camera record carries the selected
    vehicle and the follow flag, which the code that reads and writes the
    camera relies on. */
module View {
  import opened Common
  import opened SimVehicle

  datatype Camera = Camera(panX: real, panY: real, scale: real, selected: Option<nat>, followMode: bool)

  datatype DragState = DragState(dragging: bool, lastX: real, lastY: real)

  const MinScale: real := 0.1
  const MaxScale: real := 50.0

  predicate ValidScale(s: real) {
    MinScale <= s <= MaxScale
  }

  /** The camera at start-up: no pan, scale 1, nothing selected, not
      following. */
  function InitialCamera(): (c: Camera)
    ensures c.panX == 0.0 && c.panY == 0.0 && ValidScale(c.scale)
    ensures c.selected.None? && !c.followMode
  {
    Camera(0.0, 0.0, 1.0, None, false)
  }

  /** The drag state at start-up: not dragging, last position (0,0). */
  function InitialDrag(): (d: DragState)
    ensures !d.dragging && d.lastX == 0.0 && d.lastY == 0.0
  {
    DragState(false, 0.0, 0.0)
  }

  /** Where a world point is drawn. */
  function WorldToScreen(c: Camera, p: Point): Point {
    Point((p.x - c.panX) * c.scale, (p.y - c.panY) * c.scale)
  }

  /** The world point under a screen point. */
  function ScreenToWorld(c: Camera, q: Point): Point
    requires c.scale > 0.0
  {
    Point(q.x / c.scale + c.panX, q.y / c.scale + c.panY)
  }

  /** The two conversions are inverse to each other. */
  lemma ScreenWorldInverse(c: Camera, p: Point, q: Point)
    requires c.scale > 0.0
    ensures ScreenToWorld(c, WorldToScreen(c, p)) == p
    ensures WorldToScreen(c, ScreenToWorld(c, q)) == q
  {
  }

  /** Mouse down (or a one-finger touch start): start dragging here. */
  function PressAt(d: DragState, x: real, y: real): (r: DragState)
    ensures r.dragging && r.lastX == x && r.lastY == y
  {
    DragState(true, x, y)
  }

  /** Mouse up: stop dragging, keep the last position. */
  function Release(d: DragState): (r: DragState)
    ensures !r.dragging && r.lastX == d.lastX && r.lastY == d.lastY
  {
    d.(dragging := false)
  }

  /** A mouse move (or one-finger touch move) to (x, y): while dragging,
      the pan moves against the pointer by the distance divided by the
      scale and the new position is recorded; otherwise nothing changes. */
  function DragMove(c: Camera, d: DragState, x: real, y: real): (r: (Camera, DragState))
    requires c.scale > 0.0
    ensures !d.dragging ==> r == (c, d)
    ensures d.dragging ==> r.1 == DragState(true, x, y)
    ensures r.0.scale == c.scale && r.0.selected == c.selected && r.0.followMode == c.followMode
  {
    if !d.dragging then (c, d)
    else
      var dx := x - d.lastX;
      var dy := y - d.lastY;
      (c.(panX := c.panX - dx / c.scale, panY := c.panY - dy / c.scale), DragState(true, x, y))
  }

  /** Dragging keeps the world point under the pointer: the point now
      under the pointer is the one that was under it before the move. */
  lemma DragKeepsGrip(c: Camera, d: DragState, x: real, y: real)
    requires c.scale > 0.0 && d.dragging
    ensures var r := DragMove(c, d, x, y);
            ScreenToWorld(r.0, Point(x, y)) == ScreenToWorld(c, Point(d.lastX, d.lastY))
  {
    var r := DragMove(c, d, x, y);
    assert (x - d.lastX) / c.scale == x / c.scale - d.lastX / c.scale;
    assert (y - d.lastY) / c.scale == y / c.scale - d.lastY / c.scale;
  }

  /** Two moves of one drag pan as far as one move to the final position. */
  lemma DragComposes(c: Camera, d: DragState, x1: real, y1: real, x2: real, y2: real)
    requires c.scale > 0.0 && d.dragging
    ensures var m := DragMove(c, d, x1, y1);
            DragMove(m.0, m.1, x2, y2) == DragMove(c, d, x2, y2)
  {
    assert (x1 - d.lastX) / c.scale + (x2 - x1) / c.scale == (x2 - d.lastX) / c.scale;
    assert (y1 - d.lastY) / c.scale + (y2 - y1) / c.scale == (y2 - d.lastY) / c.scale;
  }

  /** The clamp of every zoom handler. */
  function ClampScale(s: real): (r: real)
    ensures ValidScale(r)
    ensures ValidScale(s) ==> r == s
  {
    if s < MinScale then MinScale else if s > MaxScale then MaxScale else s
  }

  /** A wheel event: zoom in by 1.1 for a negative delta, out by 0.9 for
      any other, then clamp. Only the scale changes. */
  function Wheel(c: Camera, delta: real): (r: Camera)
    ensures ValidScale(r.scale)
    ensures r.(scale := c.scale) == c
  {
    c.(scale := ClampScale(if delta < 0.0 then c.scale * 1.1 else c.scale * 0.9))
  }

  /** Within the clamp range, a negative delta never zooms out and any
      other delta never zooms in. */
  lemma WheelDirection(c: Camera, delta: real)
    requires ValidScale(c.scale)
    ensures delta < 0.0 ==> Wheel(c, delta).scale >= c.scale
    ensures delta >= 0.0 ==> Wheel(c, delta).scale <= c.scale
  {
  }

  /** Touch bookkeeping: the drag state and the last two-finger distance
      (0 when no pinch is in progress). */
  datatype TouchState = TouchState(drag: DragState, prevDistance: real)

  /** A touch start with `touches` fingers: two fingers record their
      distance, one finger starts a drag at its position. */
  function TouchStart(t: TouchState, touches: nat, x: real, y: real, distance: real): (r: TouchState)
    ensures touches == 2 ==> r == t.(prevDistance := distance)
    ensures touches == 1 ==> r == t.(drag := PressAt(t.drag, x, y))
    ensures touches != 1 && touches != 2 ==> r == t
  {
    if touches == 2 then t.(prevDistance := distance)
    else if touches == 1 then t.(drag := PressAt(t.drag, x, y))
    else t
  }

  /** The scale after a pinch step with zoom factor `f`: multiplied when
      the factor differs from 1, then clamped. */
  function PinchScale(scale: real, f: real): real {
    ClampScale(if f > 1.0 then scale * f else if f < 1.0 then scale * f else scale)
  }

  /** The three branches of the pinch step are one multiplication. */
  lemma PinchIsScaling(scale: real, f: real)
    ensures PinchScale(scale, f) == ClampScale(scale * f)
  {
  }

  /** A touch move: with two fingers and a recorded distance the scale is
      multiplied by `distance / previous` and clamped, and the distance
      is recorded; with one finger it is a drag move. */
  function TouchMove(c: Camera, t: TouchState, touches: nat, x: real, y: real, distance: real): (r: (Camera, TouchState))
    requires c.scale > 0.0
    ensures touches == 2 && t.prevDistance > 0.0 ==>
              r.0 == c.(scale := ClampScale(c.scale * (distance / t.prevDistance))) && ValidScale(r.0.scale)
    ensures touches == 2 && t.prevDistance <= 0.0 ==> r.0 == c
    ensures touches == 2 ==> r.1 == t.(prevDistance := distance)
    ensures touches == 1 ==> (r.0, r.1.drag) == DragMove(c, t.drag, x, y) && r.1.prevDistance == t.prevDistance
    ensures touches != 1 && touches != 2 ==> r == (c, t)
  {
    if touches == 2 then
      var cam := if t.prevDistance > 0.0 then c.(scale := PinchScale(c.scale, distance / t.prevDistance)) else c;
      PinchIsScaling(c.scale, if t.prevDistance > 0.0 then distance / t.prevDistance else 1.0);
      (cam, t.(prevDistance := distance))
    else if touches == 1 then
      var m := DragMove(c, t.drag, x, y);
      (m.0, t.(drag := m.1))
    else (c, t)
  }

  /** A touch end: when no finger remains, dragging stops and the pinch
      distance is forgotten. */
  function TouchEnd(t: TouchState, remaining: nat): (r: TouchState)
    ensures remaining == 0 ==> !r.drag.dragging && r.prevDistance == 0.0
    ensures remaining > 0 ==> r == t
  {
    if remaining == 0 then TouchState(Release(t.drag), 0.0) else t
  }

  /** A touch cancel: always stops dragging and forgets the distance. */
  function TouchCancel(t: TouchState): (r: TouchState)
    ensures !r.drag.dragging && r.prevDistance == 0.0
  {
    TouchState(Release(t.drag), 0.0)
  }

  /** Every handler keeps a positive scale, and a scale in the clamp range
      stays there, so the start-up camera never sees a zero scale. */
  lemma HandlersKeepScale(c: Camera, d: DragState, t: TouchState, touches: nat, x: real, y: real,
                          delta: real, distance: real)
    requires ValidScale(c.scale)
    ensures ValidScale(DragMove(c, d, x, y).0.scale)
    ensures ValidScale(Wheel(c, delta).scale)
    ensures ValidScale(TouchMove(c, t, touches, x, y, distance).0.scale)
  {
  }

  // ----- selection -----

  function DistSq(p: Point, q: Point): real {
    (p.x - q.x) * (p.x - q.x) + (p.y - q.y) * (p.y - q.y)
  }

  /** The largest finite `f32`, the starting "closest distance". */
  const F32Max: real := 340282346638528859811704183484516925440.0

  /** A vehicle the click may select: strictly within the threshold (and
      below the starting distance). */
  predicate Eligible(vehicles: seq<Vehicle>, w: Point, limit: real, i: nat)
    requires i < |vehicles|
  {
    var dd := DistSq(Point(vehicles[i].x, vehicles[i].y), w);
    dd < limit && dd < F32Max
  }

  /** The selection loop: the eligible vehicle nearest to `w`, the first
      one on ties, or none when no vehicle is eligible. */
  method PickNearest(vehicles: seq<Vehicle>, w: Point, limit: real) returns (r: Option<nat>)
    ensures r.None? <==> forall j :: 0 <= j < |vehicles| ==> !Eligible(vehicles, w, limit, j)
    ensures r.Some? ==> r.value < |vehicles| && Eligible(vehicles, w, limit, r.value)
    ensures r.Some? ==> forall j :: 0 <= j < |vehicles| && Eligible(vehicles, w, limit, j) ==>
              DistSq(Point(vehicles[r.value].x, vehicles[r.value].y), w) <= DistSq(Point(vehicles[j].x, vehicles[j].y), w)
    ensures r.Some? ==> forall j :: 0 <= j < r.value && Eligible(vehicles, w, limit, j) ==>
              DistSq(Point(vehicles[r.value].x, vehicles[r.value].y), w) < DistSq(Point(vehicles[j].x, vehicles[j].y), w)
  {
    r := None;
    var best := F32Max;
    var i := 0;
    while i < |vehicles|
      invariant 0 <= i <= |vehicles|
      invariant r.None? <==> forall j :: 0 <= j < i ==> !Eligible(vehicles, w, limit, j)
      invariant r.None? ==> best == F32Max
      invariant r.Some? ==> r.value < i && Eligible(vehicles, w, limit, r.value)
                            && best == DistSq(Point(vehicles[r.value].x, vehicles[r.value].y), w)
      invariant forall j :: 0 <= j < i && Eligible(vehicles, w, limit, j) ==>
                  best <= DistSq(Point(vehicles[j].x, vehicles[j].y), w)
      invariant r.Some? ==> forall j :: 0 <= j < r.value && Eligible(vehicles, w, limit, j) ==>
                  best < DistSq(Point(vehicles[j].x, vehicles[j].y), w)
    {
      var dd := DistSq(Point(vehicles[i].x, vehicles[i].y), w);
      assert Eligible(vehicles, w, limit, i) <==> dd < limit && dd < F32Max;
      if dd < limit && dd < best {
        r := Some(i);
        best := dd;
      }
      i := i + 1;
    }
  }

  /** The squared selection radius: ten screen pixels, in world units. */
  function ClickLimit(c: Camera): real
    requires c.scale > 0.0
  {
    (10.0 / c.scale) * (10.0 / c.scale)
  }

  /** A click at screen point `q`: ignored while dragging; otherwise the
      nearest vehicle strictly within `10 / scale` of the world point under
      the click becomes the selection (or none). With no selection and a
      follow button on the page, follow mode is switched off. */
  method Click(c: Camera, d: DragState, vehicles: seq<Vehicle>, q: Point, hasFollowButton: bool) returns (r: Camera)
    requires c.scale > 0.0
    ensures d.dragging ==> r == c
    ensures !d.dragging ==> r.panX == c.panX && r.panY == c.panY && r.scale == c.scale
    ensures !d.dragging && r.selected.Some? ==>
              && r.selected.value < |vehicles|
              && DistSq(Point(vehicles[r.selected.value].x, vehicles[r.selected.value].y), ScreenToWorld(c, q)) < ClickLimit(c)
    ensures !d.dragging ==> (r.selected.None? <==>
              forall j :: 0 <= j < |vehicles| ==> !Eligible(vehicles, ScreenToWorld(c, q), ClickLimit(c), j))
    ensures !d.dragging ==> r.followMode == (c.followMode && (r.selected.Some? || !hasFollowButton))
  {
    if d.dragging {
      return c;
    }
    var w := ScreenToWorld(c, q);
    var threshold := 10.0 / c.scale;
    var picked := PickNearest(vehicles, w, threshold * threshold);
    assert threshold * threshold == ClickLimit(c);
    r := c.(selected := picked);
    if hasFollowButton && picked.None? {
      r := r.(followMode := false);
    }
  }

  /** The follow button: flips follow mode only while a vehicle is
      selected. */
  function FollowToggle(c: Camera): (r: Camera)
    ensures c.selected.Some? ==> r == c.(followMode := !c.followMode)
    ensures c.selected.None? ==> r == c
  {
    if c.selected.Some? then c.(followMode := !c.followMode) else c
  }

  /** Follow recentring: with follow mode on, a selected vehicle that
      exists and a canvas of `width` x `height`, the pan is set so the
      vehicle is drawn at the centre of the canvas; otherwise nothing
      changes. */
  function Follow(c: Camera, vehicles: seq<Vehicle>, canvas: Option<Point>): (r: Camera)
    requires c.scale > 0.0
    ensures r.scale == c.scale && r.selected == c.selected && r.followMode == c.followMode
    ensures !(c.followMode && c.selected.Some? && c.selected.value < |vehicles| && canvas.Some?) ==> r == c
  {
    if c.followMode && c.selected.Some? && c.selected.value < |vehicles| && canvas.Some? then
      var v := vehicles[c.selected.value];
      c.(panX := v.x - canvas.value.x / c.scale / 2.0, panY := v.y - canvas.value.y / c.scale / 2.0)
    else c
  }

  /** Vehicle `v` is drawn at the centre of a canvas of size `canvas`. */
  predicate DrawnAtCentre(c: Camera, v: Vehicle, canvas: Point) {
    WorldToScreen(c, Point(v.x, v.y)) == Point(canvas.x / 2.0, canvas.y / 2.0)
  }

  /** After recentring, the followed vehicle is drawn at the canvas centre. */
  lemma FollowCentres(c: Camera, vehicles: seq<Vehicle>, canvas: Point)
    requires c.scale > 0.0 && c.followMode && c.selected.Some? && c.selected.value < |vehicles|
    ensures DrawnAtCentre(Follow(c, vehicles, Some(canvas)), vehicles[c.selected.value], canvas)
  {
    var v := vehicles[c.selected.value];
    var r := Follow(c, vehicles, Some(canvas));
    assert v.x - r.panX == canvas.x / c.scale / 2.0;
    assert v.y - r.panY == canvas.y / c.scale / 2.0;
  }

  // ----- drawing rules -----

  /** Stroke colour of a route line: the first ten routes are train
      routes. */
  function RouteStroke(i: nat): string {
    if i < 10 then "rgba(255, 0, 0, 0.4)" else "rgba(0, 0, 255, 0.4)"
  }

  /** Whether a route is drawn at all. */
  predicate RouteDrawn(r: Route) {
    |r.stations| >= 2
  }

  /** Unscaled radius of station `idx` of route `i` with `n` stations: 5
      for train routes and for bus terminals, 2 for the other bus stops. */
  function StationRadius(i: nat, idx: nat, n: nat): (rad: real)
    ensures i < 10 ==> rad == 5.0
    ensures i >= 10 ==> (rad == 5.0 <==> idx == 0 || idx + 1 == n)
    ensures rad == 5.0 || rad == 2.0
  {
    var terminal := i >= 10 && (idx == 0 || idx == n - 1);
    if terminal || i < 10 then 5.0 else 2.0
  }

  /** What is drawn for one vehicle: centre, radius, fill and whether the
      highlight ring is drawn. */
  datatype Mark = Mark(centre: Point, radius: real, fill: string, ring: bool)

  function VehicleFill(t: VehicleType, selected: bool): string {
    match t
    case Bus => if selected then "lime" else "blue"
    case Train => if selected then "orange" else "red"
  }

  /** `draw_vehicles`: one mark per vehicle, at its screen position. */
  function VehicleMarks(c: Camera, vehicles: seq<Vehicle>): (m: seq<Mark>)
    ensures |m| == |vehicles|
    ensures forall i :: 0 <= i < |m| ==> m[i].centre == WorldToScreen(c, Point(vehicles[i].x, vehicles[i].y))
    ensures forall i :: 0 <= i < |m| ==> (m[i].ring <==> c.selected == Some(i))
    ensures forall i :: 0 <= i < |m| ==> m[i].radius == (if c.selected == Some(i) then 3.0 else 2.0) * c.scale
  {
    seq(|vehicles|, i requires 0 <= i < |vehicles| =>
      var sel := c.selected == Some(i);
      Mark(WorldToScreen(c, Point(vehicles[i].x, vehicles[i].y)), (if sel then 3.0 else 2.0) * c.scale,
           VehicleFill(vehicles[i].vehicleType, sel), sel))
  }

  /** Exactly one ring is drawn when the selection names a vehicle, and
      none otherwise. */
  lemma OneRing(c: Camera, vehicles: seq<Vehicle>)
    ensures var m := VehicleMarks(c, vehicles);
            CountWhere(m, (k: Mark) => k.ring) == if c.selected.Some? && c.selected.value < |vehicles| then 1 else 0
  {
    var m := VehicleMarks(c, vehicles);
    var ringed := (k: Mark) => k.ring;
    if c.selected.Some? && c.selected.value < |vehicles| {
      ExactlyOne(m, ringed, c.selected.value);
    } else {
      NoneCounted(m, ringed);
    }
  }

  /** The first version's camera has no scale: stations and vehicles are
      drawn at `world - pan`, which is the scaled transform at scale 1. */
  function LegacyScreen(panX: real, panY: real, p: Point): (q: Point)
    ensures q == WorldToScreen(Camera(panX, panY, 1.0, None, false), p)
  {
    Point(p.x - panX, p.y - panY)
  }

  /** The first version's drag subtracts the raw pointer movement, which
      is the scaled drag at scale 1. */
  function LegacyDragMove(panX: real, panY: real, d: DragState, x: real, y: real): (r: (real, real, DragState))
    ensures var m := DragMove(Camera(panX, panY, 1.0, None, false), d, x, y);
            r == (m.0.panX, m.0.panY, m.1)
  {
    if !d.dragging then (panX, panY, d)
    else (panX - (x - d.lastX), panY - (y - d.lastY), DragState(true, x, y))
  }

  /** The first version fills buses blue and trains red, the unselected
      colours of the current one, and colours the first ten routes as
      train routes. */
  function LegacyFill(t: VehicleType): (s: string)
    ensures s == VehicleFill(t, false)
  {
    match t
    case Bus => "blue"
    case Train => "red"
  }

  function LegacyRouteFill(i: nat): (s: string)
    ensures s == "rgba(255, 150, 150, 0.6)" <==> i < 10
  {
    if i < 10 then "rgba(255, 150, 150, 0.6)" else "rgba(150, 150, 255, 0.6)"
  }
}
