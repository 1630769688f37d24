/** The running side of the map crate's simulation
    (map/src/app/simulation/mod.rs and state.rs): the shared simulation
    state and its accessors, the per-tick position update with its pause
    gate, the assignment of real-time vehicles to routes, and the cascade
    from real-time data to TfL geometry to the sample routes. */
module MapSimulation {
  import opened Common
  import opened Kinematics
  import SimVehicle
  import opened MapModel

  /** `SimulationState`; its default is empty, running and without a
      timer. */
  datatype SimulationState = SimulationState(
    vehicles: seq<MapVehicle>,
    routes: seq<MapRoute>,
    isPaused: bool,
    animationFrameId: Option<int>)

  function DefaultState(): (s: SimulationState)
    ensures |s.vehicles| == 0 && |s.routes| == 0 && !s.isPaused && s.animationFrameId.None?
  {
    SimulationState([], [], false, None)
  }

  /** `initialize_state`: routes and vehicles replaced, running, and the
      timer forgotten, whatever the state was before. */
  function InitializeState(s: SimulationState, routes: seq<MapRoute>, vehicles: seq<MapVehicle>): (r: SimulationState)
    ensures r.routes == routes && r.vehicles == vehicles && !r.isPaused && r.animationFrameId.None?
  {
    s.(routes := routes, vehicles := vehicles, isPaused := false, animationFrameId := None)
  }

  /** The previous state leaves no trace. */
  lemma InitializeStateForgets(s: SimulationState, t: SimulationState, routes: seq<MapRoute>, vehicles: seq<MapVehicle>)
    ensures InitializeState(s, routes, vehicles) == InitializeState(t, routes, vehicles)
    ensures GetVehicleCount(InitializeState(s, routes, vehicles)) == |vehicles|
  {
  }

  /** `set_animation_frame_id`: only the timer id changes. */
  function SetAnimationFrameId(s: SimulationState, id: int): (r: SimulationState)
    ensures r.animationFrameId == Some(id)
    ensures r.(animationFrameId := s.animationFrameId) == s
  {
    s.(animationFrameId := Some(id))
  }

  function GetAnimationFrameId(s: SimulationState): Option<int> {
    s.animationFrameId
  }

  /** The id read back is the one last set. */
  lemma FrameIdRoundTrip(s: SimulationState, id: int, other: int)
    ensures GetAnimationFrameId(SetAnimationFrameId(s, id)) == Some(id)
    ensures SetAnimationFrameId(SetAnimationFrameId(s, other), id) == SetAnimationFrameId(s, id)
  {
  }

  /** `toggle_pause`: flips the flag and reports the new value. */
  function TogglePause(s: SimulationState): (r: (SimulationState, bool))
    ensures r.1 == r.0.isPaused && r.0.isPaused == !s.isPaused
    ensures r.0.(isPaused := s.isPaused) == s
  {
    var t := s.(isPaused := !s.isPaused);
    (t, t.isPaused)
  }

  function IsPaused(s: SimulationState): bool {
    s.isPaused
  }

  /** Two toggles restore the state. */
  lemma ToggleTwice(s: SimulationState)
    ensures TogglePause(TogglePause(s).0).0 == s
    ensures IsPaused(TogglePause(s).0) != IsPaused(s)
  {
  }

  /** `get_vehicle_count`. */
  function GetVehicleCount(s: SimulationState): nat {
    |s.vehicles|
  }

  // ---------------------------------------------------------------------
  // Position update

  /** The vehicle can be moved along its route without indexing outside it. */
  predicate Movable(v: MapVehicle, route: MapRoute) {
    Indexable(MotionOf(v), |route.stations|)
  }

  /** Reference result of updating one vehicle: the kinematic step, then
      the longitude and latitude interpolated between the two stations. */
  function MapAdvance(v: MapVehicle, route: MapRoute): (r: MapVehicle)
    requires Movable(v, route)
    ensures Movable(r, route)
    ensures OnSegment(MotionOf(v), |route.stations|) ==> OnSegment(MotionOf(r), |route.stations|)
    ensures r.(direction := v.direction, lastStation := v.lastStation, nextStation := v.nextStation,
               position := v.position, lng := v.lng, lat := v.lat) == v
    ensures r.position < 1.0
    ensures 0.0 <= v.position && 0.0 <= v.speed ==>
              0.0 <= r.position && Between(Point(r.lng, r.lat), route.stations[r.lastStation], route.stations[r.nextStation])
  {
    var m := Step(MotionOf(v), v.speed, |route.stations|);
    var p := Locate(route.stations, m);
    v.(direction := m.direction, lastStation := m.last, nextStation := m.next,
       position := m.fraction, lng := p.x, lat := p.y)
  }

  /** The body of the loop of `update_vehicle_positions` for one vehicle:
      add the speed; on each arrival step on, and when the following index
      leaves the route, flip the direction and recompute it; then
      interpolate. It computes exactly `MapAdvance`. */
  method UpdateVehiclePosition(v: MapVehicle, route: MapRoute) returns (r: MapVehicle)
    requires Movable(v, route)
    ensures r == MapAdvance(v, route)
  {
    var n := |route.stations|;
    var position := v.position + v.speed;
    var last: int := v.lastStation;
    var next: int := v.nextStation;
    var direction := v.direction;
    while position >= 1.0
      invariant Indexable(Motion(direction, last, next, position), n)
      invariant Settle(Motion(direction, last, next, position), n) == Step(MotionOf(v), v.speed, n)
      decreases Arrivals(position)
    {
      ghost var before := Motion(direction, last, next, position);
      position := position - 1.0;
      last := next;
      var candidate := last + direction;
      if candidate < 0 || candidate >= n {
        direction := direction * -1;
        next := last + direction;
      } else {
        next := candidate;
      }
      assert Motion(direction, last, next, position) == Arrive(before, n);
    }
    MapAdvanceFrom(v, route, direction, last, next, position);
    r := v.(position := position, direction := direction, lastStation := last, nextStation := next,
            lng := route.stations[last].x + (route.stations[next].x - route.stations[last].x) * position,
            lat := route.stations[last].y + (route.stations[next].y - route.stations[last].y) * position);
  }

  /** `MapAdvance` spelled out from the settled motion. */
  lemma MapAdvanceFrom(v: MapVehicle, route: MapRoute, direction: int, last: int, next: int, position: real)
    requires Movable(v, route)
    requires Motion(direction, last, next, position) == Step(MotionOf(v), v.speed, |route.stations|)
    ensures 0 <= last < |route.stations| && 0 <= next < |route.stations|
    ensures MapAdvance(v, route)
              == v.(position := position, direction := direction, lastStation := last, nextStation := next,
                    lng := route.stations[last].x + (route.stations[next].x - route.stations[last].x) * position,
                    lat := route.stations[last].y + (route.stations[next].y - route.stations[last].y) * position)
  {
  }

  /** The map copy and the canvas copy of the kinematics agree: moving a
      vehicle on the map is moving the corresponding canvas vehicle. */
  lemma MapAndCanvasAgree(v: MapVehicle, route: MapRoute)
    requires Movable(v, route)
    ensures var c := SimVehicle.Vehicle(v.vehicleType, v.routeIndex, v.direction, v.lastStation, v.nextStation,
                                        v.position, v.speed, v.lng, v.lat);
            var a := SimVehicle.Advance(c, SimVehicle.Route(route.stations));
            var m := MapAdvance(v, route);
            && a.direction == m.direction && a.lastStation == m.lastStation && a.nextStation == m.nextStation
            && a.fraction == m.position && a.x == m.lng && a.y == m.lat
  {
  }

  /** Every vehicle refers to an existing route along which it can move. */
  predicate FleetMovable(routes: seq<MapRoute>, vehicles: seq<MapVehicle>) {
    forall i :: 0 <= i < |vehicles| ==>
      vehicles[i].routeIndex < |routes| && Movable(vehicles[i], routes[vehicles[i].routeIndex])
  }

  lemma OnSegmentIsMovable(routes: seq<MapRoute>, vehicles: seq<MapVehicle>)
    requires FleetOnSegment(routes, vehicles)
    ensures FleetMovable(routes, vehicles)
  {
  }

  /** `update_vehicle_positions`: every vehicle is moved once, along the
      route at its `route_index`, in fleet order. */
  method UpdateVehiclePositions(s: SimulationState) returns (r: SimulationState)
    requires FleetMovable(s.routes, s.vehicles)
    ensures r.routes == s.routes && r.isPaused == s.isPaused && r.animationFrameId == s.animationFrameId
    ensures |r.vehicles| == |s.vehicles|
    ensures forall i :: 0 <= i < |r.vehicles| ==> r.vehicles[i] == MapAdvance(s.vehicles[i], s.routes[s.vehicles[i].routeIndex])
    ensures FleetMovable(r.routes, r.vehicles)
    ensures FleetOnSegment(s.routes, s.vehicles) ==> FleetOnSegment(r.routes, r.vehicles)
  {
    var vehicles := [];
    var i := 0;
    while i < |s.vehicles|
      invariant 0 <= i <= |s.vehicles| && |vehicles| == i
      invariant forall j :: 0 <= j < i ==> vehicles[j] == MapAdvance(s.vehicles[j], s.routes[s.vehicles[j].routeIndex])
    {
      var v := UpdateVehiclePosition(s.vehicles[i], s.routes[s.vehicles[i].routeIndex]);
      vehicles := vehicles + [v];
      i := i + 1;
    }
    r := s.(vehicles := vehicles);
  }

  /** One tick of the interval: a paused simulation is left alone,
      otherwise every vehicle moves; the interval always continues. */
  method Tick(s: SimulationState) returns (r: SimulationState, continues: bool)
    requires FleetMovable(s.routes, s.vehicles)
    ensures continues
    ensures s.isPaused ==> r == s
    ensures GetVehicleCount(r) == GetVehicleCount(s)
    ensures !s.isPaused ==>
              forall i :: 0 <= i < |r.vehicles| ==> r.vehicles[i] == MapAdvance(s.vehicles[i], s.routes[s.vehicles[i].routeIndex])
    ensures r.routes == s.routes && r.isPaused == s.isPaused && r.animationFrameId == s.animationFrameId
    ensures FleetMovable(r.routes, r.vehicles)
    ensures FleetOnSegment(s.routes, s.vehicles) ==> FleetOnSegment(r.routes, r.vehicles)
  {
    r := s;
    if !s.isPaused {
      r := UpdateVehiclePositions(s);
    }
    continues := true;
  }

  // ---------------------------------------------------------------------
  // Route assignment and the data-source cascade

  /** Index of the first route of line `lineId`. */
  function FirstRouteOf(routes: seq<MapRoute>, lineId: string): (r: Option<nat>)
    ensures r.Some? ==> r.value < |routes| && routes[r.value].lineId == lineId &&
                        forall j :: 0 <= j < r.value ==> routes[j].lineId != lineId
    ensures r.None? ==> forall j :: 0 <= j < |routes| ==> routes[j].lineId != lineId
  {
    if |routes| == 0 then None
    else
      match FirstRouteOf(routes[..|routes| - 1], lineId)
      case Some(i) => Some(i)
      case None => if routes[|routes| - 1].lineId == lineId then Some(|routes| - 1) else None
  }

  /** The inner loop of the assignment: a vehicle takes the id of the first
      route of its line and keeps its index when there is none. */
  function AssignRoute(routes: seq<MapRoute>, v: MapVehicle): (r: MapVehicle)
    ensures r.(routeIndex := v.routeIndex) == v
  {
    match FirstRouteOf(routes, v.lineId)
    case Some(i) => v.(routeIndex := routes[i].id)
    case None => v
  }

  /** The assignment loop over every real-time vehicle. */
  function AssignRoutes(routes: seq<MapRoute>, vehicles: seq<MapVehicle>): (r: seq<MapVehicle>)
    ensures |r| == |vehicles| && forall i :: 0 <= i < |r| ==> r[i] == AssignRoute(routes, vehicles[i])
  {
    seq(|vehicles|, i requires 0 <= i < |vehicles| => AssignRoute(routes, vehicles[i]))
  }

  /** On routes numbered by position, a vehicle whose line has a route ends
      up on the first route of that line, and any other keeps its index. */
  lemma AssignedToOwnLine(routes: seq<MapRoute>, v: MapVehicle)
    requires IdsArePositions(routes)
    ensures var r := AssignRoute(routes, v);
            && ((exists j :: 0 <= j < |routes| && routes[j].lineId == v.lineId) ==>
                  r.routeIndex < |routes| && routes[r.routeIndex].lineId == v.lineId &&
                  forall j :: 0 <= j < r.routeIndex ==> routes[j].lineId != v.lineId)
            && ((forall j :: 0 <= j < |routes| ==> routes[j].lineId != v.lineId) ==> r == v)
  {
  }

  /** Real-time vehicles on the placeholder routes: whatever their line,
      they sit on the first segment of an existing two-station route. */
  lemma RealTimeFleetOnSegment(vehicles: seq<MapVehicle>)
    requires forall i :: 0 <= i < |vehicles| ==> RealTimeShape(vehicles[i])
    ensures var routes := CreateSimpleRoutesForRealTime();
            FleetOnSegment(routes, AssignRoutes(routes, vehicles))
  {
    var routes := CreateSimpleRoutesForRealTime();
    var r := AssignRoutes(routes, vehicles);
    forall i | 0 <= i < |r|
      ensures r[i].routeIndex < |routes| && OnSegment(MotionOf(r[i]), |routes[r[i].routeIndex].stations|)
    {
      assert r[i] == AssignRoute(routes, vehicles[i]);
      assert RealTimeShape(vehicles[i]);
    }
  }

  /** `start_animation_loop` after `initialize_state`: the id of the new
      JavaScript interval, or 0 when the script fails, is stored where the
      animation frame id goes. The script itself is not modelled; `timerId`
      is the value it hands back. */
  function StartAnimationLoop(s: SimulationState, timerId: int): (r: SimulationState)
    ensures r.animationFrameId == Some(timerId)
    ensures r.(animationFrameId := s.animationFrameId) == s
  {
    SetAnimationFrameId(s, timerId)
  }

  /** `use_fallback_data`: routes from the TfL data when present, else the
      samples; two vehicles per route; the state replaced and the loop
      started. */
  function UseFallbackData(s: SimulationState, tfl: Option<TflRouteData>, rng: nat -> real, cursor: nat, timerId: int): (r: (SimulationState, nat))
    ensures |r.0.routes| > 0 && IdsArePositions(r.0.routes) && AllTravelable(r.0.routes)
    ensures |r.0.vehicles| == 2 * |r.0.routes| && FleetOnSegment(r.0.routes, r.0.vehicles)
    ensures !r.0.isPaused && r.0.animationFrameId == Some(timerId)
    ensures tfl.None? ==> r.0.routes == BuildSampleRoutes()
    ensures tfl.Some? ==> r.0.routes == BuildRoutesFromTflData(tfl.value)
  {
    var routes := match tfl
      case Some(data) => BuildRoutesFromTflData(data)
      case None => BuildSampleRoutes();
    var built := InitializeVehicles(routes, rng, cursor);
    (StartAnimationLoop(InitializeState(s, routes, built.0), timerId), built.1)
  }

  /** `use_real_time_data` with the fetched arrivals of each primary line:
      real-time vehicles on placeholder routes when any could be built,
      and the fallback otherwise; either way the loop is started. */
  function UseRealTimeData(s: SimulationState, fetches: seq<Fetch>, tfl: Option<TflRouteData>, rng: nat -> real, cursor: nat, timerId: int): (r: (SimulationState, nat))
    ensures !r.0.isPaused && r.0.animationFrameId == Some(timerId)
    ensures FleetOnSegment(r.0.routes, r.0.vehicles)
    ensures CompleteCount(fetches) > 0 ==>
              r.0.routes == CreateSimpleRoutesForRealTime() && |r.0.vehicles| == CompleteCount(fetches)
    ensures CompleteCount(fetches) == 0 ==>
              var skipped := BuildRealTimeVehicles(fetches, rng, cursor).1;
              r == UseFallbackData(s, tfl, rng, skipped, timerId)
  {
    var built := BuildRealTimeVehicles(fetches, rng, cursor);
    match built.0
    case Ok(vehicles) =>
      var routes := CreateSimpleRoutesForRealTime();
      RealTimeFleetOnSegment(vehicles);
      (StartAnimationLoop(InitializeState(s, routes, AssignRoutes(routes, vehicles)), timerId), built.1)
    case Err(_) => UseFallbackData(s, tfl, rng, built.1, timerId)
  }

  /** What a reset does: whether it cancels a recorded interval first, and
      the state it starts again from. */
  datatype Reset = Reset(cancelled: bool, state: SimulationState, cursor: nat)

  /** `reset_simulation`: the recorded interval, if any, is cancelled, and
      the simulation is started again from scratch, so the new state does
      not depend on the state being reset; it runs under the new timer. */
  function ResetSimulation(s: SimulationState, fetches: seq<Fetch>, tfl: Option<TflRouteData>, rng: nat -> real, cursor: nat, timerId: int): (r: Reset)
    ensures r.cancelled <==> GetAnimationFrameId(s).Some?
    ensures forall t: SimulationState :: UseRealTimeData(t, fetches, tfl, rng, cursor, timerId) == (r.state, r.cursor)
    ensures !r.state.isPaused && r.state.animationFrameId == Some(timerId)
  {
    var started := UseRealTimeData(s, fetches, tfl, rng, cursor, timerId);
    Reset(s.animationFrameId.Some?, started.0, started.1)
  }

  /** Once the simulation has been started, a reset always finds the
      interval id recorded and cancels it before starting a new one; only
      a reset of the default state has nothing to cancel. */
  lemma ResetAfterStartCancels(s: SimulationState, fetches: seq<Fetch>, tfl: Option<TflRouteData>, rng: nat -> real,
                               cursor: nat, timerId: int, next: int)
    ensures var started := UseRealTimeData(s, fetches, tfl, rng, cursor, timerId);
            ResetSimulation(started.0, fetches, tfl, rng, started.1, next).cancelled
    ensures !ResetSimulation(DefaultState(), fetches, tfl, rng, cursor, next).cancelled
  {
  }

  /** Whichever source is used, the simulation starts running with every
      vehicle on a segment of an existing route, so every tick from then on
      is well defined and keeps it that way. */
  method StartAndTick(s: SimulationState, fetches: seq<Fetch>, tfl: Option<TflRouteData>, rng: nat -> real, cursor: nat, timerId: int, ticks: nat)
    returns (r: SimulationState)
    ensures FleetOnSegment(r.routes, r.vehicles)
    ensures r.routes == UseRealTimeData(s, fetches, tfl, rng, cursor, timerId).0.routes
    ensures GetVehicleCount(r) == GetVehicleCount(UseRealTimeData(s, fetches, tfl, rng, cursor, timerId).0)
  {
    r := UseRealTimeData(s, fetches, tfl, rng, cursor, timerId).0;
    var k := 0;
    while k < ticks
      invariant FleetOnSegment(r.routes, r.vehicles)
      invariant r.routes == UseRealTimeData(s, fetches, tfl, rng, cursor, timerId).0.routes
      invariant |r.vehicles| == |UseRealTimeData(s, fetches, tfl, rng, cursor, timerId).0.vehicles|
    {
      OnSegmentIsMovable(r.routes, r.vehicles);
      var continues;
      r, continues := Tick(r);
      k := k + 1;
    }
  }
}
