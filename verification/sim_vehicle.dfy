/** Vehicles and routes of the canvas simulation (the `sim` crate and the
    `roundel-wb-sim` crate), with the imperative `update_position` loop they
    share, proved equal to the reference rule of module `Kinematics`, and the
    fleet-wide `update_all` in its unguarded and guarded forms. */
module SimVehicle {
  import opened Common
  import opened Kinematics

  datatype VehicleType = Bus | Train

  /** A route is the ordered list of its station coordinates on the canvas. */
  datatype Route = Route(stations: seq<Point>)

  datatype Vehicle = Vehicle(
    vehicleType: VehicleType,
    routeIndex: nat,
    direction: int,
    lastStation: nat,
    nextStation: nat,
    fraction: real,
    speed: real,
    x: real,
    y: real)

  function MotionOf(v: Vehicle): Motion {
    Motion(v.direction, v.lastStation, v.nextStation, v.fraction)
  }

  /** The vehicle can be moved along `route` without indexing outside it. */
  predicate Movable(v: Vehicle, route: Route) {
    Indexable(MotionOf(v), |route.stations|)
  }

  /** Reference result of one `update_position` call: the kinematic step,
      then the position interpolated between the two current stations. */
  function Advance(v: Vehicle, route: Route): (r: Vehicle)
    requires Movable(v, route)
    ensures Movable(r, route)
    ensures OnSegment(MotionOf(v), |route.stations|) ==> OnSegment(MotionOf(r), |route.stations|)
    ensures r.vehicleType == v.vehicleType && r.routeIndex == v.routeIndex && r.speed == v.speed
    ensures r.fraction < 1.0
    ensures 0.0 <= v.fraction && 0.0 <= v.speed ==>
              0.0 <= r.fraction && Between(Point(r.x, r.y), route.stations[r.lastStation], route.stations[r.nextStation])
    ensures r.fraction == 0.0 ==> Point(r.x, r.y) == route.stations[r.lastStation]
  {
    var m := Step(MotionOf(v), v.speed, |route.stations|);
    var p := Locate(route.stations, m);
    v.(direction := m.direction, lastStation := m.last, nextStation := m.next,
       fraction := m.fraction, x := p.x, y := p.y)
  }

  /** `update_position` as the simulation crates write it: add the speed,
      loop over arrivals flipping the direction at a route end, then
      interpolate. It computes exactly `Advance`. */
  method UpdatePosition(v: Vehicle, route: Route) returns (r: Vehicle)
    requires Movable(v, route)
    ensures r == Advance(v, route)
  {
    var n := |route.stations|;
    var fraction := v.fraction + v.speed;
    var last: int := v.lastStation;
    var next: int := v.nextStation;
    var direction := v.direction;
    while fraction >= 1.0
      invariant Indexable(Motion(direction, last, next, fraction), n)
      invariant Settle(Motion(direction, last, next, fraction), n) == Step(MotionOf(v), v.speed, n)
      decreases Arrivals(fraction)
    {
      ghost var before := Motion(direction, last, next, fraction);
      fraction := fraction - 1.0;
      last := next;
      var candidate := next + direction;
      if candidate < 0 || candidate >= n {
        direction := -direction;
      }
      next := last + direction;
      assert Motion(direction, last, next, fraction) == Arrive(before, n);
    }
    AdvanceFrom(v, route, direction, last, next, fraction);
    r := v.(direction := direction, lastStation := last, nextStation := next, fraction := fraction,
            x := route.stations[last].x + (route.stations[next].x - route.stations[last].x) * fraction,
            y := route.stations[last].y + (route.stations[next].y - route.stations[last].y) * fraction);
  }

  /** `Advance` spelled out from the settled motion. */
  lemma AdvanceFrom(v: Vehicle, route: Route, direction: int, last: int, next: int, fraction: real)
    requires Movable(v, route)
    requires Motion(direction, last, next, fraction) == Step(MotionOf(v), v.speed, |route.stations|)
    ensures 0 <= last < |route.stations| && 0 <= next < |route.stations|
    ensures Advance(v, route)
              == v.(direction := direction, lastStation := last, nextStation := next, fraction := fraction,
                    x := route.stations[last].x + (route.stations[next].x - route.stations[last].x) * fraction,
                    y := route.stations[last].y + (route.stations[next].y - route.stations[last].y) * fraction)
  {
    var m := Step(MotionOf(v), v.speed, |route.stations|);
    assert Indexable(m, |route.stations|);
    var p := Locate(route.stations, m);
    AdvanceLocated(v, route);
    LocateSpelled(route.stations, m);
    assert p.x == route.stations[last].x + (route.stations[next].x - route.stations[last].x) * fraction;
    assert p.y == route.stations[last].y + (route.stations[next].y - route.stations[last].y) * fraction;
  }

  /** `Advance` is the stepped motion at the located position. */
  lemma AdvanceLocated(v: Vehicle, route: Route)
    requires Movable(v, route)
    ensures var m := Step(MotionOf(v), v.speed, |route.stations|);
            var p := Locate(route.stations, m);
            Advance(v, route)
              == v.(direction := m.direction, lastStation := m.last, nextStation := m.next, fraction := m.fraction, x := p.x, y := p.y)
  {
  }

  /** A stationary vehicle on its segment keeps its indices, direction and
      fraction, and every later update reports the same position. */
  lemma ZeroSpeedIsFixedPoint(v: Vehicle, route: Route)
    requires Movable(v, route) && v.speed == 0.0 && 0.0 <= v.fraction < 1.0
    ensures MotionOf(Advance(v, route)) == MotionOf(v)
    ensures Advance(Advance(v, route), route) == Advance(v, route)
  {
    ZeroSpeedIsIdentity(MotionOf(v), |route.stations|);
    var w := Advance(v, route);
    ZeroSpeedIsIdentity(MotionOf(w), |route.stations|);
  }

  /** Every vehicle refers to an existing route along which it can move. */
  predicate FleetMovable(routes: seq<Route>, vehicles: seq<Vehicle>) {
    forall i :: 0 <= i < |vehicles| ==>
      vehicles[i].routeIndex < |routes| && Movable(vehicles[i], routes[vehicles[i].routeIndex])
  }

  /** The unguarded `update_all` of the early copies: every vehicle is
      updated exactly once, against the route it refers to, in fleet order. */
  method UpdateAll(routes: seq<Route>, vehicles: seq<Vehicle>) returns (r: seq<Vehicle>)
    requires FleetMovable(routes, vehicles)
    ensures |r| == |vehicles|
    ensures forall i :: 0 <= i < |r| ==> r[i] == Advance(vehicles[i], routes[vehicles[i].routeIndex])
    ensures FleetMovable(routes, r)
  {
    r := [];
    var i := 0;
    while i < |vehicles|
      invariant 0 <= i <= |vehicles| && |r| == i
      invariant forall j :: 0 <= j < i ==> r[j] == Advance(vehicles[j], routes[vehicles[j].routeIndex])
    {
      var v := UpdatePosition(vehicles[i], routes[vehicles[i].routeIndex]);
      r := r + [v];
      i := i + 1;
    }
  }

  /** The guarded `update_all` of the current crate: a vehicle whose route
      index no longer resolves is skipped and left as it was. */
  method UpdateAllGuarded(routes: seq<Route>, vehicles: seq<Vehicle>) returns (r: seq<Vehicle>)
    requires forall i :: 0 <= i < |vehicles| && vehicles[i].routeIndex < |routes| ==>
               Movable(vehicles[i], routes[vehicles[i].routeIndex])
    ensures |r| == |vehicles|
    ensures forall i :: 0 <= i < |r| && vehicles[i].routeIndex >= |routes| ==> r[i] == vehicles[i]
    ensures forall i :: 0 <= i < |r| && vehicles[i].routeIndex < |routes| ==>
              r[i] == Advance(vehicles[i], routes[vehicles[i].routeIndex])
    ensures FleetMovable(routes, vehicles) ==> FleetMovable(routes, r)
  {
    r := [];
    var i := 0;
    while i < |vehicles|
      invariant 0 <= i <= |vehicles| && |r| == i
      invariant forall j :: 0 <= j < i && vehicles[j].routeIndex >= |routes| ==> r[j] == vehicles[j]
      invariant forall j :: 0 <= j < i && vehicles[j].routeIndex < |routes| ==>
                  r[j] == Advance(vehicles[j], routes[vehicles[j].routeIndex])
    {
      var v := vehicles[i];
      if v.routeIndex < |routes| {
        v := UpdatePosition(v, routes[v.routeIndex]);
      }
      r := r + [v];
      i := i + 1;
    }
  }

  /** Number of vehicles of type `t`. */
  function CountType(s: seq<Vehicle>, t: VehicleType): (c: nat)
    ensures c <= |s|
  {
    if |s| == 0 then 0
    else CountType(s[..|s| - 1], t) + (if s[|s| - 1].vehicleType == t then 1 else 0)
  }

  lemma {:induction false} CountTypeAppend(a: seq<Vehicle>, b: seq<Vehicle>, t: VehicleType)
    ensures CountType(a + b, t) == CountType(a, t) + CountType(b, t)
    decreases |b|
  {
    if |b| == 0 {
      assert a + b == a;
    } else {
      assert (a + b)[..|a + b| - 1] == a + b[..|b| - 1];
      CountTypeAppend(a, b[..|b| - 1], t);
    }
  }

  /** Every vehicle is a bus or a train, so the two counts add up to the
      fleet size. */
  lemma {:induction false} CountTypesCover(s: seq<Vehicle>)
    ensures CountType(s, Bus) + CountType(s, Train) == |s|
    decreases |s|
  {
    if |s| > 0 {
      CountTypesCover(s[..|s| - 1]);
    }
  }

  /** A fleet of one type counts fully towards that type and not at all
      towards the other. */
  lemma {:induction false} CountTypeUniform(s: seq<Vehicle>, t: VehicleType, u: VehicleType)
    requires forall i :: 0 <= i < |s| ==> s[i].vehicleType == t
    ensures CountType(s, u) == (if u == t then |s| else 0)
    decreases |s|
  {
    if |s| > 0 {
      CountTypeUniform(s[..|s| - 1], t, u);
    }
  }

  /** Fleets that agree on every vehicle's type have the same counts. */
  lemma {:induction false} CountTypeTransfer(a: seq<Vehicle>, b: seq<Vehicle>, t: VehicleType)
    requires |a| == |b|
    requires forall i :: 0 <= i < |a| ==> a[i].vehicleType == b[i].vehicleType
    ensures CountType(a, t) == CountType(b, t)
    decreases |a|
  {
    if |a| > 0 {
      CountTypeTransfer(a[..|a| - 1], b[..|b| - 1], t);
    }
  }

  /** A fleet of `k` buses followed by trains counts `k` buses and the rest
      as trains. */
  lemma {:induction false} CountTypeSplit(s: seq<Vehicle>, k: nat)
    requires k <= |s|
    requires forall q :: 0 <= q < |s| ==> s[q].vehicleType == if q < k then Bus else Train
    ensures CountType(s, Bus) == k && CountType(s, Train) == |s| - k
    decreases |s|
  {
    if |s| == k {
      CountTypeUniform(s, Bus, Bus);
      CountTypeUniform(s, Bus, Train);
    } else {
      var front := s[..|s| - 1];
      assert forall q :: 0 <= q < |front| ==> front[q] == s[q];
      CountTypeSplit(front, k);
    }
  }
}
