/** The fixed-size fleet of the early canvas simulation (`sim/src/model.rs`
    and its earlier copy `sim/lib.rs`, which are identical in this part):
    110 synthetic routes and 2,000 vehicles.

    `build_routes` appends 10 "train" routes of 6 stations, then 100 "bus"
    routes of 8 stations. `init_vehicles` builds the routes, then spawns 10
    buses on each of the routes 10..109 and 100 trains on each of the routes
    0..9, all buses before all trains, and appends them to the fleet.

    `Math::random` is the stream `rng` read from `cursor` on. */
module SimFixed {
  import opened Common
  import opened Kinematics
  import opened SimVehicle
  import opened Spawn

  /** The crate's `SharedState`: routes and vehicles. */
  datatype Store = Store(routes: seq<Route>, vehicles: seq<Vehicle>)

  /** `SharedState::new`. */
  function NewStore(): (s: Store)
    ensures s.routes == [] && s.vehicles == []
  {
    Store([], [])
  }

  const TrainRoutes: nat := 10
  const TrainStations: nat := 6
  const BusRoutes: nat := 100
  const BusStations: nat := 8
  /** Random values read per train route: base x, start y, y step, then an
      x and a y offset per station. */
  const TrainDraws: nat := 3 + 2 * TrainStations
  /** Random values read per bus route: base y, start x, x step, then an
      x and a y offset per station. */
  const BusDraws: nat := 3 + 2 * BusStations
  const RouteDraws: nat := TrainRoutes * TrainDraws + BusRoutes * BusDraws

  /** A "train" route: stations stacked vertically at one base x, `yStep`
      apart (100 to 150), each jittered by up to 15 in x and y. */
  function TrainRoute(rng: nat -> real, c: nat): (r: Route)
    ensures |r.stations| == TrainStations
  {
    var xBase := rng(c) * 1000.0;
    var yStart := rng(c + 1) * 1000.0;
    var yStep := 100.0 + 50.0 * rng(c + 2);
    Route(seq(TrainStations, i requires 0 <= i < TrainStations =>
      Point(xBase + (rng(c + 3 + 2 * i) * 30.0 - 15.0),
            yStart + yStep * (i as real) + (rng(c + 4 + 2 * i) * 30.0 - 15.0))))
  }

  /** A "bus" route: stations in a row at one base y, `xStep` apart (80 to
      130), each jittered by up to 10 in x and y. */
  function BusRoute(rng: nat -> real, c: nat): (r: Route)
    ensures |r.stations| == BusStations
  {
    var yBase := rng(c) * 1000.0;
    var xStart := rng(c + 1) * 1000.0;
    var xStep := 80.0 + 50.0 * rng(c + 2);
    Route(seq(BusStations, i requires 0 <= i < BusStations =>
      Point(xStart + xStep * (i as real) + (rng(c + 3 + 2 * i) * 20.0 - 10.0),
            yBase + (rng(c + 4 + 2 * i) * 20.0 - 10.0))))
  }

  /** `build_routes`: appends the train routes, then the bus routes, to the
      existing ones. Returns the routes and the next unread random value. */
  function BuildRoutes(routes: seq<Route>, rng: nat -> real, cursor: nat): (r: (seq<Route>, nat))
    ensures |r.0| == |routes| + TrainRoutes + BusRoutes
    ensures r.0[..|routes|] == routes
    ensures forall k :: |routes| <= k < |routes| + TrainRoutes ==> |r.0[k].stations| == TrainStations
    ensures forall k :: |routes| + TrainRoutes <= k < |r.0| ==> |r.0[k].stations| == BusStations
    ensures r.1 == cursor + RouteDraws
  {
    var trains := seq(TrainRoutes, k requires 0 <= k < TrainRoutes => TrainRoute(rng, cursor + k * TrainDraws));
    var busStart := cursor + TrainRoutes * TrainDraws;
    var buses := seq(BusRoutes, k requires 0 <= k < BusRoutes => BusRoute(rng, busStart + k * BusDraws));
    (routes + trains + buses, busStart + BusRoutes * BusDraws)
  }

  /** With random values in [0,1), a train route runs downwards: every
      station lies strictly below the one before it, and within 15 of the
      route's base x. */
  lemma TrainRouteDescends(rng: nat -> real, c: nat, i: nat)
    requires UnitStream(rng) && 0 < i < TrainStations
    ensures var s := TrainRoute(rng, c).stations;
            && s[i - 1].y < s[i].y
            && rng(c) * 1000.0 - 15.0 <= s[i].x < rng(c) * 1000.0 + 15.0
  {
    var s := TrainRoute(rng, c).stations;
    var yStart, yStep := rng(c + 1) * 1000.0, 100.0 + 50.0 * rng(c + 2);
    var before := yStep * ((i - 1) as real);
    assert yStep * (i as real) == before + yStep;
    var y0, x1, y1 := rng(c + 4 + 2 * (i - 1)), rng(c + 3 + 2 * i), rng(c + 4 + 2 * i);
    assert 0.0 <= rng(c + 2) && 0.0 <= y0 < 1.0 && 0.0 <= x1 < 1.0 && 0.0 <= y1 < 1.0;
    assert s[i - 1].y == yStart + before + (y0 * 30.0 - 15.0);
    assert s[i].y == yStart + (before + yStep) + (y1 * 30.0 - 15.0);
    assert s[i].x == rng(c) * 1000.0 + (x1 * 30.0 - 15.0);
  }

  /** With random values in [0,1), a bus route runs rightwards: every
      station lies strictly right of the one before it, and within 10 of the
      route's base y. */
  lemma BusRouteAdvances(rng: nat -> real, c: nat, i: nat)
    requires UnitStream(rng) && 0 < i < BusStations
    ensures var s := BusRoute(rng, c).stations;
            && s[i - 1].x < s[i].x
            && rng(c) * 1000.0 - 10.0 <= s[i].y < rng(c) * 1000.0 + 10.0
  {
    var s := BusRoute(rng, c).stations;
    var xStart, xStep := rng(c + 1) * 1000.0, 80.0 + 50.0 * rng(c + 2);
    var before := xStep * ((i - 1) as real);
    assert xStep * (i as real) == before + xStep;
    var x0, x1, y1 := rng(c + 3 + 2 * (i - 1)), rng(c + 3 + 2 * i), rng(c + 4 + 2 * i);
    assert 0.0 <= rng(c + 2) && 0.0 <= x0 < 1.0 && 0.0 <= x1 < 1.0 && 0.0 <= y1 < 1.0;
    assert s[i - 1].x == xStart + before + (x0 * 20.0 - 10.0);
    assert s[i].x == xStart + (before + xStep) + (x1 * 20.0 - 10.0);
    assert s[i].y == rng(c) * 1000.0 + (y1 * 20.0 - 10.0);
  }

  /** The routes `init_vehicles` spawns on: at least 110, the first 10
      with 6 stations and the next 100 with 8. */
  predicate FixedShape(routes: seq<Route>) {
    && |routes| >= TrainRoutes + BusRoutes
    && (forall k :: 0 <= k < TrainRoutes ==> |routes[k].stations| == TrainStations)
    && (forall k :: TrainRoutes <= k < TrainRoutes + BusRoutes ==> |routes[k].stations| == BusStations)
  }

  /** Building on an empty store gives exactly that shape. */
  lemma FreshShape(rng: nat -> real, cursor: nat)
    ensures FixedShape(BuildRoutes([], rng, cursor).0)
    ensures |BuildRoutes([], rng, cursor).0| == 110
  {
  }

  /** The spawn order of `init_vehicles`: the bus routes 10..109 with 10
      vehicles each (5 forward, 5 backward), then the train routes 0..9 with
      100 each (50 forward, 50 backward). */
  function FixedSlots(routes: seq<Route>): seq<Slot> {
    RangeSlots(Bus, routes, TrainRoutes, BusRoutes, SplitOf(10)) + RangeSlots(Train, routes, 0, TrainRoutes, SplitOf(100))
  }

  lemma FixedSlotsGrounded(routes: seq<Route>)
    ensures Grounded(routes, FixedSlots(routes))
  {
    RangesGrounded(routes, Bus, TrainRoutes, BusRoutes, SplitOf(10), Train, 0, TrainRoutes, SplitOf(100));
  }

  /** The vehicles `init_vehicles` builds on `routes`, before their first
      move, reading random values from `cursor` on. */
  function FixedPlan(routes: seq<Route>, rng: nat -> real, cursor: nat): (plan: seq<Vehicle>)
    ensures FleetMovable(routes, plan)
  {
    FixedSlotsGrounded(routes);
    GroundedMovable(routes, FixedSlots(routes), rng, cursor);
    Spawned(FixedSlots(routes), rng, cursor)
  }

  /** `init_vehicles`: build the routes, then append every planned vehicle
      after its first move along its route. */
  function InitVehicles(store: Store, rng: nat -> real, cursor: nat): (r: Store)
  {
    var (routes, next) := BuildRoutes(store.routes, rng, cursor);
    Store(routes, store.vehicles + Place(routes, FixedPlan(routes, rng, next)))
  }

  /** On routes of the fixed shape, the plan moved once holds 1,000 buses
      and 1,000 trains. */
  lemma FixedFleetTypes(routes: seq<Route>, rng: nat -> real, cursor: nat)
    requires FixedShape(routes)
    ensures var placed := Place(routes, FixedPlan(routes, rng, cursor));
            |placed| == 2000 && CountType(placed, Bus) == 1000 && CountType(placed, Train) == 1000
  {
    RangesPlacedTypes(routes, TrainRoutes, BusRoutes, SplitOf(10), 0, TrainRoutes, SplitOf(100), rng, cursor, FixedSlots(routes), 1000, 1000);
    assert FixedPlan(routes, rng, cursor) == Spawned(FixedSlots(routes), rng, cursor);
  }

  /** The fixed fleet: starting from an empty store, `init_vehicles` leaves
      110 routes and 2,000 vehicles, 1,000 buses and 1,000 trains, every one
      on an existing route it can move along. */
  lemma InitFleetSize(rng: nat -> real, cursor: nat)
    ensures var s := InitVehicles(NewStore(), rng, cursor);
            && |s.routes| == 110
            && |s.vehicles| == 2000
            && CountType(s.vehicles, Bus) == 1000
            && CountType(s.vehicles, Train) == 1000
            && FleetMovable(s.routes, s.vehicles)
  {
    var built := BuildRoutes([], rng, cursor);
    FreshShape(rng, cursor);
    FixedStore(built.0, rng, built.1);
  }

  /** The store `init_vehicles` leaves behind on 110 routes of the fixed
      shape, starting without vehicles. */
  lemma FixedStore(routes: seq<Route>, rng: nat -> real, cursor: nat)
    requires FixedShape(routes) && |routes| == 110
    ensures var s := Store(routes, [] + Place(routes, FixedPlan(routes, rng, cursor)));
            && |s.routes| == 110
            && |s.vehicles| == 2000
            && CountType(s.vehicles, Bus) == 1000
            && CountType(s.vehicles, Train) == 1000
            && FleetMovable(s.routes, s.vehicles)
  {
    var placed := Place(routes, FixedPlan(routes, rng, cursor));
    assert [] + placed == placed;
    FixedFleetTypes(routes, rng, cursor);
  }

  /** Per-route split of the fixed plan before the first move: 5 forward
      and 5 backward buses on each of the routes 10..109, 50 forward and 50
      backward trains on each of the routes 0..9, none elsewhere. */
  lemma FixedSplit(routes: seq<Route>, rng: nat -> real, cursor: nat, j: nat, d: int)
    requires FixedShape(routes) && (d == 1 || d == -1)
    ensures CountHeading(FixedPlan(routes, rng, cursor), j, d)
              == (if j < 10 then 50 else if j < 110 then 5 else 0)
  {
    var bus := if TrainRoutes <= j < TrainRoutes + BusRoutes && j < |routes| && |routes[j].stations| >= 2 then Share(SplitOf(10), d) else 0;
    var train := if 0 <= j < TrainRoutes && j < |routes| && |routes[j].stations| >= 2 then Share(SplitOf(100), d) else 0;
    FixedShares(routes, j, d, bus, train);
    FixedHeading(routes, rng, cursor, j, d, bus, train);
  }

  /** On any routes, route `j` carries the bus share of the slots 10..109
      plus the train share of the slots 0..9 in heading `d`. */
  lemma FixedHeading(routes: seq<Route>, rng: nat -> real, cursor: nat, j: nat, d: int, bus: nat, train: nat)
    requires bus == if TrainRoutes <= j < TrainRoutes + BusRoutes && j < |routes| && |routes[j].stations| >= 2 then Share(SplitOf(10), d) else 0
    requires train == if 0 <= j < TrainRoutes && j < |routes| && |routes[j].stations| >= 2 then Share(SplitOf(100), d) else 0
    ensures CountHeading(FixedPlan(routes, rng, cursor), j, d) == bus + train
  {
    FixedSlotsGrounded(routes);
    RangesHeading(routes, Bus, TrainRoutes, BusRoutes, SplitOf(10), Train, 0, TrainRoutes, SplitOf(100), rng, cursor, j, d, bus, train);
  }

  /** The shares of one route in the fixed plan. */
  lemma FixedShares(routes: seq<Route>, j: nat, d: int, bus: nat, train: nat)
    requires FixedShape(routes) && (d == 1 || d == -1)
    requires bus == if TrainRoutes <= j < TrainRoutes + BusRoutes && j < |routes| && |routes[j].stations| >= 2 then Share(SplitOf(10), d) else 0
    requires train == if 0 <= j < TrainRoutes && j < |routes| && |routes[j].stations| >= 2 then Share(SplitOf(100), d) else 0
    ensures bus + train == if j < 10 then 50 else if j < 110 then 5 else 0
  {
    assert SplitOf(10) == Split(5, 5) && SplitOf(100) == Split(50, 50);
    if j < TrainRoutes {
      assert |routes[j].stations| == TrainStations;
    } else if j < TrainRoutes + BusRoutes {
      assert |routes[j].stations| == BusStations;
    }
  }
}
