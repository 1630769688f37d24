/** The shared state of the current canvas simulation
    (sim/src/model/state.rs): routes, vehicles and the debug toggle, the
    route catalogues it installs, and the variable-size `init_vehicles`.

    `init_vehicles` treats the first `min(|routes|, 10)` routes as train
    routes and the rest as bus routes. It spawns `1000 / b` vehicles on each
    of the `b` bus routes (10 when there are none), then `1000 / t` on each
    of the `t` train routes (100 when there are none); see module `Spawn`
    for how one route's vehicles are laid out. With no routes it builds the
    synthetic catalogue in debug mode and does nothing otherwise.

    `Math::random` is the stream `rng` read from `cursor` on; every builder
    returns the cursor after the last value it read. */
module SimState {
  import opened Common
  import opened SimVehicle
  import opened Spawn
  import opened RouteBuilder

  datatype SharedState = SharedState(routes: seq<Route>, vehicles: seq<Vehicle>, debugMode: bool)

  /** `SharedState::new`: nothing loaded, debug mode off. */
  function New(): (s: SharedState)
    ensures s.routes == [] && s.vehicles == [] && !s.debugMode
  {
    SharedState([], [], false)
  }

  /** `set_debug_mode`: only the toggle changes. */
  function SetDebugMode(s: SharedState, debug: bool): (r: SharedState)
    ensures r.debugMode == debug && r.routes == s.routes && r.vehicles == s.vehicles
  {
    s.(debugMode := debug)
  }

  /** `build_random_routes`: the 10 synthetic train routes, then the 100
      synthetic bus routes, replacing whatever routes there were. */
  function BuildRandomRoutes(trig: Trig, rng: nat -> real, cursor: nat): (r: (seq<Route>, nat))
    ensures |r.0| == 110
  {
    var trains := BuildRandomTrainRoutes(trig, rng, cursor);
    var buses := BuildRandomBusRoutes(trig, rng, trains.1);
    (trains.0 + buses.0, buses.1)
  }

  /** How many of the first routes count as train routes: `take(11).count()`
      capped at 10, that is `min(n, 10)`. */
  function TrainRouteCount(n: nat): (t: nat)
    ensures t <= n && t <= 10
    ensures t == n || t == 10
  {
    if n < 10 then n else 10
  }

  /** Vehicles per route for `routes` routes of one kind: 1000 shared out
      with integer division, or `fallback` when there are none. */
  function PerRoute(routes: nat, fallback: nat): (per: nat)
    ensures routes > 0 ==> routes * per <= 1000 && 1000 < routes * (per + 1)
    ensures routes == 0 ==> per == fallback
  {
    if routes > 0 then 1000 / routes else fallback
  }

  /** The size of a fresh fleet on `n` routes: with `t = min(n, 10)` train
      routes and `b = n - t` bus routes, `b * (1000 / b)` buses and
      `t * (1000 / t)` trains. */
  datatype Sizes = Sizes(buses: nat, trains: nat)

  function FleetSizes(n: nat): Sizes {
    var t := TrainRouteCount(n);
    var b := n - t;
    Sizes(b * PerRoute(b, 10), t * PerRoute(t, 100))
  }

  /** The spawn order of `init_vehicles` on `routes`: every bus route after
      the train routes, then every train route, each with its share. */
  function InitSlots(routes: seq<Route>): seq<Slot> {
    var t := TrainRouteCount(|routes|);
    var b := |routes| - t;
    RangeSlots(Bus, routes, t, b, SplitOf(PerRoute(b, 10))) + RangeSlots(Train, routes, 0, t, SplitOf(PerRoute(t, 100)))
  }

  lemma InitSlotsGrounded(routes: seq<Route>)
    ensures Grounded(routes, InitSlots(routes))
  {
    var t := TrainRouteCount(|routes|);
    var b := |routes| - t;
    RangesGrounded(routes, Bus, t, b, SplitOf(PerRoute(b, 10)), Train, 0, t, SplitOf(PerRoute(t, 100)));
  }

  /** The vehicles `init_vehicles` builds on `routes`, before their first
      move, reading two random values each from `cursor` on. */
  function InitPlan(routes: seq<Route>, rng: nat -> real, cursor: nat): (plan: seq<Vehicle>)
    ensures FleetMovable(routes, plan)
    ensures |plan| == |InitSlots(routes)|
  {
    InitSlotsGrounded(routes);
    GroundedMovable(routes, InitSlots(routes), rng, cursor);
    Spawned(InitSlots(routes), rng, cursor)
  }

  /** Two fleets that can move along `routes` still can once joined. */
  lemma FleetMovableAppend(routes: seq<Route>, a: seq<Vehicle>, b: seq<Vehicle>)
    requires FleetMovable(routes, a) && FleetMovable(routes, b)
    ensures FleetMovable(routes, a + b)
  {
    forall i | 0 <= i < |a + b|
      ensures (a + b)[i] == if i < |a| then a[i] else b[i - |a|]
    {
    }
  }

  /** `init_vehicles`. With no routes and debug mode off nothing happens;
      with no routes in debug mode the synthetic catalogue is built first.
      The new vehicles, each moved once, are appended to the existing ones. */
  function InitVehicles(s: SharedState, trig: Trig, rng: nat -> real, cursor: nat): (r: (SharedState, nat))
    ensures |s.routes| == 0 && !s.debugMode ==> r == (s, cursor)
    ensures |s.routes| > 0 ==> r.0.routes == s.routes
    ensures |s.routes| == 0 && s.debugMode ==> r.0.routes == BuildRandomRoutes(trig, rng, cursor).0
    ensures r.0.debugMode == s.debugMode
    ensures |r.0.vehicles| >= |s.vehicles| && r.0.vehicles[..|s.vehicles|] == s.vehicles
    ensures FleetMovable(s.routes, s.vehicles) ==> FleetMovable(r.0.routes, r.0.vehicles)
  {
    if |s.routes| == 0 && !s.debugMode then (s, cursor)
    else
      var built := if |s.routes| == 0 then BuildRandomRoutes(trig, rng, cursor) else (s.routes, cursor);
      var routes := built.0;
      var plan := InitPlan(routes, rng, built.1);
      var placed := Place(routes, plan);
      KeptMovable(s, routes, placed);
      (SharedState(routes, s.vehicles + placed, s.debugMode), built.1 + 2 * |plan|)
  }

  /** Vehicles that could move along the old routes still can along the
      routes `init_vehicles` keeps, next to the new ones; with no old routes
      there were no such vehicles. */
  lemma KeptMovable(s: SharedState, routes: seq<Route>, placed: seq<Vehicle>)
    requires |s.routes| > 0 ==> routes == s.routes
    requires FleetMovable(routes, placed)
    ensures FleetMovable(s.routes, s.vehicles) ==> FleetMovable(routes, s.vehicles + placed)
  {
    if FleetMovable(s.routes, s.vehicles) {
      if |s.routes| > 0 {
        FleetMovableAppend(routes, s.vehicles, placed);
      } else {
        assert |s.vehicles| > 0 ==> s.vehicles[0].routeIndex < |s.routes|;
        assert s.vehicles == [];
        assert s.vehicles + placed == placed;
      }
    }
  }

  /** Per route and direction, the plan holds the route's share: for a
      train route (one of the first `min(n, 10)`) half of `1000 / t` forward
      and the rest backward, likewise for a bus route with `1000 / b`; a
      route of fewer than two stations gets none. */
  lemma InitHeading(routes: seq<Route>, rng: nat -> real, cursor: nat, j: nat, d: int)
    ensures var t := TrainRouteCount(|routes|);
            var b := |routes| - t;
            CountHeading(InitPlan(routes, rng, cursor), j, d)
              == if j >= |routes| || |routes[j].stations| < 2 then 0
                 else if j < t then Share(SplitOf(PerRoute(t, 100)), d)
                 else Share(SplitOf(PerRoute(b, 10)), d)
  {
    var t := TrainRouteCount(|routes|);
    var b := |routes| - t;
    var bus := if t <= j < t + b && j < |routes| && |routes[j].stations| >= 2 then Share(SplitOf(PerRoute(b, 10)), d) else 0;
    var train := if 0 <= j < t && j < |routes| && |routes[j].stations| >= 2 then Share(SplitOf(PerRoute(t, 100)), d) else 0;
    InitRangesHeading(routes, rng, cursor, j, d, bus, train);
  }

  /** Route `j` carries the bus share of the bus slots plus the train share
      of the train slots in heading `d`. */
  lemma InitRangesHeading(routes: seq<Route>, rng: nat -> real, cursor: nat, j: nat, d: int, bus: nat, train: nat)
    requires var t := TrainRouteCount(|routes|);
             var b := |routes| - t;
             && bus == (if t <= j < t + b && j < |routes| && |routes[j].stations| >= 2 then Share(SplitOf(PerRoute(b, 10)), d) else 0)
             && train == (if 0 <= j < t && j < |routes| && |routes[j].stations| >= 2 then Share(SplitOf(PerRoute(t, 100)), d) else 0)
    ensures CountHeading(InitPlan(routes, rng, cursor), j, d) == bus + train
  {
    var t := TrainRouteCount(|routes|);
    var b := |routes| - t;
    var sb, st := SplitOf(PerRoute(b, 10)), SplitOf(PerRoute(t, 100));
    InitPlanSpawned(routes, rng, cursor);
    assert InitSlots(routes) == RangeSlots(Bus, routes, t, b, sb) + RangeSlots(Train, routes, 0, t, st);
    RangesGrounded(routes, Bus, t, b, sb, Train, 0, t, st);
    RangesHeading(routes, Bus, t, b, sb, Train, 0, t, st, rng, cursor, j, d, bus, train);
  }

  /** The plan is the vehicles spawned on its slots. */
  lemma InitPlanSpawned(routes: seq<Route>, rng: nat -> real, cursor: nat)
    ensures AllValid(InitSlots(routes))
    ensures InitPlan(routes, rng, cursor) == Spawned(InitSlots(routes), rng, cursor)
  {
    InitSlotsGrounded(routes);
    GroundedMovable(routes, InitSlots(routes), rng, cursor);
  }

  /** When every route has at least two stations, the new vehicles are
      `b * (1000 / b)` buses and `t * (1000 / t)` trains: never more than
      1,000 of either, and exactly 1,000 when the count divides 1,000. */
  lemma InitTypes(routes: seq<Route>, rng: nat -> real, cursor: nat)
    requires forall j :: 0 <= j < |routes| ==> |routes[j].stations| >= 2
    ensures var placed := Place(routes, InitPlan(routes, rng, cursor));
            && CountType(placed, Bus) == FleetSizes(|routes|).buses <= 1000
            && CountType(placed, Train) == FleetSizes(|routes|).trains <= 1000
            && |placed| == CountType(placed, Bus) + CountType(placed, Train)
  {
    InitPlanSpawned(routes, rng, cursor);
    InitSlotsPlaced(routes, rng, cursor);
  }

  /** The initial slots, spawned and moved: the bus range and the train
      range, each of the size `FleetSizes` gives. */
  lemma InitSlotsPlaced(routes: seq<Route>, rng: nat -> real, cursor: nat)
    requires forall j :: 0 <= j < |routes| ==> |routes[j].stations| >= 2
    ensures AllValid(InitSlots(routes))
    ensures FleetMovable(routes, Spawned(InitSlots(routes), rng, cursor))
    ensures var placed := Place(routes, Spawned(InitSlots(routes), rng, cursor));
            && CountType(placed, Bus) == FleetSizes(|routes|).buses <= 1000
            && CountType(placed, Train) == FleetSizes(|routes|).trains <= 1000
            && |placed| == CountType(placed, Bus) + CountType(placed, Train)
  {
    var t := TrainRouteCount(|routes|);
    var b := |routes| - t;
    var sb, st := SplitOf(PerRoute(b, 10)), SplitOf(PerRoute(t, 100));
    var sizeB := PerRouteBound(b, 10);
    var sizeT := PerRouteBound(t, 100);
    assert sizeB == b * (sb.forward + sb.backward) by {
      assert sb.forward + sb.backward == PerRoute(b, 10);
    }
    assert sizeT == t * (st.forward + st.backward) by {
      assert st.forward + st.backward == PerRoute(t, 100);
    }
    assert FleetSizes(|routes|) == Sizes(sizeB, sizeT);
    RangesPlacedTypes(routes, t, b, sb, 0, t, st, rng, cursor, InitSlots(routes), sizeB, sizeT);
  }

  /** The total of `n` routes' shares: never more than 1,000. */
  lemma PerRouteBound(n: nat, fallback: nat) returns (total: nat)
    ensures total == n * PerRoute(n, fallback) <= 1000
  {
    if n == 0 {
      total := 0;
    } else {
      total := n * PerRoute(n, fallback);
    }
  }

  /** Debug mode with no routes: the synthetic catalogue of 110 routes and
      a fleet of 1,000 buses and 1,000 trains that can all move. */
  lemma DebugFleet(trig: Trig, rng: nat -> real, cursor: nat)
    requires UnitStream(rng)
    ensures var s := InitVehicles(SharedState([], [], true), trig, rng, cursor).0;
            && |s.routes| == 110
            && |s.vehicles| == 2000
            && CountType(s.vehicles, Bus) == 1000
            && CountType(s.vehicles, Train) == 1000
            && FleetMovable(s.routes, s.vehicles)
  {
    var built := BuildRandomRoutes(trig, rng, cursor);
    RandomRoutesMovable(trig, rng, cursor);
    DebugPlan(built.0, rng, built.1);
  }

  /** The fleet spawned on 110 routes of two or more stations. */
  lemma DebugPlan(routes: seq<Route>, rng: nat -> real, cursor: nat)
    requires |routes| == 110
    requires forall j :: 0 <= j < |routes| ==> |routes[j].stations| >= 2
    ensures var placed := [] + Place(routes, InitPlan(routes, rng, cursor));
            |placed| == 2000 && CountType(placed, Bus) == 1000 && CountType(placed, Train) == 1000
  {
    var placed := Place(routes, InitPlan(routes, rng, cursor));
    assert [] + placed == placed;
    InitTypes(routes, rng, cursor);
  }

  /** `update_with_real_routes` once both TSV texts are read: the real
      train routes, then the real bus routes, replace the routes; the
      vehicles are cleared and rebuilt. */
  function UpdateWithRows(s: SharedState, trainRows: seq<TsvRow>, busRows: seq<TsvRow>,
                          trig: Trig, rng: nat -> real, cursor: nat): (r: (SharedState, nat))
    ensures FleetMovable(r.0.routes, r.0.vehicles)
    ensures r.0.debugMode == s.debugMode
  {
    var trains := RealTrainRoutes(trainRows, trig, rng, cursor);
    var buses := RealBusRoutes(busRows, trig, rng, trains.1);
    InitVehicles(SharedState(trains.0 + buses.0, [], s.debugMode), trig, rng, buses.1)
  }

  /** The vehicles are cleared before `init_vehicles`: the result depends
      on the old state only through its debug toggle. */
  lemma UpdateForgetsFleet(s: SharedState, u: SharedState, trainRows: seq<TsvRow>, busRows: seq<TsvRow>,
                           trig: Trig, rng: nat -> real, cursor: nat)
    requires s.debugMode == u.debugMode
    ensures UpdateWithRows(s, trainRows, busRows, trig, rng, cursor) == UpdateWithRows(u, trainRows, busRows, trig, rng, cursor)
  {
  }

  /** When at least one row is read, the fleet is a fresh `init_vehicles`
      fleet on the `n` new routes and nothing else: with `t = min(n, 10)`
      train routes and `b = n - t` bus routes, `b * (1000 / b)` buses and
      `t * (1000 / t)` trains. */
  lemma RealRoutesFleet(s: SharedState, trainRows: seq<TsvRow>, busRows: seq<TsvRow>,
                        trig: Trig, rng: nat -> real, cursor: nat)
    requires |trainRows| + |busRows| > 0
    ensures RebuiltOn(UpdateWithRows(s, trainRows, busRows, trig, rng, cursor).0, |trainRows| + |busRows|)
  {
    var trains := RealTrainRoutes(trainRows, trig, rng, cursor);
    var buses := RealBusRoutes(busRows, trig, rng, trains.1);
    var routes := trains.0 + buses.0;
    assert UpdateWithRows(s, trainRows, busRows, trig, rng, cursor)
        == InitVehicles(SharedState(routes, [], s.debugMode), trig, rng, buses.1);
    RealRoutesTravelable(trainRows, busRows, trig, rng, cursor);
    FreshFleetTypes(routes, s.debugMode, trig, rng, buses.1);
  }

  /** `init_vehicles` on fresh routes of two or more stations and no
      vehicles: exactly the new buses and trains. */
  lemma FreshFleetTypes(routes: seq<Route>, debugMode: bool, trig: Trig, rng: nat -> real, cursor: nat)
    requires |routes| > 0
    requires forall j :: 0 <= j < |routes| ==> |routes[j].stations| >= 2
    ensures RebuiltOn(InitVehicles(SharedState(routes, [], debugMode), trig, rng, cursor).0, |routes|)
  {
    var placed := Place(routes, InitPlan(routes, rng, cursor));
    assert InitVehicles(SharedState(routes, [], debugMode), trig, rng, cursor).0.vehicles == [] + placed;
    assert [] + placed == placed;
    InitTypes(routes, rng, cursor);
  }

  /** `update_with_real_routes`: the rows of the train TSV and of the bus
      TSV become the routes, and the vehicles are rebuilt on them; every
      vehicle can move along its route and the debug toggle is kept. */
  function UpdateWithRealRoutes(s: SharedState, busTsv: string, trainTsv: string, parse: string -> Option<real>,
                                trig: Trig, rng: nat -> real, cursor: nat): (r: (SharedState, nat))
    ensures FleetMovable(r.0.routes, r.0.vehicles)
    ensures r.0.debugMode == s.debugMode
  {
    UpdateWithRows(s, ParseTsvData(trainTsv, parse), ParseTsvData(busTsv, parse), trig, rng, cursor)
  }

  /** With `n` rows read in all, `update_with_real_routes` leaves `n`
      routes and the fresh fleet of `RealRoutesFleet` on them; with none
      (and debug mode off) nothing is left. */
  lemma RealRoutesUpdated(s: SharedState, busTsv: string, trainTsv: string, parse: string -> Option<real>,
                          trig: Trig, rng: nat -> real, cursor: nat)
    ensures Updated(s, UpdateWithRealRoutes(s, busTsv, trainTsv, parse, trig, rng, cursor).0,
                    |ParseTsvData(trainTsv, parse)| + |ParseTsvData(busTsv, parse)|)
  {
    UpdateRebuilds(s, ParseTsvData(trainTsv, parse), ParseTsvData(busTsv, parse), trig, rng, cursor);
  }

  /** What an update from `s` that read `n` rows in all leaves: every
      vehicle movable and the toggle kept; for `n > 0`, `n` routes and the
      fresh fleet on them; for no rows with debug mode off, nothing. */
  predicate Updated(s: SharedState, r: SharedState, n: nat) {
    && FleetMovable(r.routes, r.vehicles)
    && r.debugMode == s.debugMode
    && RebuiltOn(r, n)
    && (n == 0 && !s.debugMode ==> r.routes == [] && r.vehicles == [])
  }

  /** After reading `n > 0` rows: `n` routes and the fresh fleet on them. */
  predicate RebuiltOn(r: SharedState, n: nat) {
    n > 0 ==>
      && |r.routes| == n
      && CountType(r.vehicles, Bus) == FleetSizes(n).buses
      && CountType(r.vehicles, Train) == FleetSizes(n).trains
      && |r.vehicles| == CountType(r.vehicles, Bus) + CountType(r.vehicles, Train)
  }


  lemma UpdateRebuilds(s: SharedState, trainRows: seq<TsvRow>, busRows: seq<TsvRow>,
                       trig: Trig, rng: nat -> real, cursor: nat)
    ensures Updated(s, UpdateWithRows(s, trainRows, busRows, trig, rng, cursor).0, |trainRows| + |busRows|)
  {
    if |trainRows| + |busRows| > 0 {
      RealRoutesFleet(s, trainRows, busRows, trig, rng, cursor);
    } else if !s.debugMode {
      RealRoutesEmpty(s, trainRows, busRows, trig, rng, cursor);
    }
  }

  /** When at least one row is read, the routes are the train routes of
      the train rows, in row order, followed by the bus routes of the bus
      rows. */
  lemma RealRoutesLayout(s: SharedState, trainRows: seq<TsvRow>, busRows: seq<TsvRow>,
                         trig: Trig, rng: nat -> real, cursor: nat)
    requires |trainRows| + |busRows| > 0
    ensures var trains := RealTrainRoutes(trainRows, trig, rng, cursor);
            var buses := RealBusRoutes(busRows, trig, rng, trains.1);
            var r := UpdateWithRows(s, trainRows, busRows, trig, rng, cursor).0;
            && r.routes == trains.0 + buses.0
            && |r.routes| == |trainRows| + |busRows|
  {
  }

  /** When neither TSV yields a row and debug mode is off, the state is left
      without routes and without vehicles. */
  lemma RealRoutesEmpty(s: SharedState, trainRows: seq<TsvRow>, busRows: seq<TsvRow>,
                        trig: Trig, rng: nat -> real, cursor: nat)
    requires |trainRows| + |busRows| == 0 && !s.debugMode
    ensures var r := UpdateWithRows(s, trainRows, busRows, trig, rng, cursor).0;
            r.routes == [] && r.vehicles == []
  {
  }

  /** `update_all` of this state: the guarded update of module `SimVehicle`,
      with routes and toggle unchanged. */
  method UpdateAll(s: SharedState) returns (r: SharedState)
    requires forall i :: 0 <= i < |s.vehicles| && s.vehicles[i].routeIndex < |s.routes| ==>
               Movable(s.vehicles[i], s.routes[s.vehicles[i].routeIndex])
    ensures r.routes == s.routes && r.debugMode == s.debugMode && |r.vehicles| == |s.vehicles|
    ensures forall i :: 0 <= i < |r.vehicles| ==>
              r.vehicles[i] == if s.vehicles[i].routeIndex < |s.routes|
                               then Advance(s.vehicles[i], s.routes[s.vehicles[i].routeIndex])
                               else s.vehicles[i]
    ensures FleetMovable(s.routes, s.vehicles) ==> FleetMovable(r.routes, r.vehicles)
  {
    var moved := UpdateAllGuarded(s.routes, s.vehicles);
    r := s.(vehicles := moved);
  }

  /** `Vec::append`: the receiver gains every element of the argument,
      which is left empty. */
  function Append<T>(dst: seq<T>, src: seq<T>): (r: (seq<T>, seq<T>))
    ensures |r.0| == |dst| + |src| && r.0[..|dst|] == dst && r.0[|dst|..] == src && r.1 == []
  {
    (dst + src, [])
  }

  /** The route counts `update_with_real_routes` logs, as written: they are
      read from the two vectors after `append` has emptied them. */
  function LoggedCountsAsWritten(trains: seq<Route>, buses: seq<Route>): (nat, nat) {
    var afterTrains := Append([], trains);
    var afterBuses := Append(afterTrains.0, buses);
    (|afterTrains.1|, |afterBuses.1|)
  }

  /** The logged counts are always zero, whatever was loaded. */
  lemma LoggedCountsAlwaysZero(trains: seq<Route>, buses: seq<Route>)
    ensures LoggedCountsAsWritten(trains, buses) == (0, 0)
    ensures |trains| > 0 ==> LoggedCountsAsWritten(trains, buses).0 != |trains|
  {
  }

  /** The counts as evidently intended: taken before the vectors are
      drained into the routes. */
  function LoggedCounts(trains: seq<Route>, buses: seq<Route>): (c: (nat, nat))
    ensures var routes := Append(Append([], trains).0, buses).0;
            c.0 + c.1 == |routes| && routes[..c.0] == trains && routes[c.0..] == buses
  {
    (|trains|, |buses|)
  }
}
