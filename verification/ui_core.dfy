/** The control flow of the canvas UI (sim/src/ui/core.rs): start-up, the
    pause toggle, switching between synthetic and real routes, the
    completion of the asynchronous TSV load, one tick of the animation
    loop, and changing the tick interval.

    The globals of the source (shared state, control, camera and the
    interval-id cell) are the fields of one `App` value. The browser timer
    is modelled by the `Clock`: the set of live tickers, by id, with their
    intervals. `Math::random` is the stream `rng`, read from the cursor
    `draws`; the TSV texts and whether fetching them failed are inputs of
    `LoadFinished`. */
module UiCore {
  import opened Common
  import opened SimVehicle
  import opened RouteBuilder
  import opened Control
  import opened View
  import SimState
  import SimFixed

  /** The browser's live interval timers, by id, with their periods in
      milliseconds; `cell` is `ANIMATION_INTERVAL_ID`. */
  datatype Clock = Clock(cell: Option<nat>, live: map<nat, nat>, nextId: nat)

  datatype App = App(state: SimState.SharedState, control: SimulationControl, camera: Camera,
                     clock: Clock, draws: nat)

  /** `start_animation_loop`: a new ticker at `interval`. The cell is
      write-once, so it records the new id only if it was empty. */
  function StartLoop(k: Clock, interval: nat): (r: Clock)
    ensures r.nextId > k.nextId && k.nextId in r.live && r.live[k.nextId] == interval
    ensures forall id :: id in k.live && id != k.nextId ==> id in r.live && r.live[id] == k.live[id]
    ensures k.cell.Some? ==> r.cell == k.cell
    ensures k.cell.None? ==> r.cell == Some(k.nextId)
  {
    Clock(if k.cell.None? then Some(k.nextId) else k.cell, k.live[k.nextId := interval], k.nextId + 1)
  }

  /** Ids are handed out in increasing order. */
  predicate Issued(k: Clock) {
    (forall id :: id in k.live ==> id < k.nextId) && (k.cell.Some? ==> k.cell.value < k.nextId)
  }

  /** Exactly one ticker runs, at `interval`, and the cell holds its id. */
  predicate SingleTicker(k: Clock, interval: nat) {
    k.cell.Some? && k.live == map[k.cell.value := interval]
  }

  /** The clock after the first `start_animation_loop` of a page. */
  function FirstTicker(interval: nat): (k: Clock)
    ensures SingleTicker(k, interval) && Issued(k)
  {
    var k := StartLoop(Clock(None, map[], 0), interval);
    assert k.live == map[0 := interval];
    k
  }

  /** `build_random_routes` followed by `init_vehicles` on a state with no
      vehicles, as start-up and the mode switch do it; with the synthetic
      routes in place `init_vehicles` does not build them again. */
  function RandomFleet(trig: Trig, rng: nat -> real, cursor: nat): (r: (SimState.SharedState, nat))
    ensures r.0.debugMode
  {
    var built := SimState.BuildRandomRoutes(trig, rng, cursor);
    SimState.InitVehicles(SimState.SharedState(built.0, [], true), trig, rng, built.1)
  }

  /** The synthetic fleet: 110 routes, 1,000 buses and 1,000 trains that
      can all move. */
  lemma RandomFleetSize(trig: Trig, rng: nat -> real, cursor: nat)
    requires UnitStream(rng)
    ensures var s := RandomFleet(trig, rng, cursor).0;
            && |s.routes| == 110
            && Counts(s.vehicles) == VehicleCounts(1000, 1000, 2000)
            && FleetMovable(s.routes, s.vehicles)
  {
    var built := SimState.BuildRandomRoutes(trig, rng, cursor);
    RandomRoutesMovable(trig, rng, cursor);
    SimState.DebugPlan(built.0, rng, built.1);
  }

  /** The app a page load starts (`main_js`): debug mode from the checkbox,
      the synthetic catalogue and its fleet in random mode, nothing in
      real-data mode, the counts, a ticker at the initial interval; the
      boolean says whether the TSV load was started. The camera of the DOM
      inputs is the default camera here. */
  function Startup(useRandom: bool, trig: Trig, rng: nat -> real): (r: (App, bool))
    ensures r.1 == !useRandom
    ensures r.0.state.debugMode == useRandom && !r.0.control.paused
    ensures !useRandom ==> r.0.state == SimState.SharedState([], [], false)
    ensures useRandom ==> r.0.state == RandomFleet(trig, rng, 0).0
    ensures r.0.control.counts == Counts(r.0.state.vehicles)
    ensures SingleTicker(r.0.clock, r.0.control.updateIntervalMs) && Issued(r.0.clock)
    ensures r.0.camera == InitialCamera()
  {
    var s := SimState.SetDebugMode(SimState.New(), useRandom);
    var init := if useRandom then RandomFleet(trig, rng, 0) else (s, 0);
    var control := UpdateVehicleCounts(InitialControl(), init.0.vehicles);
    (App(init.0, control, InitialCamera(), FirstTicker(control.updateIntervalMs), init.1), !useRandom)
  }

  /** Either way the page starts consistent; in random mode with 110
      routes and 1,000 buses and 1,000 trains on the stats panel. */
  lemma StartupFleet(useRandom: bool, trig: Trig, rng: nat -> real)
    requires UnitStream(rng)
    ensures Consistent(Startup(useRandom, trig, rng).0)
    ensures useRandom ==> |Startup(useRandom, trig, rng).0.state.routes| == 110
    ensures useRandom ==> Startup(useRandom, trig, rng).0.control.counts == VehicleCounts(1000, 1000, 2000)
  {
    if useRandom {
      StartupRandom(trig, rng);
    } else {
      StartupEmpty(trig, rng);
    }
  }

  lemma StartupRandom(trig: Trig, rng: nat -> real)
    requires UnitStream(rng)
    ensures var app := Startup(true, trig, rng).0;
            && Consistent(app)
            && |app.state.routes| == 110
            && app.control.counts == VehicleCounts(1000, 1000, 2000)
  {
    var app := Startup(true, trig, rng).0;
    RandomFleetSize(trig, rng, 0);
    assert app.state == RandomFleet(trig, rng, 0).0;
  }

  lemma StartupEmpty(trig: Trig, rng: nat -> real)
    ensures Consistent(Startup(false, trig, rng).0)
  {
    assert Startup(false, trig, rng).0.state.vehicles == [];
  }

  /** `toggle_pause`: flips the flag and returns its new value. */
  function TogglePause(app: App): (r: (App, bool))
    ensures r.1 == r.0.control.paused == !app.control.paused
    ensures r.0.(control := app.control) == app
    ensures r.0.control.(paused := app.control.paused) == app.control
  {
    var c := app.control.(paused := !app.control.paused);
    (app.(control := c), c.paused)
  }

  /** `set_data_source_mode`: remember the pause flag and pause; set the
      toggle and clear routes and vehicles together; in random mode build
      the synthetic catalogue and its fleet and restore the old pause flag;
      otherwise start the TSV load (the boolean) and stay paused with
      nothing loaded. Counts are refreshed either way. */
  function SetDataSourceMode(app: App, useRandom: bool, trig: Trig, rng: nat -> real): (r: (App, bool))
    ensures r.1 == !useRandom
    ensures r.0.state.debugMode == useRandom
    ensures useRandom ==> r.0.control.paused == app.control.paused && r.0.state == RandomFleet(trig, rng, app.draws).0
    ensures !useRandom ==> r.0.control.paused && r.0.state == SimState.SharedState([], [], false)
    ensures r.0.control.counts == Counts(r.0.state.vehicles)
    ensures r.0.camera == app.camera && r.0.clock == app.clock
    ensures r.0.control.updateIntervalMs == app.control.updateIntervalMs
  {
    var wasPaused := app.control.paused;
    var cleared := SimState.SharedState([], [], useRandom);
    var init := if useRandom then RandomFleet(trig, rng, app.draws) else (cleared, app.draws);
    var control := UpdateVehicleCounts(app.control.(paused := true), init.0.vehicles);
    var control' := if useRandom && !wasPaused then control.(paused := false) else control;
    (app.(state := init.0, control := control', draws := init.1), !useRandom)
  }

  /** A switch keeps the app consistent; a switch to random mode yields the
      110-route synthetic fleet, whatever was loaded before. */
  lemma SwitchFleet(app: App, useRandom: bool, trig: Trig, rng: nat -> real)
    requires UnitStream(rng) && ValidScale(app.camera.scale)
    ensures Consistent(SetDataSourceMode(app, useRandom, trig, rng).0)
    ensures useRandom ==> |SetDataSourceMode(app, useRandom, trig, rng).0.state.routes| == 110
    ensures useRandom ==> SetDataSourceMode(app, useRandom, trig, rng).0.control.counts == VehicleCounts(1000, 1000, 2000)
  {
    var r := SetDataSourceMode(app, useRandom, trig, rng).0;
    if useRandom {
      RandomFleetSize(trig, rng, app.draws);
      assert r.state == RandomFleet(trig, rng, app.draws).0;
    } else {
      assert r.state.vehicles == [];
    }
  }

  /** The completion of the TSV load, as written. On success the routes are
      replaced only if debug mode is still off, the counts are refreshed,
      and the simulation resumes only if debug mode is off. On failure the
      simulation resumes, whatever the mode. */
  function LoadFinishedAsWritten(app: App, outcome: Result<(string, string)>, parse: string -> Option<real>,
                                 trig: Trig, rng: nat -> real): (r: App)
    ensures outcome.Err? ==> r == app.(control := app.control.(paused := false))
    ensures outcome.Ok? && app.state.debugMode ==> r == app.(control := UpdateVehicleCounts(app.control, app.state.vehicles))
    ensures outcome.Ok? && !app.state.debugMode ==>
              && r.state == SimState.UpdateWithRealRoutes(app.state, outcome.value.0, outcome.value.1, parse, trig, rng, app.draws).0
              && !r.control.paused && r.control.counts == Counts(r.state.vehicles)
  {
    match outcome
    case Err(_) => app.(control := app.control.(paused := false))
    case Ok((bus, tube)) =>
      if app.state.debugMode then app.(control := UpdateVehicleCounts(app.control, app.state.vehicles))
      else
        var u := SimState.UpdateWithRealRoutes(app.state, bus, tube, parse, trig, rng, app.draws);
        app.(state := u.0, control := UpdateVehicleCounts(app.control, u.0.vehicles).(paused := false), draws := u.1)
  }

  /** A failed load in random mode undoes a pause the user made after
      switching modes: switch to random mode unpaused, pause, let the load
      begun in real-data mode fail, and the simulation runs again. */
  lemma LoadErrorUnpausesRandomMode(app: App, message: string, parse: string -> Option<real>,
                                    trig: Trig, rng: nat -> real)
    requires !app.control.paused
    ensures var random := SetDataSourceMode(app, true, trig, rng).0;
            var paused := TogglePause(random).0;
            && paused.state.debugMode && paused.control.paused
            && !LoadFinishedAsWritten(paused, Err(message), parse, trig, rng).control.paused
  {
  }

  /** The completion of the TSV load as its comment intends: a failure
      resumes the simulation only in real-data mode, as a success does. */
  function LoadFinished(app: App, outcome: Result<(string, string)>, parse: string -> Option<real>,
                        trig: Trig, rng: nat -> real): (r: App)
    ensures app.state.debugMode ==> r.state == app.state && r.control.paused == app.control.paused
    ensures !app.state.debugMode ==> !r.control.paused
    ensures outcome.Err? ==> r.state == app.state
    ensures outcome.Ok? && !app.state.debugMode ==>
              r.state == SimState.UpdateWithRealRoutes(app.state, outcome.value.0, outcome.value.1, parse, trig, rng, app.draws).0
    ensures !app.state.debugMode || outcome.Ok? ==> r == LoadFinishedAsWritten(app, outcome, parse, trig, rng)
    ensures r.camera == app.camera && r.clock == app.clock
  {
    if outcome.Err? && app.state.debugMode then app
    else LoadFinishedAsWritten(app, outcome, parse, trig, rng)
  }

  /** What every step keeps: vehicles that can move along their routes, a
      scale in the zoom range, and the stats counts of the current fleet. */
  predicate Consistent(app: App) {
    && FleetMovable(app.state.routes, app.state.vehicles)
    && ValidScale(app.camera.scale)
    && app.control.counts == Counts(app.state.vehicles)
  }

  /** The pause toggle and a load completion keep the app consistent, and
      neither touches the tickers: a single ticker stays the only one. */
  lemma ToggleLoadConsistent(app: App, outcome: Result<(string, string)>,
                             parse: string -> Option<real>, trig: Trig, rng: nat -> real, interval: nat)
    requires Consistent(app)
    ensures Consistent(TogglePause(app).0)
    ensures Consistent(LoadFinished(app, outcome, parse, trig, rng))
    ensures SingleTicker(app.clock, interval) ==> SingleTicker(TogglePause(app).0.clock, interval)
    ensures SingleTicker(app.clock, interval) ==> SingleTicker(LoadFinished(app, outcome, parse, trig, rng).clock, interval)
  {
  }

  /** One tick of the animation loop. When paused nothing changes;
      otherwise every vehicle on a valid route is moved once, the counts
      are refreshed and, in follow mode, the camera recentres on the
      selected vehicle if it exists and the canvas is found. The returned
      marks are what is drawn, which happens paused or not. */
  method Tick(app: App, canvas: Option<Point>) returns (r: App, marks: seq<Mark>)
    requires forall i :: 0 <= i < |app.state.vehicles| && app.state.vehicles[i].routeIndex < |app.state.routes| ==>
               Movable(app.state.vehicles[i], app.state.routes[app.state.vehicles[i].routeIndex])
    requires app.camera.scale > 0.0
    ensures app.control.paused ==> r == app
    ensures marks == VehicleMarks(r.camera, r.state.vehicles)
    ensures r.state.routes == app.state.routes && |r.state.vehicles| == |app.state.vehicles|
    ensures !app.control.paused ==> forall i :: 0 <= i < |r.state.vehicles| ==>
              r.state.vehicles[i] == if app.state.vehicles[i].routeIndex < |app.state.routes|
                                     then Advance(app.state.vehicles[i], app.state.routes[app.state.vehicles[i].routeIndex])
                                     else app.state.vehicles[i]
    ensures !app.control.paused ==> r.control.counts == Counts(r.state.vehicles)
    ensures var c := app.camera;
            !app.control.paused && c.followMode && c.selected.Some? && c.selected.value < |app.state.vehicles| && canvas.Some? ==>
              DrawnAtCentre(r.camera, r.state.vehicles[c.selected.value], canvas.value)
    ensures var c := app.camera;
            !(c.followMode && c.selected.Some? && c.selected.value < |app.state.vehicles| && canvas.Some?) ==> r.camera == c
    ensures r.camera.scale == app.camera.scale && r.camera.selected == app.camera.selected
    ensures Consistent(app) ==> Consistent(r)
  {
    r := app;
    if !app.control.paused {
      var s := SimState.UpdateAll(app.state);
      var c := Follow(app.camera, s.vehicles, canvas);
      if app.camera.followMode && app.camera.selected.Some? && app.camera.selected.value < |s.vehicles| && canvas.Some? {
        FollowCentres(app.camera, s.vehicles, canvas.value);
      }
      r := app.(state := s, control := UpdateVehicleCounts(app.control, s.vehicles), camera := c);
      assert Consistent(app) ==> FleetMovable(r.state.routes, r.state.vehicles);
    }
    marks := VehicleMarks(r.camera, r.state.vehicles);
  }

  /** The tick of the first version (sim/src/ui.rs) over the fixed store:
      no pause flag, every vehicle moves on every tick. */
  method LegacyTick(s: SimFixed.Store) returns (r: SimFixed.Store)
    requires FleetMovable(s.routes, s.vehicles)
    ensures r.routes == s.routes && |r.vehicles| == |s.vehicles|
    ensures forall i :: 0 <= i < |r.vehicles| ==> r.vehicles[i] == Advance(s.vehicles[i], s.routes[s.vehicles[i].routeIndex])
    ensures FleetMovable(r.routes, r.vehicles)
  {
    var moved := UpdateAll(s.routes, s.vehicles);
    r := s.(vehicles := moved);
  }

  /** The timer side of `change_animation_interval`, as written: if the
      cell holds an id, that ticker is cleared and a new loop is started,
      whose id the write-once cell does not record. */
  function RestartAsWritten(k: Clock, ms: nat): (r: Clock)
    ensures r.cell == k.cell
    ensures k.cell.None? ==> r == k
    ensures k.cell.Some? ==> k.cell.value !in r.live || k.cell.value == k.nextId
  {
    if k.cell.Some? then StartLoop(k.(live := k.live - {k.cell.value}), ms) else k
  }

  /** `change_animation_interval`, as written: the interval is stored and
      the loop restarted. */
  function ChangeIntervalAsWritten(app: App, ms: nat): (r: App)
    ensures r.control == app.control.(updateIntervalMs := ms)
    ensures r.clock == RestartAsWritten(app.clock, ms)
    ensures r.(control := app.control, clock := app.clock) == app
  {
    app.(control := app.control.(updateIntervalMs := ms), clock := RestartAsWritten(app.clock, ms))
  }

  /** From one ticker, the first change leaves one ticker whose id the
      cell does not hold; the second change then clears nothing, so two
      tickers run: one at each requested interval. */
  lemma TickersAccumulate(k: Clock, interval: nat, a: nat, b: nat)
    requires SingleTicker(k, interval) && Issued(k)
    ensures var once := RestartAsWritten(k, a);
            var twice := RestartAsWritten(once, b);
            && once.live == map[k.nextId := a]
            && twice.live == map[k.nextId := a, k.nextId + 1 := b]
            && |twice.live| == 2
  {
    assert k.live - {k.cell.value} == map[];
    var once := RestartAsWritten(k, a);
    assert once.live - {k.cell.value} == once.live;
    var twice := RestartAsWritten(once, b);
    assert twice.live.Keys == {k.nextId, k.nextId + 1};
  }

  /** Once the cell names a cleared ticker, a change never clears anything
      and the live tickers grow by one. */
  lemma StaleCellGrows(k: Clock, ms: nat)
    requires k.cell.Some? && k.cell.value !in k.live && Issued(k)
    ensures var r := RestartAsWritten(k, ms);
            && |r.live| == |k.live| + 1
            && r.cell.value !in r.live && Issued(r)
  {
    assert k.live - {k.cell.value} == k.live;
    assert k.nextId !in k.live;
  }

  /** `change_animation_interval` as evidently intended: the cell records
      the id of the new loop, so the next change clears it. */
  function ChangeInterval(app: App, ms: nat): (r: App)
    ensures r.control == app.control.(updateIntervalMs := ms)
    ensures r.(control := app.control, clock := app.clock) == app
    ensures SingleTicker(app.clock, app.control.updateIntervalMs) && Issued(app.clock) ==>
              SingleTicker(r.clock, ms) && Issued(r.clock)
  {
    var k := app.clock;
    var k' := if k.cell.Some? then StartLoop(Clock(None, k.live - {k.cell.value}, k.nextId), ms) else k;
    app.(control := app.control.(updateIntervalMs := ms), clock := k')
  }

  /** Any number of corrected changes keep exactly one ticker, running at
      the last requested interval. */
  lemma {:induction false} ChangesKeepOneTicker(app: App, changes: seq<nat>)
    requires SingleTicker(app.clock, app.control.updateIntervalMs) && Issued(app.clock)
    ensures var r := ChangeAll(app, changes);
            SingleTicker(r.clock, r.control.updateIntervalMs) && Issued(r.clock)
            && |r.clock.live| == 1
            && (|changes| > 0 ==> r.control.updateIntervalMs == changes[|changes| - 1])
    decreases |changes|
  {
    if |changes| > 0 {
      ChangesKeepOneTicker(ChangeInterval(app, changes[0]), changes[1..]);
      if |changes| > 1 {
        assert changes[1..][|changes[1..]| - 1] == changes[|changes| - 1];
      }
    }
  }

  function ChangeAll(app: App, changes: seq<nat>): App
    decreases |changes|
  {
    if |changes| == 0 then app else ChangeAll(ChangeInterval(app, changes[0]), changes[1..])
  }
}
