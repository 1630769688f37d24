# roundel, modelled in Dafny

roundel animates a fleet of London buses and trains moving along routes.
It draws them on a canvas that can be panned and zoomed, or on a map, and
lets the user pick a vehicle and follow it. This project models the logic
of the system as pure Dafny functions over immutable values, and proves
what that logic promises. The parts covered are:

- the kinematic step of a vehicle (`update_position` and its copies);
- spawning a fleet onto a route catalogue;
- building the catalogue from TSV rows, from TfL line geometry, from real-time arrivals or from the synthetic generators, with the real-time → static → sample cascade;
- the control and clock state machine (pause, data-source switch, stale-load guard, interval calibration, FPS conversion);
- the camera: world ↔ screen transform, drag, wheel and pinch zoom, picking, following, and the drawing sizes;
- the topology data code: station filtering, platform grouping, the route-file merge, the LineString coordinate parser, the line → stations map, GeoJSON records after RFC 7946 sections 3.1.2, 3.1.4, 3.2 and 3.3, the line tables and the CSS text;
- the logger's level and category filter, its line format and its `{}` substitution;
- the index tables of the Python toy graph (`feature_gen.py`, `toy_model/toy_feature_gen.py`).

Global and thread-local cells (`thread_local!`, `static mut`, atomics) become
explicit state values passed in and returned. Three kinds of outside input
become parameters:

- every `Math::random` call reads the next value of an input stream `rng: nat -> real` of values in [0,1), at a cursor;
- `parse::<f32/f64>` is an uninterpreted partial function `string -> Option<real>`;
- `sin`, `cos` and `PI` are uninterpreted values passed in a record.

Network fetches arrive as their outcome, `Ok(data)` or `Err(message)`.
Floating-point numbers are `real`, and integer widths are written out where they matter.

The four copies of the kinematic step (three textually identical, the map
crate's in a different shape) are modelled once,
as `Kinematics.Settle` / `Kinematics.Step`:

- `sim/src/model.rs`, `sim/lib.rs` and `roundel-wb-sim/src/model/vehicle.rs` are textually identical, and one imperative method, `SimVehicle.UpdatePosition`, is proved to compute the reference step;
- the map crate's copy, `map/src/app/simulation/mod.rs`, has a different if/else shape; it is its own function, proved equal to the reference.

The superseded copies `sim/lib.rs`, `sim/src/model.rs`, `sim/src/ui.rs` and
`sim/src/ui/input.rs` are configurations of the shared functions, not separate
designs.

Modules, leaf first:

- `Common`: interpolation, counting, `filter` and `filter_map`;
- `Text`: `split`, `trim`, `lines`, `find`, `replacen`, decimal rendering and string order;
- `Kinematics`, `SimVehicle`: the step;
- `Spawn`, `SimFixed`, `SimState`: the fleet and the stores;
- `Geo`, `RouteBuilder`: projection, coordinate parsing, route generation;
- `Control`, `View`, `UiCore`: clock, camera and the application state machine of the canvas version;
- `TflLines`: `api.rs` and `line_definitions.rs`;
- `MapModel`, `MapSimulation`: the map version's simulation;
- `GeoJson`, `Loader`, `MapHelpers`: topology data;
- `Log`: the logger;
- `PairSeqs`, `ToyGraph`, `ToyEdges`: the toy graph tables.

Where the code and its comments disagree, the model follows the code, and the
"## Left out" section names the cases.

## Model

| member | source | states |
|---|---|---|
| Kinematics.Arrive | sim/src/model.rs:35-43 | one arrival subtracts exactly 1 from the fraction, the vehicle leaves from the station it reached, the direction flips exactly when the candidate index `next + direction` is outside the route, and afterwards `next = last + direction` with both indices in bounds |
| Kinematics.Arrivals | sim/src/model.rs:33-34 | the number of loop iterations a fraction triggers: none below 1, otherwise its whole part ⌊fraction⌋ |
| Kinematics.Settle | sim/src/model.rs:34-44 | the arrival loop ends with `fraction < 1`, subtracts exactly `Arrivals(fraction)`, keeps a non-negative fraction non-negative, keeps the indices in bounds, and leaves `next = last + direction` after any arrival |
| Kinematics.SettleCountsArrivals | sim/src/model.rs:34-36 | the loop performs exactly ⌊fraction + speed⌋ arrivals, each one `Arrive` |
| Kinematics.Step | sim/src/model.rs:33-44 | add the speed, then settle: the fraction ends below 1, is non-negative when fraction and speed start non-negative, and the indices stay in bounds and adjacent |
| Kinematics.StepArrivesAtMostOnce | sim/src/model.rs:33-44 | with a speed below 1 from a fraction in [0,1), a tick either just adds the speed or performs exactly one arrival |
| Kinematics.ZeroSpeedIsIdentity | sim/src/model.rs:33-34 | at speed 0 with a fraction in [0,1) the loop body never runs, so the motion is unchanged |
| Kinematics.Run | sim/src/model.rs:31-50 | repeated ticks keep the fraction in [0,1) and the vehicle on a valid, adjacent segment |
| Kinematics.ZeroSpeedRunIsIdentity | roundel-wb-sim/src/model/vehicle.rs:23-25 | any number of ticks at speed 0 leave indices, direction and fraction unchanged |
| Kinematics.Locate | sim/src/model.rs:46-49 | the interpolated position is `stations[last]` at fraction 0, `stations[next]` at fraction 1, and lies in the box spanned by the two stations for a fraction in [0,1] |
| Kinematics.LocateSpelled | sim/src/model.rs:46-49 | the position is `x1 + (x2 − x1)·fraction`, likewise y |
| Kinematics.BounceOnTwoStations | sim/src/model.rs:39-43 | on a two-station route, last 0, next 1, direction +1, crossing 1.0 gives last 1, next 0, direction −1 |
| Kinematics.BounceExample | sim/src/model.rs:31-50 | stations (0,0),(10,0), fraction 0.9, speed 0.3: the vehicle bounces to last 1, next 0, fraction 0.2, at (8,0) |
| SimVehicle.Advance | sim/src/model.rs:31-50 | reference result of `update_position`: type, route and speed kept, the vehicle stays movable on its route, `fraction < 1`, non-negative inputs give a position between the two stations, and fraction 0 puts it on `stations[last]` |
| SimVehicle.UpdatePosition | sim/src/model.rs:31-50 | the imperative loop (also sim/lib.rs:69-97 and roundel-wb-sim/src/model/vehicle.rs:22-39, textually the same) computes exactly `Advance` |
| SimVehicle.AdvanceFrom | sim/lib.rs:92-96 | after the loop both indices are in bounds and x, y are the linear interpolation between `stations[last]` and `stations[next]` |
| SimVehicle.ZeroSpeedIsFixedPoint | roundel-wb-sim/src/model/vehicle.rs:23-39 | at speed 0 the indices, direction and fraction are unchanged and repeated calls give the same (x, y) |
| SimVehicle.UpdateAll | sim/lib.rs:297-302 | every vehicle is stepped exactly once against `routes[route_index]`, in fleet order, and every vehicle can still move |
| SimVehicle.UpdateAllGuarded | sim/src/model/state.rs:278-285 | vehicles whose route index is out of range are skipped and left unchanged; every other vehicle is stepped once against its own route |
| SimVehicle.CountTypesCover | sim/src/ui/control.rs:42-56 | every vehicle is a bus or a train, so the two counts add up to the fleet size |
| Spawn.SliceFractionInSlice | sim/src/model/state.rs:135-137 | with a random value in [0,1), the start fraction `f_lo + (f_hi − f_lo)·r` of the i-th of `count` vehicles lies in the i-th slice [i/count, (i+1)/count) and so in [0,1) |
| Spawn.SliceWidth | sim/src/model/state.rs:135-136 | consecutive slices are exactly `1/count` wide, start at 0 or later and end at 1 or earlier, so the slices of one direction tile [0,1) |
| Spawn.SpawnSpeed | sim/src/model/state.rs:138 | the start speed `0.005 + r·0.01` lies in [0.005, 0.015) for a random value in [0,1) |
| Spawn.PreSpawn | sim/src/model/state.rs:129-176 | a forward vehicle starts with last 0, next 1, direction +1; a backward vehicle with last n−1, next n−2, direction −1; either way it sits on a valid adjacent segment and keeps its slot's type and route index |
| Spawn.SplitOf | sim/src/model/state.rs:125-126 | `per / 2` forward and `per − per / 2` backward add up to `per`, with at most one more backward than forward |
| Spawn.RouteSlots | sim/src/model/state.rs:128-178 | one route yields `count_fwd + count_bwd` vehicles, or none when it has fewer than two stations (the `continue` at lines 130 and 156) |
| Spawn.RouteCount | sim/src/model/state.rs:124-178 | a route with two or more stations sends exactly its forward share forward and its backward share backward, and contributes to no other route or direction |
| Spawn.RangeCount | sim/src/model/state.rs:118-179 | over the route loop, route `j` gets its share in each direction exactly when it lies in the loop's range, exists (the guard at line 120) and has at least two stations, and none otherwise |
| Spawn.RangeSize | sim/src/model/state.rs:118-179 | when every route of the range exists with two or more stations, the loop creates `count × per` vehicles |
| Spawn.RangesHeading | sim/src/model/state.rs:117-257 | the bus loop followed by the train loop puts on each route, per direction, the bus share plus the train share |
| Spawn.RangesPlacedTypes | sim/src/model/state.rs:117-257 | with every route present and of two or more stations, the fleet built by the bus loop then the train loop holds exactly the bus range's size of buses and the train range's size of trains, and all of them can move |
| Spawn.PlacedTypes | sim/src/model/state.rs:139-151 | building and moving vehicles keeps each one's type, so bus slots give buses and train slots give trains, one vehicle per slot |
| Spawn.Spawned | sim/src/model/state.rs:137-149 | one vehicle per slot, in slot order, with the slot's type, route and direction, on a valid segment; `rng()` is read twice per vehicle |
| Spawn.SpawnedInSlices | sim/src/model/state.rs:133-138 | with random values in [0,1), every spawned vehicle starts inside its own slice of [0,1) and at a speed in [0.005, 0.015) |
| Spawn.SpawnedHeading | sim/src/model/state.rs:139-151 | the spawned vehicles count per route and direction exactly as the loop iterations that built them |
| Spawn.Place | sim/src/model/state.rs:150-151 | each new vehicle is moved once (`MovedOnce`) before it is pushed: same type, route and speed, its motion is exactly one kinematic step of the planned one, its fraction is back below 1 and, starting from a non-negative fraction and speed, it sits between its two current stations; it stays on a valid segment and the fleet stays movable |
| SimFixed.NewStore | sim/src/model.rs:60-65 | a new store has no routes and no vehicles |
| SimFixed.TrainRoute | sim/src/model.rs:72-82 | a train route has 6 stations |
| SimFixed.BusRoute | sim/src/model.rs:86-96 | a bus route has 8 stations |
| SimFixed.BuildRoutes | sim/src/model.rs:67-98 | `build_routes` appends 10 train routes of 6 stations and then 100 bus routes of 8 stations, keeping the existing routes, and reads a fixed number of random values |
| SimFixed.TrainRouteDescends | sim/src/model.rs:74-80 | because `y_step` ≥ 100 exceeds the 30-unit jitter, each train station lies strictly below the previous one, within 15 of the route's base x |
| SimFixed.BusRouteAdvances | sim/src/model.rs:88-94 | because `x_step` ≥ 80 exceeds the 20-unit jitter, each bus station lies strictly right of the previous one, within 10 of the route's base y |
| SimFixed.FreshShape | sim/src/model.rs:67-98 | from an empty store the routes are 110: ten of 6 stations, then a hundred of 8 |
| SimFixed.FixedPlan | sim/src/model.rs:105-227 | every vehicle the spawn loops build can move along its route |
| SimFixed.FixedSplit | sim/src/model.rs:105-227 | per route and direction: 50 trains each way on routes 0..9, 5 buses each way on routes 10..109, nothing elsewhere |
| SimFixed.FixedFleetTypes | sim/src/model.rs:100-227 | on the fixed routes the fleet is 2,000 vehicles: 1,000 buses and 1,000 trains |
| SimFixed.InitFleetSize | sim/src/model.rs:100-227 | "1,000 buses + 1,000 trains": from a new store `init_vehicles` leaves 110 routes and 2,000 vehicles, 1,000 of each kind, every one on an existing route it can move along |
| SimState.New | sim/src/model/state.rs:26-32 | a new state has no routes, no vehicles and debug mode off |
| SimState.SetDebugMode | sim/src/model/state.rs:35-37 | only the debug toggle changes |
| SimState.BuildRandomRoutes | sim/src/model/state.rs:40-50 | the routes are replaced by 110 synthetic ones, trains first |
| SimState.TrainRouteCount | sim/src/model/state.rs:97 | `take(11).count().min(10)` is `min(n, 10)`: at most n and at most 10, and equal to one of them |
| SimState.PerRoute | sim/src/model/state.rs:101-106 | with routes present the per-route count is the integer quotient of 1000 (the largest `per` with `routes × per ≤ 1000`); with none it is the fallback |
| SimState.InitPlan | sim/src/model/state.rs:117-257 | every vehicle built can move along its route, one per slot |
| SimState.InitVehicles | sim/src/model/state.rs:80-257 | with no routes and debug off nothing changes; with no routes in debug mode the synthetic routes are built first; otherwise the routes are kept; the toggle is kept; existing vehicles stay in front, and a movable fleet stays movable |
| SimState.InitHeading | sim/src/model/state.rs:97-257 | per route and direction the new vehicles are: half (and the rest) of `1000 / t` for each of the first `t = min(n,10)` routes, half (and the rest) of `1000 / b` for each of the others, none for a route of fewer than two stations |
| SimState.InitTypes | sim/src/model/state.rs:97-257 | with every route of two or more stations the new vehicles are `b·(1000/b)` buses and `t·(1000/t)` trains (`FleetSizes`), each at most 1,000, and nothing else |
| SimState.InitSlotsPlaced | sim/src/model/state.rs:117-257 | the bus loop over routes `t..n` followed by the train loop over routes `0..t`, once spawned and moved, gives exactly `FleetSizes(n)` buses and trains, every one movable |
| SimState.DebugFleet | sim/src/model/state.rs:82-86 | debug mode with no routes gives 110 synthetic routes and 2,000 movable vehicles, 1,000 buses and 1,000 trains |
| SimState.UpdateWithRows | sim/src/model/state.rs:53-67 | after the update every vehicle can move along its route, and the toggle is kept |
| SimState.UpdateForgetsFleet | sim/src/model/state.rs:61-67 | routes and vehicles are cleared before the rebuild, so the result depends on the old state only through its debug toggle |
| SimState.RealRoutesFleet | sim/src/model/state.rs:65-67 | with n > 0 rows the fleet is exactly a fresh `init_vehicles` fleet on the new routes: `b * (1000 / b)` buses and `t * (1000 / t)` trains, where `t = min(n, 10)` and `b = n - t` |
| SimState.UpdateWithRealRoutes | sim/src/model/state.rs:53-67 | after reloading from the TSV texts every vehicle can move along its route and the debug toggle is kept |
| SimState.RealRoutesUpdated | sim/src/model/state.rs:53-67 | from the TSV texts: with n parsed rows in all, n routes and the fresh fleet of `RealRoutesFleet`, every vehicle movable; with no rows and debug mode off, no routes and no vehicles; the toggle is kept |
| SimState.RealRoutesLayout | sim/src/model/state.rs:57-63 | the routes become the train routes (one per train TSV row, in order) followed by the bus routes |
| SimState.RealRoutesEmpty | sim/src/model/state.rs:61-67 | when neither TSV yields a row and debug mode is off, routes and vehicles are both left empty |
| SimState.UpdateAll | sim/src/model/state.rs:278-285 | each vehicle with an in-range route index is stepped once along its route, the others are left alone, routes and toggle are unchanged, and a movable fleet stays movable |
| SimState.Append | sim/src/model/state.rs:62-63 | `Vec::append` moves every element of the argument to the end of the receiver and leaves the argument empty |
| SimState.LoggedCountsAlwaysZero | sim/src/model/state.rs:69-76 | the log line reads the lengths of the vectors already drained by `append`, so it reports 0 train and 0 bus routes whatever was loaded |
| SimState.LoggedCounts | sim/src/model/state.rs:57-76 | counts taken before the drain split the new routes exactly into the train part and the bus part |
| RouteBuilder.ScaledDraw | sim/src/model/route_builder.rs:165 | `(Math::random() * k) as usize` truncates a value in [0, k) to an index below k |
| RouteBuilder.ParseRowsAppend | sim/src/model/route_builder.rs:21-43 | the row loop reads lines independently: the rows of two runs of lines are the rows of each run, in order |
| RouteBuilder.ParseRowsSingle | sim/src/model/route_builder.rs:21-42 | a line gives its row exactly when it has five fields and both coordinates parse, and is skipped otherwise |
| RouteBuilder.ParseTsvSkipsHeader | sim/src/model/route_builder.rs:18-19 | the first line is skipped: a header followed by data lines reads as the rows of the data lines alone |
| RouteBuilder.ShortLineDropped | sim/src/model/route_builder.rs:22-23 | a line with fewer than four tabs (fewer than five fields) yields no row |
| RouteBuilder.RowOfFields | sim/src/model/route_builder.rs:22-41 | with five or more fields the row is fields 0, 1, the parsed field 2, field 3 and the parsed field 4, any further fields ignored; an unparsable coordinate drops the line |
| RouteBuilder.GenerateOverAll | sim/src/model/route_builder.rs:60-75 | a property every generated route has holds for every route the loop pushes |
| RouteBuilder.RealTrainRoutes | sim/src/model/route_builder.rs:50-78 | one train route per parsed row |
| RouteBuilder.RealBusRoutes | sim/src/model/route_builder.rs:81-111 | one bus route per parsed row |
| RouteBuilder.RealTrainShape | sim/src/model/route_builder.rs:60-71 | the i-th train route has 5 stations (3 waypoints) and runs from the projected start to the projected end of the i-th row |
| RouteBuilder.RowEndpoints | sim/src/model/route_builder.rs:60-71 | the i-th route pushed joins the projected endpoints of the i-th row |
| RouteBuilder.RealBusShape | sim/src/model/route_builder.rs:91-104 | the i-th bus route has 7 to 11 stations (5 to 9 waypoints, since `(random·5) as usize` is 0 to 4) and runs from the projected start to the projected end of the i-th row |
| RouteBuilder.RealRoutesTravelable | sim/src/model/route_builder.rs:50-111 | every real train and bus route has at least two stations, its projected endpoints, whatever the random stream |
| RouteBuilder.BuildRandomTrainRoutes | sim/src/model/route_builder.rs:138-177 | one train route per direction: exactly ten |
| RouteBuilder.RandomTrainShape | sim/src/model/route_builder.rs:143-173 | each of the ten train routes starts at projected Oxford Circus and has 6 to 9 stations (4 to 7 waypoints; the comment says 4-8) |
| RouteBuilder.BuildRandomBusRoutes | sim/src/model/route_builder.rs:180-288 | 30 radial, 20 orbital and 50 cross-town routes: exactly 100 |
| RouteBuilder.RadialShape | sim/src/model/route_builder.rs:193-215 | each radial route starts at the projected centre and has 7 to 13 stations (5 to 11 waypoints) |
| RouteBuilder.OrbitalShape | sim/src/model/route_builder.rs:218-245 | each orbital route has `num_segments + 1` points plus the repeated first point, 10 to 17 stations, and ends where it starts |
| RouteBuilder.CrossTownShape | sim/src/model/route_builder.rs:248-285 | each cross-town route has 8 to 17 stations (6 to 15 waypoints) |
| RouteBuilder.RandomRoutesMovable | sim/src/model/state.rs:40-50 | every synthetic route has at least two stations, so every vehicle spawned on it can move |
| Geo.LondonCentered | sim/src/model/geo.rs:33-36 | the London projection has a positive scale (5000 pixels per degree) |
| Geo.ProjectCentre | sim/src/model/geo.rs:39-58 | the centre of the projection lands at (width/2, height/2) |
| Geo.ProjectLatitude | sim/src/model/geo.rs:51-55 | y depends on the latitude alone and decreases strictly as latitude grows |
| Geo.ProjectLongitude | sim/src/model/geo.rs:50-54 | x is affine in longitude with slope `cos(centre latitude)·scale`, independent of latitude |
| Geo.ProjectMany | sim/src/model/geo.rs:61-66 | one projected point per coordinate, in order |
| Geo.ProjectManyAppend | sim/src/model/geo.rs:61-66 | projecting a concatenation projects each part |
| Geo.EnsureInBounds | sim/src/model/geo.rs:69-77 | on a canvas at least 100 wide and high the result lies within the 50-pixel margin, and a coordinate already inside it is unchanged |
| Geo.EnsureInBoundsIdempotent | sim/src/model/geo.rs:69-77 | clamping twice equals clamping once |
| Geo.ParseCoordinate | sim/src/model/geo.rs:81-97 | an error is one of the three messages "Invalid coordinate format", "Invalid latitude", "Invalid longitude" |
| Geo.ParseCoordinateCommas | sim/src/model/geo.rs:82-85 | the format error is reported exactly when the text does not have exactly one comma |
| Geo.ParseCoordinateJoin | sim/src/model/geo.rs:87-96 | for "a,b" the latitude is checked first, then the longitude; when both trimmed parts parse the result is (lat, lng) in that order |
| Geo.Wobble | sim/src/model/geo.rs:123-128 | an offset `random·randomness·|d|`, added or subtracted, moves the point at most `randomness·|d|` |
| Geo.GenerateRoutePath | sim/src/model/geo.rs:101-138 | the path is start, then the `waypoints` intermediate points in order, then end: `waypoints + 2` points |
| Geo.WaypointNearLine | sim/src/model/geo.rs:117-129 | with random values in [0,1), waypoint i lies within `randomness·|dx|` and `randomness·|dy|` of the straight-line point at `i/(waypoints+1)` |
| Control.InitialControl | sim/src/ui/control.rs:24-33 | the control starts running, at a 16 ms interval, calibrating, with no frames measured and zero counts |
| Control.Counts | sim/src/ui/control.rs:42-57 | the counts hold the number of buses, the number of trains, and their sum, which is the fleet size |
| Control.CountVehicles | sim/src/ui/control.rs:43-55 | the one-pass counting loop computes exactly the per-type counts of the fleet |
| Control.UpdateVehicleCounts | sim/src/ui/control.rs:42-57 | only the stored counts change, and they become the counts of the current fleet |
| Control.CountsReadBack | sim/src/ui/control.rs:35-38 | `get_vehicle_counts` returns what the last update stored, whose total is the fleet size |
| Control.AutoAdjustInterval | sim/src/ui/control.rs:60-90 | after ten frames a call changes nothing; before that it adds the frame time and counts the frame; the interval and the calibration flag change only on the tenth frame |
| Control.CalibrateOnce | sim/src/ui/control.rs:60-90 | from the initial control, ten or more frames leave exactly ten counted, the interval 33 ms if their average exceeds 8 ms and 16 ms otherwise, and calibration off; later frames are ignored |
| Control.FeedPrefix | sim/src/ui/control.rs:62-88 | up to the tenth frame the calls just accumulate; the tenth decides the interval from the average |
| Control.FeedAfter | sim/src/ui/control.rs:62 | once ten frames are counted, any further frames change nothing |
| Control.InitialFps | sim/src/ui/input/simulation_control.rs:15-22 | the initial FPS is the integer quotient `1000 / interval`, or 30 for a zero interval (likewise sim/src/ui/input.rs:133-140) |
| Control.SliderInterval | sim/src/ui/input/simulation_control.rs:69 | the slider's interval is the integer quotient `1000 / fps`, or 33 for 0 FPS (likewise sim/src/ui/input.rs:185-187) |
| Control.FpsRoundTrip | sim/src/ui/input/simulation_control.rs:15-22 | converting FPS to interval and back (or interval to FPS and back) never yields less than the start for values up to 1000, and the default 16 ms converts to 62 FPS and back to 16 ms |
| Control.SliderChange | sim/src/ui/input/simulation_control.rs:64-81 | slider text that does not parse as `u32` changes nothing; otherwise the interval for the parsed FPS is requested |
| Control.PauseLabel | sim/src/ui/input/simulation_control.rs:41-44 | the button reads "Resume" exactly when the simulation is paused |
| Control.FollowLabel | sim/src/ui/input/simulation_control.rs:103-111 | the button reads "Stop Following" exactly when follow mode is on, and "Follow Selected Vehicle" otherwise |
| UiCore.StartLoop | sim/src/ui/core.rs:266-276 | `setInterval` adds a new live ticker at the requested interval and keeps the others; `OnceCell::set` records its id only when the cell was empty |
| UiCore.FirstTicker | sim/src/ui/core.rs:266-276 | after the first loop start exactly one ticker runs, and the cell names it |
| UiCore.RandomFleetSize | sim/src/ui/core.rs:57-62 | building the random routes and then the vehicles gives 110 routes and 1,000 buses and 1,000 trains, all movable |
| UiCore.Startup | sim/src/ui/core.rs:30-92 | start-up sets debug mode from the checkbox, builds the synthetic fleet in random mode and nothing in real-data mode, refreshes the counts, starts one ticker at the current interval, and begins the TSV load only in real-data mode |
| UiCore.StartupFleet | sim/src/ui/core.rs:50-68 | either way the page starts consistent; in random mode the stats show 110 routes, 1,000 buses and 1,000 trains |
| UiCore.TogglePause | sim/src/ui/core.rs:309-316 | only the pause flag changes: it flips, and the new value is returned |
| UiCore.SetDataSourceMode | sim/src/ui/core.rs:346-390 | the switch pauses, sets the toggle and clears routes and vehicles; random mode rebuilds the synthetic fleet and restores the earlier pause flag; real-data mode stays paused with nothing loaded and starts the load; the counts are refreshed; camera, ticker and interval are kept |
| UiCore.SwitchFleet | sim/src/ui/core.rs:346-390 | a switch keeps the app consistent, and a switch to random mode gives the 110-route, 1,000 + 1,000 fleet whatever was loaded before |
| UiCore.LoadFinishedAsWritten | sim/src/ui/core.rs:121-161 | as written: a load error unpauses whatever the mode; a success replaces the routes only in real-data mode, refreshes the counts and unpauses only in real-data mode |
| UiCore.LoadErrorUnpausesRandomMode | sim/src/ui/core.rs:151-160 | switching to random mode, pausing, then a failing load begun earlier leaves the simulation running against the user's pause |
| UiCore.LoadFinished | sim/src/ui/core.rs:155-156 | as the comment intends, a failed load resumes only in real-data mode; in random mode routes and pause flag are untouched, and it agrees with the code everywhere else |
| UiCore.ToggleLoadConsistent | sim/src/ui/core.rs:121-161 | pausing and a load completion keep the app consistent (counts match the fleet, every vehicle movable, scale in range), and neither touches the tickers, so a single ticker stays single |
| UiCore.Tick | sim/src/ui/core.rs:183-257 | paused: nothing changes; otherwise each vehicle on a valid route moves once, the counts are refreshed, and in follow mode with a selected, existing vehicle the camera puts that vehicle at the centre of the canvas; the frame draws the updated vehicles |
| UiCore.LegacyTick | sim/src/ui.rs:56-62 | the first version moves every vehicle once on every tick, with no pause flag, and keeps the fleet movable |
| UiCore.RestartAsWritten | sim/src/ui/core.rs:292-302 | as written: with an empty cell nothing restarts; otherwise the recorded ticker is cleared and a new one starts, but the cell keeps the old id |
| UiCore.ChangeIntervalAsWritten | sim/src/ui/core.rs:286-305 | the interval is stored and the loop restarted as written; nothing else changes |
| UiCore.TickersAccumulate | sim/src/ui/core.rs:276 | after one slider change the cell names a cleared ticker, so a second change clears nothing and two tickers run, one at each interval |
| UiCore.StaleCellGrows | sim/src/ui/core.rs:293-299 | once the cell names a cleared ticker, every change adds a live ticker and clears none |
| UiCore.ChangeInterval | sim/src/ui/core.rs:275-276 | as intended, the id of the new loop replaces the stored one, so a single ticker at the old interval becomes a single ticker at the new one |
| UiCore.ChangesKeepOneTicker | sim/src/ui/core.rs:286-305 | with the correction, any sequence of changes leaves exactly one ticker, running at the last requested interval |
| View.InitialCamera | sim/src/ui/camera.rs:22-27 | the camera starts with no pan and scale 1, nothing selected and not following |
| View.InitialDrag | sim/src/ui/camera.rs:13-19 | the drag state starts not dragging at (0,0) |
| View.ScreenWorldInverse | sim/src/ui/input/vehicle_selection.rs:40-41 | the click conversion `screen / scale + pan` inverts the drawing transform `(world − pan)·scale` of sim/src/ui/draw.rs, in both directions |
| View.PressAt | sim/src/ui/input/camera_control.rs:18-25 | mouse down starts a drag at the pointer |
| View.Release | sim/src/ui/input/camera_control.rs:36-40 | mouse up stops the drag and keeps the last position |
| View.DragMove | sim/src/ui/input/camera_control.rs:55-80 | outside a drag a move changes nothing; during one the new pointer position is recorded and only the pan changes (the earlier handler at sim/src/ui/input.rs:59-75 is the same) |
| View.DragKeepsGrip | sim/src/ui/input/camera_control.rs:61-71 | panning by `−delta / scale` keeps the world point under the pointer under the pointer |
| View.DragComposes | sim/src/ui/input/camera_control.rs:61-71 | two moves of one drag pan as far as a single move to the final position |
| View.ClampScale | sim/src/ui/input/camera_control.rs:114-119 | the clamp yields a scale in [0.1, 50] and leaves a scale already there unchanged |
| View.Wheel | sim/src/ui/input/camera_control.rs:99-120 | a wheel event changes only the scale, and leaves it within [0.1, 50] (the earlier handler at sim/src/ui/input.rs:100-118 is the same) |
| View.WheelDirection | sim/src/ui/input/camera_control.rs:105-112 | a negative delta never zooms out, any other delta never zooms in |
| View.TouchStart | sim/src/ui/input/camera_control.rs:147-172 | two fingers record their distance, one finger starts a drag at its position, any other count changes nothing |
| View.PinchIsScaling | sim/src/ui/input/camera_control.rs:207-220 | the three branches of the pinch (factor above, below or equal to 1) amount to one multiplication followed by the clamp |
| View.TouchMove | sim/src/ui/input/camera_control.rs:184-256 | two fingers with a recorded distance multiply the scale by `distance / previous` and clamp it; without one the camera is kept; either way the distance is recorded; one finger is a drag move |
| View.TouchEnd | sim/src/ui/input/camera_control.rs:266-282 | when no finger remains, dragging stops and the pinch distance is reset to 0; otherwise nothing changes |
| View.TouchCancel | sim/src/ui/input/camera_control.rs:294-305 | a cancel always stops dragging and resets the pinch distance |
| View.HandlersKeepScale | sim/src/ui/input/camera_control.rs:55-256 | no handler moves a clamped scale out of [0.1, 50], so no later division by the scale divides by zero |
| View.PickNearest | sim/src/ui/input/vehicle_selection.rs:43-62 | the loop selects a vehicle strictly within the threshold and nearest to the click, the first one on ties, and selects none exactly when no vehicle is close enough |
| View.Click | sim/src/ui/input/vehicle_selection.rs:17-89 | clicks during a drag are ignored; otherwise the selection becomes the nearest vehicle strictly within `10 / scale` of the clicked world point, or none when there is none, and an empty selection turns follow mode off when the follow button exists; the pan and scale are untouched |
| View.FollowToggle | sim/src/ui/input/simulation_control.rs:100-105 | the follow button flips follow mode only while a vehicle is selected |
| View.Follow | sim/src/ui/core.rs:200-232 | recentring changes only the pan, and only with follow mode on, a selected vehicle that exists and a canvas found |
| View.FollowCentres | sim/src/ui/core.rs:217-224 | `pan = vehicle − canvas / scale / 2` draws the followed vehicle exactly at the centre of the canvas |
| View.StationRadius | sim/src/ui/draw.rs:62-65 | train-route stations are radius 5; bus stops are 5 at the two terminals and 2 elsewhere |
| View.VehicleMarks | sim/src/ui/draw.rs:96-150 | one mark per vehicle at its screen position, radius `3·scale` when selected and `2·scale` otherwise, ringed exactly when selected |
| View.OneRing | sim/src/ui/draw.rs:141-148 | exactly one highlight ring is drawn when the selection names an existing vehicle, and none otherwise |
| View.LegacyScreen | sim/src/ui.rs:125-127 | the first version's `world − pan` is the drawing transform at scale 1 |
| View.LegacyDragMove | sim/src/ui.rs:213-221 | the first version's drag, which subtracts the raw pointer movement, is the scaled drag at scale 1 |
| View.LegacyFill | sim/src/ui.rs:152-155 | the first version fills buses blue and trains red, the unselected colours of the current drawing |
| View.LegacyRouteFill | sim/src/ui.rs:117-121 | the first version colours the stations of the first ten routes as train stations |
| MapModel.BuildSampleRoutes | map/src/app/simulation/model.rs:38-141 | three sample routes with ids 0, 1, 2 equal to their positions, each with at least two stations |
| MapModel.SampleRoutesShape | map/src/app/simulation/model.rs:38-141 | the Central stretch has 24 stations, the Northern 21 and the 88 bus 20; the first two carry trains and the third buses; the first and last coordinates are as listed |
| MapModel.SampleTypesMatchLineTable | map/src/data/api.rs:75-86 | the type written on each sample route agrees with the line-id table's type for its line |
| MapModel.LineType | map/src/app/simulation/model.rs:155-171 | a line carries buses exactly when it has a mode whose lower-case form is "bus"; a missing mode means trains |
| MapModel.LineTypeExamples | map/src/app/simulation/model.rs:160-170 | "BUS" and "Bus" give buses, "tube" and a missing mode give trains |
| MapModel.SegmentRoutes | map/src/app/simulation/model.rs:174-196 | each route made from a line's segments carries the line, its type, ids counting on by one, and at least two stations |
| MapModel.SegmentRoutesStations | map/src/app/simulation/model.rs:174-184 | the routes carry exactly the segments of at least two coordinates, in order; shorter segments are skipped |
| MapModel.SegmentRoutesNames | map/src/app/simulation/model.rs:174-189 | each route is named "<line> (segment <index>)" after the segment it came from, where the index counts skipped segments too |
| MapModel.TflRoutes | map/src/app/simulation/model.rs:144-197 | the loop over all lines numbers its routes by position, makes each travelable, and gives each the type of its line |
| MapModel.TflRoutesStations | map/src/app/simulation/model.rs:149-197 | the loop's routes carry exactly the long segments of every line, in order |
| MapModel.BuildRoutesFromTflData | map/src/app/simulation/model.rs:144-209 | the result is never empty: the TfL routes when there are any, the sample routes otherwise |
| MapModel.TflRoutesContent | map/src/app/simulation/model.rs:199-208 | the sample fallback happens exactly when the data has no segment of two or more coordinates; otherwise the routes carry the long segments |
| MapModel.InitializeVehiclesUpTo | map/src/app/simulation/model.rs:212-256 | two vehicles per route, ids counting from 0; the even one forward from station 0 towards 1, the odd one backward from the last station; with random values in [0,1), position in [0,1) and speed in [0.005, 0.055) |
| MapModel.InitializeVehicles | map/src/app/simulation/model.rs:212-256 | two vehicles per route, four random draws per route, and on routes numbered by position every vehicle is on a segment of its route |
| MapModel.InitializeVehiclesLayout | map/src/app/simulation/model.rs:223-251 | the vehicles of route q are numbers 2q (forward) and 2q + 1 (backward) |
| MapModel.FindVehicle | map/src/app/simulation/model.rs:298-299 | the lookup finds the entry for a vehicle id when there is one and reports none exactly when there is none |
| MapModel.Offer | map/src/app/simulation/model.rs:298-301 | inserting a prediction keeps one entry per vehicle |
| MapModel.DedupStep | map/src/app/simulation/model.rs:288-301 | a prediction without a vehicle id or a time is skipped; the map keeps one entry per vehicle |
| MapModel.DedupChoosesClosest | map/src/app/simulation/model.rs:286-302 | after the grouping every vehicle named by a usable prediction has exactly one entry, the first prediction for it with the least time to the station |
| MapModel.StepKeepsVehicles | map/src/app/simulation/model.rs:298-301 | the map only gains vehicles, and an offered vehicle is present afterwards |
| MapModel.Progress | map/src/app/simulation/model.rs:325-327 | the position `(600 − min(t, 600)) / 600` is 0 from ten minutes out, 1 on arrival, within [0,1] for non-negative times, and above 1 for a negative time |
| MapModel.ProgressMonotone | map/src/app/simulation/model.rs:325-327 | a nearer arrival is never placed behind a later one, and strictly ahead below ten minutes |
| MapModel.ConvertEntries | map/src/app/simulation/model.rs:305-351 | entries missing a line, time or location are skipped; every other one becomes a vehicle with the next id, consuming one random value |
| MapModel.RealTimeUpTo | map/src/app/simulation/model.rs:277-362 | a failed fetch contributes nothing; the vehicles of the fetched lines are numbered from 0 |
| MapModel.BuildRealTimeVehicles | map/src/app/simulation/model.rs:261-375 | the result is "No real-time vehicles found" exactly when no vehicle could be built; otherwise one vehicle per complete entry, numbered from 0 |
| MapModel.AllFetchesFailed | map/src/app/simulation/model.rs:353-366 | when every fetch fails the result is the error |
| MapModel.CreateSimpleRoutesForRealTime | map/src/app/simulation/model.rs:378-407 | one two-station route per primary line, in the order of the list, its id its index |
| MapModel.SimpleRoutesAreTrains | map/src/app/simulation/model.rs:383-398 | every primary line is a train line in the line-id table, so every placeholder route carries trains |
| MapSimulation.DefaultState | map/src/app/simulation/state.rs:6-17 | the default state is empty, running and without a timer |
| MapSimulation.InitializeState | map/src/app/simulation/state.rs:20-37 | routes and vehicles are replaced, the simulation runs and the timer id is forgotten |
| MapSimulation.InitializeStateForgets | map/src/app/simulation/state.rs:29-35 | the previous state leaves no trace, and the vehicle count is the number of vehicles given |
| MapSimulation.SetAnimationFrameId | map/src/app/simulation/state.rs:40-45 | only the timer id changes |
| MapSimulation.FrameIdRoundTrip | map/src/app/simulation/state.rs:40-69 | the id read back is the one last set, and a later set overrides an earlier one |
| MapSimulation.TogglePause | map/src/app/simulation/state.rs:48-54 | only the pause flag changes: it flips, and the new value is returned (also `toggle_simulation`, map/src/app/simulation/mod.rs:666-676) |
| MapSimulation.ToggleTwice | map/src/app/simulation/state.rs:48-54 | two toggles restore the state, and one always changes what `is_paused` reports |
| MapSimulation.MapAdvance | map/src/app/simulation/mod.rs:522-557 | reference result of one vehicle's update: only the motion and the coordinates change, the vehicle stays movable on a valid segment with position below 1, and its coordinates lie between the two stations |
| MapSimulation.UpdateVehiclePosition | map/src/app/simulation/mod.rs:526-556 | the loop body, with its arrival loop and direction reversal, computes exactly the reference result |
| MapSimulation.MapAdvanceFrom | map/src/app/simulation/mod.rs:550-556 | after the arrival loop both indices are in bounds and lng, lat interpolate linearly between the two stations |
| MapSimulation.MapAndCanvasAgree | map/src/app/simulation/mod.rs:522-557 | the map's update and the canvas simulation's `update_position` (sim/src/model.rs:31-50) move a vehicle identically |
| MapSimulation.UpdateVehiclePositions | map/src/app/simulation/mod.rs:504-558 | every vehicle is moved once along the route at its index, in fleet order; routes, flag and timer are untouched; vehicles on valid segments stay on them |
| MapSimulation.Tick | map/src/app/simulation/mod.rs:406-420 | a paused simulation is left alone, otherwise every vehicle moves once; the vehicle count (`get_vehicle_count`, map/src/app/simulation/state.rs:94-96) is kept; the tick always asks for the interval to continue |
| MapSimulation.FirstRouteOf | map/src/app/simulation/mod.rs:62-67 | the search finds the first route of the line, or none when no route has it |
| MapSimulation.AssignRoute | map/src/app/simulation/mod.rs:60-68 | the assignment changes only the route index |
| MapSimulation.AssignRoutes | map/src/app/simulation/mod.rs:58-68 | each vehicle is assigned on its own, in order |
| MapSimulation.AssignedToOwnLine | map/src/app/simulation/mod.rs:60-68 | a vehicle whose line has a route ends up on the first route of that line; any other vehicle is left unchanged |
| MapSimulation.RealTimeFleetOnSegment | map/src/app/simulation/mod.rs:55-71 | real-time vehicles on the placeholder routes always sit on the first segment of an existing two-station route, whatever their line |
| MapSimulation.StartAnimationLoop | map/src/app/simulation/mod.rs:397-403 | the id of the new interval (0 when the script fails) is recorded as the animation frame id; nothing else changes |
| MapSimulation.UseFallbackData | map/src/app/simulation/mod.rs:96-121 | the routes are the TfL routes when data is present and the samples otherwise; two vehicles per route, every one on a segment of its route; the state is replaced, runs, and records the new interval id |
| MapSimulation.UseRealTimeData | map/src/app/simulation/mod.rs:42-93 | with any real-time vehicle the routes are the placeholders and the vehicles the real-time ones; otherwise the fallback is used; either way the simulation runs with every vehicle on a segment and the new interval id recorded |
| MapSimulation.ResetSimulation | map/src/app/simulation/mod.rs:679-706 | a reset cancels the interval exactly when an id is recorded, then starts from scratch: the new state does not depend on the state being reset, runs, and records the new interval id |
| MapSimulation.ResetAfterStartCancels | map/src/app/simulation/mod.rs:684 | after any start the id is recorded, so the next reset cancels the running interval; only the default state has none to cancel |
| MapSimulation.StartAndTick | map/src/app/simulation/mod.rs:42-121 | whichever source is used, any number of ticks keeps every vehicle on a segment of an existing route and keeps the vehicle count |
| TflLines.VehicleTypeForLine | map/src/data/api.rs:75-87 | an id gives trains exactly when it is one of the ids listed in the match arms; any other id, bus route numbers and the empty string included, gives buses |
| TflLines.TrainIdsCount | map/src/data/api.rs:76-86 | exactly 22 distinct ids give trains |
| TflLines.CableCarIsBus | map/src/data/api.rs:79-85 | "cable-car", the id the line table uses, is not in the match and so gives buses; only "london-cable-car" gives trains |
| TflLines.OtherIdsAreBuses | map/src/data/api.rs:85 | the empty id and a bus route number such as "88" give buses |
| TflLines.TableIds | map/src/data/line_definitions.rs:20-160 | `LINE_INFOS` has 22 entries with the listed ids, in order |
| TflLines.LineInfosDistinct | map/src/data/line_definitions.rs:20-160 | no id appears twice in `LINE_INFOS` |
| TflLines.TableTypesAgree | map/src/data/line_definitions.rs:20-160 | every line of the table but the cable car carries trains by `get_vehicle_type_for_line` (map/src/data/api.rs:75-87) |
| TflLines.FindLine | map/src/data/line_definitions.rs:164-167 | `find` returns the first entry with the id, and none exactly when no entry has it |
| TflLines.GetLineColor | map/src/data/line_definitions.rs:163-169 | the colour of the first entry with that id, or "#777777" when the table lacks it |
| TflLines.ColourOfEntry | map/src/data/line_definitions.rs:163-169 | every entry's own id finds that entry's colour, since the ids are distinct |
| TflLines.GreyWhenUnlisted | map/src/data/line_definitions.rs:168 | an id not in the table gets the fallback grey |
| TflLines.UndergroundLines | map/src/data/line_definitions.rs:171-176 | only Underground entries of the table are returned |
| TflLines.OvergroundLines | map/src/data/line_definitions.rs:178-183 | only Overground entries of the table are returned |
| TflLines.OtherRailLines | map/src/data/line_definitions.rs:185-190 | only entries of the other rail types are returned |
| TflLines.FiltersPartition | map/src/data/line_definitions.rs:171-190 | the three filters return the 11 Underground, the 5 other rail and the 6 Overground lines as consecutive blocks of the table, in order, and together give the whole table |
| TflLines.CssAsLines | map/src/data/line_definitions.rs:196-216 | the stylesheet is a sequence of lines, each ended by a line break: the `:root` block with one variable per entry, then one class rule per entry |
| TflLines.CssReadsBack | map/src/data/line_definitions.rs:196-216 | reading the stylesheet back line by line gives exactly its lines: each variable and each rule once per entry, in table order |
| TflLines.MapLineColor | map/src/data/map_helpers.rs:120-147 | the helper colour is white exactly for the ids its match does not list |
| TflLines.HelperColoursMatch | map/src/data/map_helpers.rs:120-147 | the helper table gives every line of `LINE_INFOS` but the cable car the colour `LINE_INFOS` gives it |
| TflLines.ColourTablesAgree | map/src/data/map_helpers.rs:120-147 | the two colour tables agree on every line but the cable car, which the helper knows only as "london-cable-car" and so draws white instead of "#E21836" |
| TflLines.DefaultsDiffer | map/src/data/line_definitions.rs:168 | an unknown id is grey "#777777" in the line table and white "#FFFFFF" in the helper (map/src/data/map_helpers.rs:145) |
| Loader.FilterValidStations | map/src/data/loader.rs:138-148 | a station is kept exactly when both coordinates are numbers (not NaN) and non-zero; every kept station comes from the input, and none that qualifies is lost |
| Loader.FilterValidStationsIdempotent | map/src/data/loader.rs:138-148 | filtering twice is filtering once |
| Loader.FilterValidStationsAppend | map/src/data/loader.rs:138-148 | filtering a concatenation filters each part in place, so the kept stations keep their order |
| Loader.PlatformsAt | map/src/data/loader.rs:156-160 | a station's group holds exactly the platforms of that station |
| Loader.GroupPlatformsByStation | map/src/data/loader.rs:151-163 | the map has one key per station id that occurs among the platforms, and no other |
| Loader.GroupedByStation | map/src/data/loader.rs:156-160 | each group is exactly its station's platforms, in input order, and is never empty |
| Loader.Get | map/src/data/loader.rs:241-242 | a lookup finds nothing exactly when the key is absent |
| Loader.Insert | map/src/data/loader.rs:249 | `HashMap::insert` makes the key map to the new value, leaves every other key's value alone, adds the key, and keeps keys unique |
| Loader.MergeDirections | map/src/data/loader.rs:246-259 | merging a line's direction answers keeps directions unique |
| Loader.MergeDirectionsLookup | map/src/data/loader.rs:246-259 | a direction's routes come from the file when it answered that direction successfully, and are kept from before otherwise; an unsuccessful answer is skipped |
| Loader.ProcessRoutes | map/src/data/loader.rs:237-263 | every line of the file gets an entry, even when none of its directions succeeded; lines the file does not mention are untouched |
| Loader.ProcessRoutesLine | map/src/data/loader.rs:240-261 | each line of the file holds the directions it had before merged with the file's answers for it |
| Loader.LoadRoutes | map/src/data/loader.rs:166-301 | a failed rail file is the result; otherwise the lines are those of the rail file, plus those of the bus file when buses are requested and the bus file loads |
| Loader.BusFileUnusedUnlessRequested | map/src/data/loader.rs:269-295 | without buses requested the bus file plays no part, and a bus file that fails to load is as if buses had not been requested |
| Loader.BusOverridesRail | map/src/data/loader.rs:265-282 | the bus file is processed after the rail file, so a direction the bus file answers successfully takes the bus routes and any other keeps the rail routes |
| Loader.TrimStartMatchesSuffix | map/src/data/loader.rs:341 | `trim_start_matches` leaves a suffix that does not start with the character, and removes only that character |
| Loader.TrimEndMatchesPrefix | map/src/data/loader.rs:342 | `trim_end_matches` leaves a prefix that does not end with the character, and removes only that character |
| Loader.LineStringParts | map/src/data/loader.rs:338-349 | splitting on "],[" always gives at least one part |
| Loader.ParseLineString | map/src/data/loader.rs:334-367 | an error carries "Failed to parse any coordinates from LineString"; a success holds at least one and at most one coordinate per part |
| Loader.ParseLineStringFails | map/src/data/loader.rs:351-364 | the error happens exactly when no part holds two numeric fields; a bad part is skipped, and every coordinate comes from one of the parts |
| Loader.LineStringRoundTrip | map/src/data/loader.rs:334-367 | parsing a rendered line string `[[[x,y],[x,y],…]]` gives back its coordinates |
| Loader.JoinSplitOn | map/src/data/loader.rs:349 | splitting a join on its separator gives back the pieces when no piece contains the separator's first character |
| Loader.ProcessRouteGeometries | map/src/data/loader.rs:304-331 | every line in the result comes from the routes and has at least one geometry |
| Loader.ProcessRouteGeometriesLines | map/src/data/loader.rs:310-328 | a line is kept exactly when one of its line strings parses, and none of its geometries is empty |
| MapHelpers.StationsToGeojson | map/src/data/map_helpers.rs:11-44 | one valid point feature per station whose coordinates are both numbers (not NaN), in station order, each drawn from its station |
| MapHelpers.ValidStationsAllDrawn | map/src/data/map_helpers.rs:17-32 | every station kept by `filter_valid_stations` (map/src/data/loader.rs:138-148) is drawn, at its own [lon, lat]: the NaN filter removes nothing more |
| MapHelpers.CollectLineStations | map/src/data/map_helpers.rs:50-59 | the collecting loop gives one key per line other than "national-rail" and the empty line, holding exactly that line's stations |
| MapHelpers.InsertSorted | map/src/data/map_helpers.rs:62-65 | inserting into a strictly ascending list keeps it strictly ascending and adds exactly the element |
| MapHelpers.SortDedup | map/src/data/map_helpers.rs:63-64 | `sort` then `dedup` gives the distinct ids, strictly ascending |
| MapHelpers.AscendingUnique | map/src/data/map_helpers.rs:63-64 | a strictly ascending list is determined by its elements, so any way of sorting and deduplicating gives the same list |
| MapHelpers.CreateLineStationsMap | map/src/data/map_helpers.rs:47-68 | per drawn line, its platforms' distinct station ids in ascending order, never empty; the skipped lines have no entry |
| MapHelpers.LineStationsOrderIndependent | map/src/data/map_helpers.rs:158-165 | the map depends only on which platforms there are, so the unspecified order in which the platform groups are flattened does not matter |
| MapHelpers.LineToGeojson | map/src/data/map_helpers.rs:72-117 | fewer than two known stations is the error "Not enough stations with valid coordinates for <line> line"; otherwise one valid line string feature named after the line |
| MapHelpers.LineThroughKnownStations | map/src/data/map_helpers.rs:86-99 | with every id known, the line passes through all stations in the order of the ids, and it fails exactly when there are fewer than two |
| MapHelpers.ShortLinesFail | map/src/data/map_helpers.rs:94-99 | a line with fewer than two station ids is rejected |
| MapHelpers.UnknownIdsSkipped | map/src/data/map_helpers.rs:87-91 | ids not in the station map are dropped, so a line of only unknown ids is rejected |
| MapHelpers.GenerateAllLineData | map/src/data/map_helpers.rs:152-204 | per drawn line whose line string can be built: a valid source and the helper colour of the line; every other line is left out |
| MapHelpers.ShortLinesNeverDrawn | map/src/data/map_helpers.rs:171-182 | the explicit skip of lines with fewer than two stations is already implied by `line_to_geojson` failing on them |
| MapHelpers.RouteGeometriesToGeojsonAsWritten | map/src/data/map_helpers.rs:207-229 | as written, one line string per non-empty geometry, tagged with its index |
| MapHelpers.OnePointSegmentEmitted | map/src/data/map_helpers.rs:215 | a one-point geometry survives `parse_line_string` and the non-empty filter and becomes a LineString of one position, which RFC 7946 section 3.1.4 does not allow |
| MapHelpers.RouteGeometriesToGeojson | map/src/data/map_helpers.rs:207-229 | corrected: one valid line string per geometry of at least two positions, each carrying its line and original segment index |
| MapHelpers.CorrectionAgrees | map/src/data/map_helpers.rs:212-224 | where no geometry has exactly one position, the correction gives the same result as the code |
| MapHelpers.AsWrittenValidExactly | map/src/data/map_helpers.rs:206-229 | the as-written conversion gives a valid source exactly when none of the geometries has a single position |
| MapHelpers.GenerateAllRouteGeometries | map/src/data/map_helpers.rs:232-258 | a source, converted as written, for exactly the lines that have geometry: one line string per non-empty geometry, and valid exactly when no geometry has a single position |
| MapHelpers.GenerateAllRouteGeometriesCorrected | map/src/data/map_helpers.rs:232-258 | the same loop over the corrected conversion: the same lines, every source valid, and equal to the code's source wherever that is valid |
| MapHelpers.ProcessedLinesAllDrawn | map/src/data/map_helpers.rs:238-242 | after `process_route_geometries` (map/src/data/loader.rs:304-331) no line is empty, so every processed line gets a source |
| GeoJson.GeometryType | map/src/utils/geojson.rs:31-39 | a geometry is serialised with type "Point" or "LineString" according to its variant |
| GeoJson.NewGeojsonSource | map/src/utils/geojson.rs:43-52 | the source holds the features in order, and is valid exactly when each feature is |
| GeoJson.NewPointFeature | map/src/utils/geojson.rs:54-63 | a point feature is always valid, with coordinates longitude first |
| GeoJson.NewLinestringFeature | map/src/utils/geojson.rs:65-75 | a line string feature holds the positions it is given, and is valid under RFC 7946 section 3.1.4 exactly when there are at least two; the constructor does not check |
| GeoJson.SourcesOfValidFeatures | map/src/utils/geojson.rs:43-75 | a source of point features is always valid; a source of line strings is valid exactly when each has at least two positions |
| Log.Code | map/src/utils/log.rs:6-13 | the levels are numbered 0 to 4 in severity order, Debug lowest and None highest |
| Log.AsStr | map/src/utils/log.rs:43-53 | each category prints a three-letter tag |
| Log.Initial | map/src/utils/log.rs:15-16 | at start-up the level is Info and every category is enabled |
| Log.GetLogLevel | map/src/utils/log.rs:19-28 | a stored byte 0 to 3 reads as that level, every other byte as None |
| Log.SetLogLevel | map/src/utils/log.rs:30-32 | the level read back after setting it is the level set, and the category switches are left alone |
| Log.SetThenGetLevel | map/src/utils/log.rs:19-32 | the level read back is the level last set, and no category switch changes |
| Log.SetThenIsEnabled | map/src/utils/log.rs:57-68 | a category switch reads back as set, the other categories and the level are unaffected |
| Log.MethodFor | map/src/utils/log.rs:94-101 | each real level has its own console method: debug, log, warn, error |
| Log.LogBase | map/src/utils/log.rs:70-102 | a message below the level or in a disabled category is dropped; a message at level None that passes reaches `unreachable!()`; otherwise the console line is the header followed by the message, written with the level's method |
| Log.HeaderIdentifies | map/src/utils/log.rs:76-91 | two console lines with the same text were written at the same level in the same category |
| Log.PrefixDetermined | map/src/utils/log.rs:76-82 | no level's prefix can be mistaken for another's at the start of a line |
| Log.GateMonotone | map/src/utils/log.rs:73 | a message emitted at one level would also be emitted at every higher real level |
| Log.OffSilences | map/src/utils/log.rs:4-16 | level None silences every real level; the start-up level Info writes Info, Warn and Error and drops Debug |
| Log.DisabledSilences | map/src/utils/log.rs:58-68 | a disabled category is silent at every level |
| Log.SourceInfo | map/src/utils/log.rs:117-127 | the source text is the file name, a colon, then the line number |
| Log.ContextLog | map/src/utils/log.rs:202-241 | a context logger writes its context as the source and its own category in the header |
| Log.DebugEnabled | map/src/utils/log.rs:134-144 | the message closure runs exactly when the level is Debug, and nothing is written when it does not |
| Log.DebugClosureOnlyWhenUseful | map/src/utils/log.rs:134-144 | when the closure runs its line is written unless General is disabled, and when it is skipped the line would have been dropped anyway |
| Log.SubstituteAsWritten | map/src/utils/log.rs:190-196 | as written, with no `{}` left the text is unchanged |
| Log.FormatAndLogAsWritten | map/src/utils/log.rs:180-200 | as written: the same gate as `log_base`, and the console line carries the substituted message without a source |
| Log.InsertedPlaceholderRefilled | map/src/utils/log.rs:190-196 | on the format "{} and {}" with arguments "{}" and "x" the code writes "x and {}" where "{} and x" is meant |
| Log.FillPlaceholders | map/src/utils/log.rs:186-198 | corrected: with no arguments the format is the message |
| Log.FillPlaceholdersInOrder | map/src/utils/log.rs:190-196 | corrected: the k-th placeholder of the format receives the k-th argument, whatever the arguments contain |
| Log.AsWrittenAgreesWithoutBraces | map/src/utils/log.rs:190-196 | when no brace occurs outside the format's placeholders, the code as written gives the intended message |
| Log.FormatAndLog | map/src/utils/log.rs:180-200 | corrected `format_and_log`: the gate of `log_base`, the placeholders filled in order, and with no arguments exactly `log_base` on the format |
| Text.SplitJoin | sim/src/model/geo.rs:82 | splitting a text at a character loses nothing: joining the pieces again gives the text |
| Text.JoinSplit | sim/src/model/route_builder.rs:22 | splitting fields joined by a separator that none contains gives the fields back |
| Text.SplitCount | sim/src/model/geo.rs:82-85 | a text splits into one more piece than it has separators, so "lat,lng" has exactly two pieces exactly when it has one comma |
| Text.TrimInfix | sim/src/model/geo.rs:87-93 | trimming removes the white space at both ends and nothing else |
| Text.TrimIdentity | sim/src/model/geo.rs:87-93 | a text with no white space at either end is its own trim |
| Text.LinesUnlines | sim/src/model/route_builder.rs:19 | lines written one per line break read back unchanged |
| Text.IndexOf | map/src/utils/log.rs:192 | `find` returns the first occurrence at or after the start, and None exactly when there is none |
| Text.ReplaceFirst | map/src/utils/log.rs:193 | replacing the range of the first occurrence keeps the text before and after it |
| Text.SplitOnJoin | map/src/data/loader.rs:349 | splitting at a pattern loses nothing: joining the pieces with the pattern gives the text |
| Text.ToLower | map/src/app/simulation/model.rs:160 | lower-casing keeps the length and acts character by character |
| Text.NatToStringRoundTrip | map/src/app/simulation/model.rs:189 | the decimal digits of a segment index read back as that index |
| Text.NatToStringInjective | map/src/app/simulation/model.rs:189 | different segment indices give different route names |
| Text.LessTotal | map/src/data/map_helpers.rs:63 | the string order `sort` uses is total |
| Text.LessTransitive | map/src/data/map_helpers.rs:63 | the string order `sort` uses is transitive |
| Common.Lerp | sim/src/model/state.rs:137 | interpolation gives the start at 0, the end at 1, and stays between them for a parameter in [0,1] |
| Common.CountWhereExtremes | map/src/data/loader.rs:138-148 | everything is counted exactly when every element qualifies, nothing exactly when none does |
| Common.FilterHas | map/src/data/loader.rs:138-148 | `filter` keeps exactly the elements that qualify |
| Common.FilterAppend | map/src/data/loader.rs:138-148 | filtering a concatenation filters each part |
| Common.FilterMapEmpty | map/src/data/map_helpers.rs:87-91 | `filter_map` yields nothing exactly when the function fails on every element |
| Common.FilterMapAll | map/src/data/map_helpers.rs:87-91 | when the function succeeds everywhere, `filter_map` keeps every result in order |
| Common.FilterMapFrom | map/src/data/map_helpers.rs:87-91 | every value `filter_map` yields came from some element |
| ToyGraph.NodeIndex | toy_model/toy_feature_gen.py:96-101 | a station's global index is the position of its name in the sorted names |
| ToyGraph.LineIndex | toy_model/toy_feature_gen.py:97-102 | a line's index is the position of its name in the sorted names |
| ToyGraph.IndicesInverse | feature_gen.py:84-90 | `node2idx_global` and `idx2node` are inverse, as are `line2idx` and `idx2line`, over eleven stations and six lines |
| ToyGraph.NodeOrderSorted | feature_gen.py:84 | a smaller station index is exactly a smaller station name |
| ToyGraph.LineOrderSorted | feature_gen.py:85 | a smaller line index is exactly a smaller line name |
| ToyGraph.LutHas | feature_gen.py:91-114 | the (station, line) table holds exactly the calls of the network |
| ToyGraph.LutOrdered | toy_model/toy_feature_gen.py:103-126 | the table rises by (station index, line index), so no call of the network appears twice |
| ToyGraph.LutSortedByNames | toy_model/toy_feature_gen.py:103-126 | the table is sorted by station name, then line name, as `sorted` leaves it |
| ToyGraph.IdxLut | feature_gen.py:115-121 | each node becomes the indices of its station and line |
| ToyGraph.IdxLutPrinted | toy_model/toy_feature_gen.py:224-246 | the index table is the one printed in the comment |
| ToyGraph.NodeFeatures | feature_gen.py:173-184 | each node's features are its station's location followed by its line index |
| ToyGraph.NodeFeaturesPrinted | feature_gen.py:186-208 | the 21 feature rows are the ones printed in the comment |
| ToyGraph.FirstIndex | toy_model/toy_feature_gen.py:139-149 | `next` over an enumeration finds the first match, and fails exactly when there is none |
| ToyGraph.StationLineNameLookup | toy_model/toy_feature_gen.py:136-149 | the lookup succeeds exactly when the line calls at the station, and then gives that pair's node |
| ToyGraph.LookupUnique | toy_model/toy_feature_gen.py:136-149 | the node found is the only one holding that pair |
| ToyGraph.NetworkAsStationLineIdx | toy_model/toy_feature_gen.py:152-157 | each line, keyed by its index in the order of `network`, maps to the nodes of its stations in route order |
| ToyGraph.NetworkAsStationLineIdxIs | toy_model/toy_feature_gen.py:152-157 | the rows of `network_as_station_line_idx`, all six lines |
| ToyGraph.ServedByHas | toy_model/toy_feature_gen.py:109-112 | the lines listed for a station are exactly those calling there, each once, in name order |
| ToyGraph.InterchangeTwoLines | feature_gen.py:96-105 | a station counted more than once is exactly one two different lines call at |
| ToyGraph.InterchangeStationsHas | toy_model/toy_feature_gen.py:113-117 | exactly the interchanges are listed, in name order |
| ToyGraph.Interchanges | toy_model/toy_feature_gen.py:113-117 | each interchange with the lines serving it |
| ToyGraph.InterchangesPrinted | toy_model/toy_feature_gen.py:159-168 | the interchanges are the eight printed in the comment, with their lines |
| ToyGraph.InterchangeKeysHas | toy_model/toy_feature_gen.py:189-196 | a node is kept exactly when its station is an interchange |
| ToyGraph.InterchangeKeysOmit | toy_model/toy_feature_gen.py:169-187 | the nodes left out are 7, 10 and 20, as in the printed table |
| ToyGraph.InterchangeIdxLut | toy_model/toy_feature_gen.py:189-196 | the kept entries are those of the index table |
| ToyEdges.StationNodesHas | toy_model/toy_feature_gen.py:294-301 | a station's nodes are rising nodes of that station, at least one |
| ToyEdges.TransferGroups | toy_model/toy_feature_gen.py:298-300 | `groupby` over the sorted interchange table forms one group per interchange, holding its nodes |
| ToyEdges.TransferGroupsAreRuns | toy_model/toy_feature_gen.py:298-300 | the groups put back together are the interchange nodes, and neighbouring groups are different stations, so `groupby` splits nothing |
| ToyEdges.TransferPairsHas | toy_model/toy_feature_gen.py:294-323 | a transfer edge joins exactly two nodes of one station, lower node first |
| ToyEdges.TransferPairsPrinted | toy_model/toy_feature_gen.py:319-323 | the twelve transfer edges |
| ToyEdges.LineRows | toy_model/toy_feature_gen.py:335 | the rows paired up are the lines' nodes in route order |
| ToyEdges.ConsecPairsHas | toy_model/toy_feature_gen.py:329-341 | a line edge joins exactly neighbours on a line, in route direction |
| ToyEdges.NeighboursDiffer | toy_model/toy_feature_gen.py:329-341 | no line edge joins two nodes of one station |
| ToyEdges.EdgeIndexHas | toy_model/toy_feature_gen.py:304-348 | two nodes are joined exactly when they are different nodes of one station or neighbours on a line in either direction, so every edge is in the index both ways |
| ToyEdges.EdgeWeighted | toy_model/toy_feature_gen.py:311-349 | an edge weighs 1 exactly when it is a transfer and 5 exactly when it runs along a line |
| ToyEdges.EdgeIndexPrinted | toy_model/toy_feature_gen.py:325-349 | the printed index: the 12 transfer edges and their reverses, then the 15 line edges and their reverses, 54 in all, with 24 weights of 1 followed by 30 of 5 |
| PairSeqs.FlattenHas | toy_model/toy_feature_gen.py:321 | flattening the groups' pairs keeps exactly the pairs of some group |
| PairSeqs.Combinations2Count | toy_model/toy_feature_gen.py:296 | `combinations(xs, r=2)` has n (n - 1) / 2 pairs |
| PairSeqs.Combinations2Has | toy_model/toy_feature_gen.py:296 | `combinations(xs, r=2)` holds exactly the pairs taken in position order |
| PairSeqs.AllCombinationsHas | toy_model/toy_feature_gen.py:294-321 | a pair is produced exactly when one group holds its two elements in that order |
| PairSeqs.Pairwise | toy_model/toy_feature_gen.py:335 | `pairwise` gives each element with its successor, one pair fewer than elements |
| PairSeqs.AllPairwiseHas | toy_model/toy_feature_gen.py:332-338 | a pair is produced exactly when one row holds its elements next to each other |
| PairSeqs.Rotated | toy_model/toy_feature_gen.py:304-308 | turning the 2 x n index half a turn reverses each edge and the order of the edges |
| PairSeqs.BidirHas | toy_model/toy_feature_gen.py:304-308 | an edge is in the two-way index exactly when it or its reverse is among the edges |
| PairSeqs.BidirSymmetric | toy_model/toy_feature_gen.py:304-308 | the two-way index is symmetric |
| PairSeqs.Weights | toy_model/toy_feature_gen.py:311-315 | one weight per edge, every one the given value |

## Left out

- Map-library and JavaScript interop: `register_vehicle_layers`, `create_vehicle_layer`, `update_maplibre_vehicles`, `expose_simulation_functions`, the `requestAnimationFrame` loop and every `js_sys::eval` script. Their behaviour lives in JavaScript.
- UI components and DOM wiring: panels, listener registration, button text updates. Only the state changes the handlers make are modelled; the button labels are modelled as the strings they set.
- Network and file I/O: `load_stations`, `load_platforms`, `fetch_routes_file`, `fetch_arrivals_for_line`, `fetch_tsv_file`, `load_tsv_files`, `TflDataRepository::initialize`. Each outcome is an input, and `async` ordering is reduced to the order in which outcomes are applied.
- MapSimulation.StartAnimationLoop: the interval script and the `as i32` conversion of its result are not modelled; the id it yields (0 when the script fails) is an input, `timerId`, and a reset records only whether it cancels the old interval.
- Timers: `setInterval` and `clearInterval` are modelled as a clock of live tickers. Frame timing through `Date::now` becomes the frame times fed to the calibration.
- Console output: only the filter and the text of each line are modelled, plus the console method chosen.
- Serde declarations and `to_js_value`: records keep only the fields the logic reads.
- Floating point: `f32` and `f64` are `real`, so rounding is not modelled. NaN is a separate value only where the code tests `is_nan`. `f32::MAX` is not modelled.
- Trigonometry: `sin`, `cos` and `PI` are uninterpreted values passed in, so the geometry of orbital routes is not checked beyond structure.
- Randomness: `Math::random` reads an input stream of values in [0,1). No distribution is modelled.
- HashMap iteration order: it is taken to be the order of an input sequence. For example, the line order in `build_routes_from_tfl_data` is an input, so route ids depend on it as in the code.
- Out-of-range indexing: the sim crate's `update_position` panics on an out-of-range index and has no error path. The model makes such an index a precondition.
- A panic in `log_base`: a message at level `None` that passes the gate reaches `unreachable!()`. The model returns the outcome `Panicked` instead of aborting.
- `ENABLED_CATEGORIES` has five switches for four categories. The spare fifth switch is never read and is not modelled.
- Camera scale: `Camera::default()` would have scale 0, and `p / scale` would then be undefined. Every camera operation that divides by the scale therefore requires `scale > 0`.
- Camera fields: the `Camera` record includes `selected_vehicle_index` and `follow_mode`, which the handlers use but `sim/src/ui/camera.rs` does not declare.
- `Text.Trim` treats only ASCII white space as white space. Rust's `trim` also strips Unicode white space.
- `Text.ToLower` lower-cases ASCII letters only.
- Python tables: the printed tables in the Python files are written as literals and proved equal to the computation. The two Python files share their tables, which are modelled once. Their tensors are sequences of pairs.
- `toy_model/toy_feature_gen.py` builds its node features from a line index held as a float. The model keeps it as a natural number.
- `station_line_uniq_names` and its lookup are display strings and are not modelled.
- `toy_model/toy_graph.py` only builds a library graph object and is not modelled.
- The printed edge index of the toy model is shown as two halves, transfers and line edges. The whole is their concatenation (`ToyEdges.EdgeIndexHas`).
- Random train routes: the comment at sim/src/model/route_builder.rs:165 says 4 to 8 stations. The code draws 4 to 7 waypoints, giving routes of 6 to 9 stations, and the model follows the code.
- Bus stop size: the comment at sim/src/ui/draw.rs:61-62 says intermediate bus stops have radius 3. The code uses 2, and the model follows the code.
- Route-file priority: the comment at map/src/data/loader.rs:265 calls rail routes "higher priority". The bus file is merged after the rail file, so a successful bus direction replaces a rail one with the same key. The model follows the code (`Loader.BusOverridesRail`).
- A failed bus file: the message is logged and the rail routes are kept, as in the code. The log text is not modelled.

## Findings

| source | as written | input that shows it | evidently intended | confidence | as-written member | corrected member |
|---|---|---|---|---|---|---|
| sim/src/ui/core.rs:276 | the interval id goes into a write-once cell, so only the first ticker's id is ever recorded; a later change clears that first ticker again and starts a new one without recording it | two FPS slider changes: the second clears the already-cleared first ticker, so the ticker started by the first change keeps running beside the new one | each change replaces the one running ticker | not executed | UiCore.TickersAccumulate | UiCore.ChangesKeepOneTicker |
| sim/src/ui/core.rs:151-160 | a failed TSV load sets `paused = false` whatever the mode, although the comment limits this to real-data mode | switch to real data, switch back to random mode and pause, then the earlier load fails: the simulation resumes against the pause | a failed load resumes only while still in real-data mode | not executed | UiCore.LoadErrorUnpausesRandomMode | UiCore.LoadFinished |
| sim/src/model/state.rs:69-76 | the log line reads `trains.len()` and `buses.len()` after `append` has drained both vectors | any non-empty train TSV: the line reports 0 train routes and 0 bus routes | report the numbers of routes installed | not executed | SimState.LoggedCountsAlwaysZero | SimState.LoggedCounts |
| map/src/data/map_helpers.rs:215 | only empty geometries are dropped, so a geometry with one position becomes a LineString of one position, which section 3.1.4 of RFC 7946 forbids | a line whose geometry list holds `[[-0.1, 51.5]]` | emit only geometries of at least two positions, as `line_to_geojson` does | not executed | MapHelpers.OnePointSegmentEmitted | MapHelpers.RouteGeometriesToGeojson |
| map/src/utils/log.rs:190-196 | each argument replaces the first `{}` of the text built so far, so a `{}` brought in by an earlier argument is filled before the format's own | format "{} and {}" with arguments "{}" and "x" gives "x and {}" | "{} and x": the k-th placeholder of the format gets the k-th argument | not executed | Log.InsertedPlaceholderRefilled | Log.FillPlaceholdersInOrder |
