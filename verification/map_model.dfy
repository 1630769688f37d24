/** The data side of the map crate's simulation
    (map/src/app/simulation/model.rs): its vehicle and route records, the
    three hard-coded sample routes, routes built from TfL line geometry,
    two vehicles per route, the vehicles built from real-time arrival
    predictions, and the placeholder routes those vehicles run on.
    Coordinates are (longitude, latitude) pairs, kept as `Point(x, y)`. */
module MapModel {
  import opened Common
  import opened Kinematics
  import opened SimVehicle
  import opened Text
  import TflLines

  /** A route: its position in the route list is its `id` wherever the
      crate builds routes. */
  datatype MapRoute = MapRoute(id: nat, name: string, lineId: string, vehicleType: VehicleType, stations: seq<Point>)

  /** A vehicle; `position` is the fraction of the current segment, and
      `direction` is an `i8` that only ever holds +1 or -1. */
  datatype MapVehicle = MapVehicle(
    id: nat,
    vehicleType: VehicleType,
    routeIndex: nat,
    lineId: string,
    position: real,
    speed: real,
    direction: int,
    lastStation: nat,
    nextStation: nat,
    lng: real,
    lat: real)

  function MotionOf(v: MapVehicle): Motion {
    Motion(v.direction, v.lastStation, v.nextStation, v.position)
  }

  /** Each route's `id` is its index in the list. */
  predicate IdsArePositions(routes: seq<MapRoute>) {
    forall i :: 0 <= i < |routes| ==> routes[i].id == i
  }

  /** Every route has a segment to travel on. */
  predicate AllTravelable(routes: seq<MapRoute>) {
    forall i :: 0 <= i < |routes| ==> |routes[i].stations| >= 2
  }

  /** Every vehicle refers to an existing route and sits on a segment of it. */
  predicate FleetOnSegment(routes: seq<MapRoute>, vehicles: seq<MapVehicle>) {
    forall i :: 0 <= i < |vehicles| ==>
      vehicles[i].routeIndex < |routes| && OnSegment(MotionOf(vehicles[i]), |routes[vehicles[i].routeIndex].stations|)
  }

  /** The route name `format!("{} (segment {})", line, index)`. */
  function RouteName(lineId: string, segment: nat): string {
    lineId + " (segment " + NatToString(segment) + ")"
  }

  // ---------------------------------------------------------------------
  // Sample routes

  const CentralStations: seq<Point> := [
    Point(-0.2810, 51.5170), Point(-0.2528, 51.5113), Point(-0.2194, 51.5136), Point(-0.1987, 51.5202),
    Point(-0.1652, 51.5259), Point(-0.1350, 51.5210), Point(-0.0997, 51.5152), Point(-0.0638, 51.5165),
    Point(-0.0362, 51.5111), Point(-0.0244, 51.5043), Point(-0.0048, 51.5035), Point(-0.0125, 51.5009),
    Point(-0.0199, 51.4996), Point(-0.0457, 51.5068), Point(-0.0742, 51.5113), Point(-0.0983, 51.5142),
    Point(-0.1280, 51.5151), Point(-0.1410, 51.5154), Point(-0.1687, 51.5174), Point(-0.1889, 51.5206),
    Point(-0.1205, 51.5152), Point(-0.1025, 51.5168), Point(-0.0911, 51.5155), Point(-0.0765, 51.5108)]

  const NorthernStations: seq<Point> := [
    Point(-0.1938, 51.6503), Point(-0.1932, 51.6302), Point(-0.1858, 51.6179), Point(-0.1750, 51.6071),
    Point(-0.1647, 51.5998), Point(-0.1534, 51.5874), Point(-0.1419, 51.5775), Point(-0.1303, 51.5717),
    Point(-0.1123, 51.5656), Point(-0.1051, 51.5545), Point(-0.1426, 51.5302), Point(-0.1385, 51.5248),
    Point(-0.1343, 51.5287), Point(-0.1304, 51.5295), Point(-0.1231, 51.5203), Point(-0.1065, 51.5121),
    Point(-0.0882, 51.5176), Point(-0.0911, 51.5155), Point(-0.0924, 51.5113), Point(-0.1002, 51.5044),
    Point(-0.1052, 51.4944)]

  const BusStations: seq<Point> := [
    Point(-0.1465, 51.5365), Point(-0.1325, 51.5300), Point(-0.1155, 51.5235), Point(-0.0958, 51.5181),
    Point(-0.0879, 51.5155), Point(-0.0825, 51.5127), Point(-0.0754, 51.5101), Point(-0.0650, 51.5088),
    Point(-0.0550, 51.5070), Point(-0.0449, 51.5055), Point(-0.0349, 51.5040), Point(-0.0250, 51.5025),
    Point(-0.0150, 51.5010), Point(-0.0050, 51.4995), Point(0.0050, 51.4980), Point(0.0150, 51.4965),
    Point(0.0250, 51.4950), Point(0.0350, 51.4935), Point(0.0450, 51.4920), Point(0.0550, 51.4905)]

  /** `build_sample_routes`: a Central line stretch, a Northern line
      stretch and the 88 bus, with ids 0, 1 and 2. */
  function BuildSampleRoutes(): (routes: seq<MapRoute>)
    ensures |routes| == 3 && IdsArePositions(routes) && AllTravelable(routes)
  {
    [MapRoute(0, "central (segment 0)", "central", Train, CentralStations),
     MapRoute(1, "northern (segment 0)", "northern", Train, NorthernStations),
     MapRoute(2, "88 (segment 0)", "88", Bus, BusStations)]
  }

  /** The sample routes' sizes and the types they carry; each type agrees
      with what the line-id table says about the route's line. */
  lemma SampleRoutesShape()
    ensures var r := BuildSampleRoutes();
            && |r[0].stations| == 24 && |r[1].stations| == 21 && |r[2].stations| == 20
            && r[0].lineId == "central" && r[1].lineId == "northern" && r[2].lineId == "88"
            && r[0].vehicleType == Train && r[1].vehicleType == Train && r[2].vehicleType == Bus
            && r[0].stations[0] == Point(-0.2810, 51.5170) && r[2].stations[19] == Point(0.0550, 51.4905)
  {
  }

  lemma SampleTypesMatchLineTable()
    ensures forall i :: 0 <= i < 3 ==>
              BuildSampleRoutes()[i].vehicleType == TflLines.VehicleTypeForLine(BuildSampleRoutes()[i].lineId)
  {
    assert TflLines.VehicleTypeForLine("central") == Train;
    assert TflLines.VehicleTypeForLine("northern") == Train;
    TflLines.OtherIdsAreBuses();
  }

  // ---------------------------------------------------------------------
  // Routes from TfL geometry

  /** One line's geometry: its id and its coordinate lists, one per
      segment, in the order the repository holds them. */
  datatype LineGeometry = LineGeometry(lineId: string, segments: seq<seq<Point>>)

  /** The TfL data the route builder reads: the route geometries of each
      line and, per line, the mode of the first route sequence of its
      first direction (absent when the line has no route data). */
  datatype TflRouteData = TflRouteData(geometries: seq<LineGeometry>, modes: map<string, string>)

  /** The vehicle type of a line: the mode, lower-cased, defaulting to
      "train"; only "bus" gives buses. */
  function LineType(modes: map<string, string>, lineId: string): (t: VehicleType)
    ensures t == Bus <==> lineId in modes && ToLower(modes[lineId]) == "bus"
  {
    var mode := if lineId in modes then ToLower(modes[lineId]) else "train";
    if mode == "bus" then Bus else Train
  }

  /** Upper-case modes are recognised; a missing mode means trains. */
  lemma LineTypeExamples(modes: map<string, string>, lineId: string)
    ensures LineType(modes[lineId := "BUS"], lineId) == Bus
    ensures LineType(modes[lineId := "Bus"], lineId) == Bus
    ensures lineId !in modes ==> LineType(modes, lineId) == Train
    ensures LineType(modes[lineId := "tube"], lineId) == Train
  {
    assert ToLower("BUS") == "bus";
    assert ToLower("Bus") == "bus";
    assert |ToLower("tube")| == 4;
  }

  predicate Long(segment: seq<Point>) {
    |segment| >= 2
  }

  /** The routes of one line's first `k` segments: segments of fewer than
      two coordinates are skipped, the others become routes with ids
      counting on from `firstId` and names carrying the segment index. */
  function SegmentRoutes(lineId: string, t: VehicleType, segments: seq<seq<Point>>, k: nat, firstId: nat): (r: seq<MapRoute>)
    requires k <= |segments|
    ensures forall j :: 0 <= j < |r| ==>
              r[j].id == firstId + j && r[j].lineId == lineId && r[j].vehicleType == t && |r[j].stations| >= 2
  {
    if k == 0 then []
    else
      var prev := SegmentRoutes(lineId, t, segments, k - 1, firstId);
      if |segments[k - 1]| < 2 then prev
      else prev + [MapRoute(firstId + |prev|, RouteName(lineId, k - 1), lineId, t, segments[k - 1])]
  }

  /** The routes of a line carry exactly its long segments, in order. */
  lemma {:induction false} SegmentRoutesStations(lineId: string, t: VehicleType, segments: seq<seq<Point>>, k: nat, firstId: nat)
    requires k <= |segments|
    ensures Stations(SegmentRoutes(lineId, t, segments, k, firstId)) == Filter(segments[..k], Long)
  {
    if k > 0 {
      SegmentRoutesStations(lineId, t, segments, k - 1, firstId);
      assert segments[..k][..k - 1] == segments[..k - 1];
      var prev := SegmentRoutes(lineId, t, segments, k - 1, firstId);
      if |segments[k - 1]| >= 2 {
        StationsAppend(prev, [MapRoute(firstId + |prev|, RouteName(lineId, k - 1), lineId, t, segments[k - 1])]);
      }
    }
  }

  /** Each route is named after its line and the index of the segment it
      was made from, counting skipped segments. */
  lemma {:induction false} SegmentRoutesNames(lineId: string, t: VehicleType, segments: seq<seq<Point>>, k: nat, firstId: nat, j: nat)
    requires k <= |segments| && j < |SegmentRoutes(lineId, t, segments, k, firstId)|
    ensures exists s :: 0 <= s < k && SegmentRoutes(lineId, t, segments, k, firstId)[j].name == RouteName(lineId, s)
                        && SegmentRoutes(lineId, t, segments, k, firstId)[j].stations == segments[s]
  {
    var prev := SegmentRoutes(lineId, t, segments, k - 1, firstId);
    if j < |prev| {
      SegmentRoutesNames(lineId, t, segments, k - 1, firstId, j);
    } else {
      assert SegmentRoutes(lineId, t, segments, k, firstId)[j].name == RouteName(lineId, k - 1);
    }
  }

  /** The station lists of some routes, in order. */
  function Stations(routes: seq<MapRoute>): (r: seq<seq<Point>>)
    ensures |r| == |routes| && forall j :: 0 <= j < |r| ==> r[j] == routes[j].stations
  {
    if |routes| == 0 then [] else Stations(routes[..|routes| - 1]) + [routes[|routes| - 1].stations]
  }

  lemma StationsAppend(a: seq<MapRoute>, b: seq<MapRoute>)
    ensures Stations(a + b) == Stations(a) + Stations(b)
  {
  }

  /** Every coordinate list of at least two points, line after line. */
  function LongSegments(geometries: seq<LineGeometry>): seq<seq<Point>> {
    if |geometries| == 0 then []
    else LongSegments(geometries[..|geometries| - 1]) + Filter(geometries[|geometries| - 1].segments, Long)
  }

  /** The loop of `build_routes_from_tfl_data` over the first `k` lines,
      before the sample-route fallback. */
  function TflRoutes(data: TflRouteData, k: nat): (r: seq<MapRoute>)
    requires k <= |data.geometries|
    ensures IdsArePositions(r) && AllTravelable(r)
    ensures forall j :: 0 <= j < |r| ==> r[j].vehicleType == LineType(data.modes, r[j].lineId)
  {
    if k == 0 then []
    else
      var prev := TflRoutes(data, k - 1);
      var g := data.geometries[k - 1];
      if |g.segments| == 0 then prev
      else prev + SegmentRoutes(g.lineId, LineType(data.modes, g.lineId), g.segments, |g.segments|, |prev|)
  }

  /** The TfL routes carry exactly the long coordinate lists of the data. */
  lemma {:induction false} TflRoutesStations(data: TflRouteData, k: nat)
    requires k <= |data.geometries|
    ensures Stations(TflRoutes(data, k)) == LongSegments(data.geometries[..k])
  {
    if k > 0 {
      TflRoutesStations(data, k - 1);
      assert data.geometries[..k][..k - 1] == data.geometries[..k - 1];
      var prev := TflRoutes(data, k - 1);
      var g := data.geometries[k - 1];
      if |g.segments| == 0 {
        assert Filter(g.segments, Long) == [];
        assert LongSegments(data.geometries[..k]) == LongSegments(data.geometries[..k - 1]) + [];
      } else {
        var added := SegmentRoutes(g.lineId, LineType(data.modes, g.lineId), g.segments, |g.segments|, |prev|);
        SegmentRoutesStations(g.lineId, LineType(data.modes, g.lineId), g.segments, |g.segments|, |prev|);
        assert g.segments[..|g.segments|] == g.segments;
        StationsAppend(prev, added);
      }
    }
  }

  /** `build_routes_from_tfl_data`: the routes of every segment of at least
      two coordinates, numbered from 0; when there are none, the sample
      routes instead. */
  function BuildRoutesFromTflData(data: TflRouteData): (r: seq<MapRoute>)
    ensures |r| > 0 && IdsArePositions(r) && AllTravelable(r)
    ensures |TflRoutes(data, |data.geometries|)| > 0 ==> r == TflRoutes(data, |data.geometries|)
    ensures |TflRoutes(data, |data.geometries|)| == 0 ==> r == BuildSampleRoutes()
  {
    var routes := TflRoutes(data, |data.geometries|);
    if |routes| == 0 then BuildSampleRoutes() else routes
  }

  /** The TfL routes carry exactly the long coordinate lists of the data,
      in order, and fall back to the samples exactly when there are none. */
  lemma TflRoutesContent(data: TflRouteData)
    ensures var r := BuildRoutesFromTflData(data);
            |LongSegments(data.geometries)| > 0 ==> Stations(r) == LongSegments(data.geometries)
    ensures |LongSegments(data.geometries)| == 0 ==> BuildRoutesFromTflData(data) == BuildSampleRoutes()
  {
    TflRoutesStations(data, |data.geometries|);
    assert data.geometries[..|data.geometries|] == data.geometries;
  }

  // ---------------------------------------------------------------------
  // Vehicles on static routes

  /** The two vehicles `initialize_vehicles` places on a route: the first
      forward from station 0, the second backward from the last station;
      each draws its position and then its speed. */
  function RoutePair(route: MapRoute, id: nat, rng: nat -> real, cursor: nat): (pair: seq<MapVehicle>)
    requires |route.stations| >= 2
  {
    var n := |route.stations|;
    [MapVehicle(id, route.vehicleType, route.id, route.lineId, rng(cursor), 0.005 + rng(cursor + 1) * 0.05,
                1, 0, 1, route.stations[0].x, route.stations[0].y),
     MapVehicle(id + 1, route.vehicleType, route.id, route.lineId, rng(cursor + 2), 0.005 + rng(cursor + 3) * 0.05,
                -1, n - 1, n - 2, route.stations[n - 1].x, route.stations[n - 1].y)]
  }

  /** Placement of one vehicle by `initialize_vehicles`: on the route it
      belongs to, forward from the first station or backward from the
      last, standing on its departure station. */
  predicate PlacedOn(v: MapVehicle, route: MapRoute, forward: bool) {
    var n := |route.stations|;
    && n >= 2
    && v.routeIndex == route.id && v.lineId == route.lineId && v.vehicleType == route.vehicleType
    && (if forward then v.direction == 1 && v.lastStation == 0 && v.nextStation == 1
        else v.direction == -1 && v.lastStation == n - 1 && v.nextStation == n - 2)
    && Point(v.lng, v.lat) == route.stations[v.lastStation]
  }

  /** `initialize_vehicles` over the first `k` routes. */
  function InitializeVehiclesUpTo(routes: seq<MapRoute>, k: nat, rng: nat -> real, cursor: nat): (vs: seq<MapVehicle>)
    requires k <= |routes| && AllTravelable(routes)
    ensures |vs| == 2 * k
    ensures forall j :: 0 <= j < |vs| ==> vs[j].id == j
    ensures forall q :: 0 <= q < k ==> PlacedOn(vs[2 * q], routes[q], true) && PlacedOn(vs[2 * q + 1], routes[q], false)
    ensures UnitStream(rng) ==> forall j :: 0 <= j < |vs| ==> 0.0 <= vs[j].position < 1.0 && 0.005 <= vs[j].speed < 0.055
  {
    if k == 0 then []
    else
      var prev := InitializeVehiclesUpTo(routes, k - 1, rng, cursor);
      prev + RoutePair(routes[k - 1], 2 * (k - 1), rng, cursor + 4 * (k - 1))
  }

  /** `initialize_vehicles`: two vehicles per route, numbered from 0, and
      four random draws per route. */
  function InitializeVehicles(routes: seq<MapRoute>, rng: nat -> real, cursor: nat): (r: (seq<MapVehicle>, nat))
    requires AllTravelable(routes)
    ensures |r.0| == 2 * |routes| && r.1 == cursor + 4 * |routes|
    ensures IdsArePositions(routes) ==> FleetOnSegment(routes, r.0)
  {
    var vs := InitializeVehiclesUpTo(routes, |routes|, rng, cursor);
    PlacedOnSegment(routes, vs);
    (vs, cursor + 4 * |routes|)
  }

  /** Every placed vehicle is on a segment of the route whose id it carries. */
  lemma PlacedOnSegment(routes: seq<MapRoute>, vs: seq<MapVehicle>)
    requires |vs| == 2 * |routes|
    requires forall q :: 0 <= q < |routes| ==> PlacedOn(vs[2 * q], routes[q], true) && PlacedOn(vs[2 * q + 1], routes[q], false)
    ensures IdsArePositions(routes) ==> FleetOnSegment(routes, vs)
  {
    forall j | 0 <= j < |vs| && IdsArePositions(routes)
      ensures vs[j].routeIndex < |routes| && OnSegment(MotionOf(vs[j]), |routes[vs[j].routeIndex].stations|)
    {
      var q := j / 2;
      if j == 2 * q {
        assert PlacedOn(vs[2 * q], routes[q], true);
      } else {
        assert j == 2 * q + 1;
        assert PlacedOn(vs[2 * q + 1], routes[q], false);
      }
    }
  }

  /** The vehicles of route `q` are numbers `2q` (forward) and `2q + 1`
      (backward), whatever else is on the list. */
  lemma InitializeVehiclesLayout(routes: seq<MapRoute>, rng: nat -> real, cursor: nat, q: nat)
    requires AllTravelable(routes) && q < |routes|
    ensures var vs := InitializeVehicles(routes, rng, cursor).0;
            && vs[2 * q].id == 2 * q && PlacedOn(vs[2 * q], routes[q], true)
            && vs[2 * q + 1].id == 2 * q + 1 && PlacedOn(vs[2 * q + 1], routes[q], false)
  {
  }

  // ---------------------------------------------------------------------
  // Real-time arrivals

  /** The fields of an arrival prediction the simulation reads. */
  datatype Prediction = Prediction(
    vehicleId: Option<string>,
    timeToStation: Option<int>,
    lineId: Option<string>,
    currentLocation: Option<string>)

  /** A prediction the deduplication keeps track of: it names a vehicle and
      a time to the station. */
  predicate Keyed(p: Prediction) {
    p.vehicleId.Some? && p.timeToStation.Some?
  }

  /** Index of the entry for vehicle `key`, if any. */
  function FindVehicle(entries: seq<Prediction>, key: string): (r: Option<nat>)
    ensures r.Some? ==> r.value < |entries| && entries[r.value].vehicleId == Some(key)
    ensures r.None? ==> forall i :: 0 <= i < |entries| ==> entries[i].vehicleId != Some(key)
  {
    if |entries| == 0 then None
    else if entries[|entries| - 1].vehicleId == Some(key) then Some(|entries| - 1)
    else FindVehicle(entries[..|entries| - 1], key)
  }

  /** One prediction offered to the per-vehicle map: inserted when its
      vehicle is new or when it is strictly closer to arrival than the one
      kept; an insert for a known vehicle replaces that vehicle's entry. */
  function Offer(entries: seq<Prediction>, p: Prediction): (r: seq<Prediction>)
    requires Keyed(p) && AllKeyed(entries) && DistinctVehicles(entries)
    ensures AllKeyed(r) && DistinctVehicles(r)
  {
    match FindVehicle(entries, p.vehicleId.value)
    case None => entries + [p]
    case Some(i) =>
      if p.timeToStation.value < entries[i].timeToStation.value then entries[i := p] else entries
  }

  /** The grouping loop of `build_real_time_vehicles` over one line's
      predictions. The crate keeps a hash map, whose iteration order is
      unspecified; the model lists vehicles in order of first sighting. */
  function Dedup(preds: seq<Prediction>): (entries: seq<Prediction>)
    ensures AllKeyed(entries) && DistinctVehicles(entries)
  {
    if |preds| == 0 then [] else DedupStep(Dedup(preds[..|preds| - 1]), preds[|preds| - 1])
  }

  /** One prediction of the loop: skipped without a vehicle or a time,
      otherwise offered. */
  function DedupStep(entries: seq<Prediction>, p: Prediction): (r: seq<Prediction>)
    requires AllKeyed(entries) && DistinctVehicles(entries)
    ensures AllKeyed(r) && DistinctVehicles(r)
  {
    if !Keyed(p) then entries else Offer(entries, p)
  }

  predicate AllKeyed(entries: seq<Prediction>) {
    forall i :: 0 <= i < |entries| ==> Keyed(entries[i])
  }

  predicate DistinctVehicles(entries: seq<Prediction>) {
    forall i, j :: 0 <= i < j < |entries| ==> entries[i].vehicleId != entries[j].vehicleId
  }

  /** Every vehicle that some keyed prediction names has an entry. */
  predicate CoversVehicles(entries: seq<Prediction>, preds: seq<Prediction>) {
    forall j :: 0 <= j < |preds| && Keyed(preds[j]) ==> FindVehicle(entries, preds[j].vehicleId.value).Some?
  }

  /** No keyed prediction for an entry's vehicle is closer to arrival. */
  predicate Closest(entries: seq<Prediction>, preds: seq<Prediction>)
    requires AllKeyed(entries)
  {
    forall i, j :: 0 <= i < |entries| && 0 <= j < |preds| && Keyed(preds[j]) && preds[j].vehicleId == entries[i].vehicleId ==>
      entries[i].timeToStation.value <= preds[j].timeToStation.value
  }

  /** Predictions `preds[..j]` for vehicle `e` are all strictly later
      than `e`: ties go to the first one seen. */
  predicate EarlierAreLater(preds: seq<Prediction>, j: nat, e: Prediction)
    requires j <= |preds| && Keyed(e)
  {
    forall l :: 0 <= l < j && Keyed(preds[l]) && preds[l].vehicleId == e.vehicleId ==>
      preds[l].timeToStation.value > e.timeToStation.value
  }

  /** Every entry is a prediction from the list, the first of its vehicle
      with the least time to the station. */
  predicate FirstSeen(entries: seq<Prediction>, preds: seq<Prediction>)
    requires AllKeyed(entries)
  {
    forall i :: 0 <= i < |entries| ==> Witnessed(preds, entries[i])
  }

  /** `e` occurs in `preds`, after no prediction for its vehicle that is
      as close to arrival. */
  predicate Witnessed(preds: seq<Prediction>, e: Prediction)
    requires Keyed(e)
  {
    exists j :: 0 <= j < |preds| && preds[j] == e && EarlierAreLater(preds, j, e)
  }

  /** The deduplication keeps, for each vehicle named by a keyed
      prediction, exactly one entry: the first prediction for it with the
      least time to the station. */
  lemma {:induction false} DedupChoosesClosest(preds: seq<Prediction>)
    ensures var e := Dedup(preds);
            CoversVehicles(e, preds) && Closest(e, preds) && FirstSeen(e, preds)
  {
    if |preds| > 0 {
      var init := preds[..|preds| - 1];
      DedupChoosesClosest(init);
      StepCovers(Dedup(init), init, preds);
      StepClosest(Dedup(init), init, preds);
      StepFirstSeen(Dedup(init), init, preds);
    }
  }

  /** Entries only ever gain vehicles: the vehicle at each existing index
      stays, and an offered vehicle is found afterwards. */
  lemma StepKeepsVehicles(prev: seq<Prediction>, p: Prediction)
    requires AllKeyed(prev) && DistinctVehicles(prev)
    ensures var r := DedupStep(prev, p);
            && |prev| <= |r|
            && (forall k :: 0 <= k < |prev| ==> r[k].vehicleId == prev[k].vehicleId)
            && (Keyed(p) ==> FindVehicle(r, p.vehicleId.value).Some?)
  {
    if Keyed(p) {
      var r := DedupStep(prev, p);
      match FindVehicle(prev, p.vehicleId.value)
      case None => FindVehicleSome(r, p.vehicleId.value, |prev|);
      case Some(i) => FindVehicleSome(r, p.vehicleId.value, i);
    }
  }

  lemma FindVehicleSome(entries: seq<Prediction>, key: string, k: nat)
    requires k < |entries| && entries[k].vehicleId == Some(key)
    ensures FindVehicle(entries, key).Some?
  {
  }

  lemma StepCovers(prev: seq<Prediction>, init: seq<Prediction>, preds: seq<Prediction>)
    requires |preds| == |init| + 1 && init == preds[..|init|]
    requires AllKeyed(prev) && DistinctVehicles(prev) && CoversVehicles(prev, init)
    ensures CoversVehicles(DedupStep(prev, preds[|init|]), preds)
  {
    var r := DedupStep(prev, preds[|init|]);
    StepKeepsVehicles(prev, preds[|init|]);
    forall j | 0 <= j < |preds| && Keyed(preds[j])
      ensures FindVehicle(r, preds[j].vehicleId.value).Some?
    {
      if j < |init| {
        assert Keyed(init[j]);
        var k := FindVehicle(prev, init[j].vehicleId.value).value;
        FindVehicleSome(r, init[j].vehicleId.value, k);
      }
    }
  }

  lemma StepClosest(prev: seq<Prediction>, init: seq<Prediction>, preds: seq<Prediction>)
    requires |preds| == |init| + 1 && init == preds[..|init|]
    requires AllKeyed(prev) && DistinctVehicles(prev) && CoversVehicles(prev, init) && Closest(prev, init)
    ensures AllKeyed(DedupStep(prev, preds[|init|])) && Closest(DedupStep(prev, preds[|init|]), preds)
  {
    var p := preds[|init|];
    if !Keyed(p) {
      assert forall j :: 0 <= j < |init| ==> init[j] == preds[j];
    } else {
      match FindVehicle(prev, p.vehicleId.value)
      case None => ClosestNew(prev, init, preds);
      case Some(i) =>
        if p.timeToStation.value < prev[i].timeToStation.value {
          ClosestReplace(prev, init, preds, i);
        } else {
          ClosestKeep(prev, init, preds, i);
        }
    }
  }

  lemma ClosestNew(prev: seq<Prediction>, init: seq<Prediction>, preds: seq<Prediction>)
    requires |preds| == |init| + 1 && init == preds[..|init|] && Keyed(preds[|init|])
    requires FindVehicle(prev, preds[|init|].vehicleId.value).None?
    requires AllKeyed(prev) && CoversVehicles(prev, init) && Closest(prev, init)
    ensures Closest(prev + [preds[|init|]], preds)
  {
    var p := preds[|init|];
    var r := prev + [p];
    forall a, j | 0 <= a < |r| && 0 <= j < |preds| && Keyed(preds[j]) && preds[j].vehicleId == r[a].vehicleId
      ensures r[a].timeToStation.value <= preds[j].timeToStation.value
    {
      if a < |prev| && j < |init| {
        assert init[j] == preds[j] && r[a] == prev[a];
      }
    }
  }

  lemma ClosestReplace(prev: seq<Prediction>, init: seq<Prediction>, preds: seq<Prediction>, i: nat)
    requires |preds| == |init| + 1 && init == preds[..|init|] && Keyed(preds[|init|])
    requires i < |prev| && prev[i].vehicleId == preds[|init|].vehicleId
    requires AllKeyed(prev) && DistinctVehicles(prev) && Closest(prev, init)
    requires preds[|init|].timeToStation.value < prev[i].timeToStation.value
    ensures Closest(prev[i := preds[|init|]], preds)
  {
    var p := preds[|init|];
    var r := prev[i := p];
    forall a, j | 0 <= a < |r| && 0 <= j < |preds| && Keyed(preds[j]) && preds[j].vehicleId == r[a].vehicleId
      ensures r[a].timeToStation.value <= preds[j].timeToStation.value
    {
      if j < |init| {
        assert init[j] == preds[j];
        if a == i {
          assert init[j].vehicleId == prev[i].vehicleId;
        }
      }
    }
  }

  lemma ClosestKeep(prev: seq<Prediction>, init: seq<Prediction>, preds: seq<Prediction>, i: nat)
    requires |preds| == |init| + 1 && init == preds[..|init|] && Keyed(preds[|init|])
    requires i < |prev| && prev[i].vehicleId == preds[|init|].vehicleId
    requires AllKeyed(prev) && DistinctVehicles(prev) && Closest(prev, init)
    requires preds[|init|].timeToStation.value >= prev[i].timeToStation.value
    ensures Closest(prev, preds)
  {
    forall a, j | 0 <= a < |prev| && 0 <= j < |preds| && Keyed(preds[j]) && preds[j].vehicleId == prev[a].vehicleId
      ensures prev[a].timeToStation.value <= preds[j].timeToStation.value
    {
      if j < |init| {
        assert init[j] == preds[j];
      }
    }
  }

  lemma StepFirstSeen(prev: seq<Prediction>, init: seq<Prediction>, preds: seq<Prediction>)
    requires |preds| == |init| + 1 && init == preds[..|init|]
    requires AllKeyed(prev) && DistinctVehicles(prev) && CoversVehicles(prev, init)
    requires Closest(prev, init) && FirstSeen(prev, init)
    ensures AllKeyed(DedupStep(prev, preds[|init|])) && FirstSeen(DedupStep(prev, preds[|init|]), preds)
  {
    var p := preds[|init|];
    if !Keyed(p) {
      FirstSeenKeep(prev, init, preds, |prev|);
    } else {
      match FindVehicle(prev, p.vehicleId.value)
      case None => FirstSeenNew(prev, init, preds);
      case Some(i) =>
        if p.timeToStation.value < prev[i].timeToStation.value {
          FirstSeenReplace(prev, init, preds, i);
        } else {
          FirstSeenKeep(prev, init, preds, |prev|);
        }
    }
  }

  /** The witness of an untouched entry carries over to a longer list. */
  lemma KeptWitness(prev: seq<Prediction>, init: seq<Prediction>, preds: seq<Prediction>, a: nat)
    requires |preds| == |init| + 1 && init == preds[..|init|]
    requires AllKeyed(prev) && FirstSeen(prev, init) && a < |prev|
    ensures Witnessed(preds, prev[a])
  {
    var j :| 0 <= j < |init| && init[j] == prev[a] && EarlierAreLater(init, j, prev[a]);
    assert preds[j] == prev[a] && EarlierAreLater(preds, j, prev[a]);
  }

  /** Entries other than `skip` are unchanged; so is the whole list when
      `skip` is out of range. */
  lemma FirstSeenKeep(prev: seq<Prediction>, init: seq<Prediction>, preds: seq<Prediction>, skip: nat)
    requires |preds| == |init| + 1 && init == preds[..|init|]
    requires AllKeyed(prev) && FirstSeen(prev, init)
    ensures forall a :: 0 <= a < |prev| && a != skip ==>
              Witnessed(preds, prev[a])
  {
    forall a | 0 <= a < |prev| && a != skip
      ensures Witnessed(preds, prev[a])
    {
      KeptWitness(prev, init, preds, a);
    }
  }

  lemma FirstSeenNew(prev: seq<Prediction>, init: seq<Prediction>, preds: seq<Prediction>)
    requires |preds| == |init| + 1 && init == preds[..|init|] && Keyed(preds[|init|])
    requires FindVehicle(prev, preds[|init|].vehicleId.value).None?
    requires AllKeyed(prev) && CoversVehicles(prev, init) && FirstSeen(prev, init)
    ensures AllKeyed(prev + [preds[|init|]]) && FirstSeen(prev + [preds[|init|]], preds)
  {
    var p := preds[|init|];
    var r := prev + [p];
    FirstSeenKeep(prev, init, preds, |prev|);
    forall l | 0 <= l < |init| && Keyed(preds[l])
      ensures preds[l].vehicleId != p.vehicleId
    {
      assert init[l] == preds[l] && FindVehicle(prev, init[l].vehicleId.value).Some?;
    }
    assert EarlierAreLater(preds, |init|, p);
    forall a | 0 <= a < |r|
      ensures Witnessed(preds, r[a])
    {
      if a == |prev| {
        assert preds[|init|] == r[a];
      } else {
        assert r[a] == prev[a];
      }
    }
  }

  lemma FirstSeenReplace(prev: seq<Prediction>, init: seq<Prediction>, preds: seq<Prediction>, i: nat)
    requires |preds| == |init| + 1 && init == preds[..|init|] && Keyed(preds[|init|])
    requires i < |prev| && prev[i].vehicleId == preds[|init|].vehicleId
    requires AllKeyed(prev) && Closest(prev, init) && FirstSeen(prev, init)
    requires preds[|init|].timeToStation.value < prev[i].timeToStation.value
    ensures AllKeyed(prev[i := preds[|init|]]) && FirstSeen(prev[i := preds[|init|]], preds)
  {
    var p := preds[|init|];
    var r := prev[i := p];
    FirstSeenKeep(prev, init, preds, i);
    forall l | 0 <= l < |init| && Keyed(preds[l]) && preds[l].vehicleId == p.vehicleId
      ensures preds[l].timeToStation.value > p.timeToStation.value
    {
      assert init[l] == preds[l] && init[l].vehicleId == prev[i].vehicleId;
    }
    assert EarlierAreLater(preds, |init|, p);
    forall a | 0 <= a < |r|
      ensures Witnessed(preds, r[a])
    {
      if a == i {
        assert preds[|init|] == r[a];
      } else {
        assert r[a] == prev[a];
      }
    }
  }

  /** Ten minutes: arrivals further away than this all start at the
      beginning of the segment. */
  const MaxTime: int := 600

  /** Progress along the placeholder segment from the time to the station:
      `(600 - min(t, 600)) / 600`. */
  function Progress(t: int): (p: real)
    ensures 0.0 <= p
    ensures t >= MaxTime ==> p == 0.0
    ensures 0 <= t ==> p <= 1.0
    ensures t == 0 ==> p == 1.0
    ensures t < 0 ==> p > 1.0
  {
    (MaxTime - (if t < MaxTime then t else MaxTime)) as real / MaxTime as real
  }

  /** Nearer arrivals are further along. */
  lemma ProgressMonotone(t1: int, t2: int)
    requires t1 <= t2
    ensures Progress(t1) >= Progress(t2)
    ensures t1 < t2 && t1 < MaxTime ==> Progress(t1) > Progress(t2)
  {
  }

  /** An entry the conversion turns into a vehicle: it also has a line and
      a current location. */
  predicate Complete(p: Prediction) {
    p.lineId.Some? && p.timeToStation.Some? && p.currentLocation.Some?
  }

  /** The vehicle built from a complete entry: near the centre of London,
      offset by one random draw used for both coordinates, on the first
      segment of route 0 heading forward. */
  function RealTimeVehicle(p: Prediction, id: nat, draw: real): (v: MapVehicle)
    requires Complete(p)
  {
    var offset := (draw - 0.5) * 0.1;
    MapVehicle(id, TflLines.VehicleTypeForLine(p.lineId.value), 0, p.lineId.value,
               Progress(p.timeToStation.value), 0.01, 1, 0, 1, -0.1278 + offset, 51.5074 + offset)
  }

  /** What every real-time vehicle looks like before route assignment. */
  predicate RealTimeShape(v: MapVehicle) {
    && v.direction == 1 && v.lastStation == 0 && v.nextStation == 1 && v.routeIndex == 0
    && v.speed == 0.01 && v.position >= 0.0
    && v.vehicleType == TflLines.VehicleTypeForLine(v.lineId)
  }

  /** The conversion loop over deduplicated entries: incomplete entries
      are skipped; every vehicle made takes the next id and one draw. */
  function ConvertEntries(entries: seq<Prediction>, rng: nat -> real, cursor: nat, firstId: nat): (r: (seq<MapVehicle>, nat))
    ensures |r.0| == CountWhere(entries, Complete) && r.1 == cursor + |r.0|
    ensures forall j :: 0 <= j < |r.0| ==> r.0[j].id == firstId + j && RealTimeShape(r.0[j])
  {
    if |entries| == 0 then ([], cursor)
    else
      var prev := ConvertEntries(entries[..|entries| - 1], rng, cursor, firstId);
      var e := entries[|entries| - 1];
      if !Complete(e) then prev
      else (prev.0 + [RealTimeVehicle(e, firstId + |prev.0|, rng(prev.1))], prev.1 + 1)
  }

  /** The result of fetching one line's arrivals. */
  type Fetch = Result<seq<Prediction>>

  /** The vehicles of the first `k` fetched lines; a failed fetch is
      skipped. */
  function RealTimeUpTo(fetches: seq<Fetch>, k: nat, rng: nat -> real, cursor: nat): (r: (seq<MapVehicle>, nat))
    requires k <= |fetches|
    ensures forall j :: 0 <= j < |r.0| ==> r.0[j].id == j && RealTimeShape(r.0[j])
    ensures |r.0| == CompleteCount(fetches[..k]) && r.1 == cursor + |r.0|
  {
    if k == 0 then ([], cursor)
    else
      var prev := RealTimeUpTo(fetches, k - 1, rng, cursor);
      assert fetches[..k][..k - 1] == fetches[..k - 1];
      match fetches[k - 1]
      case Err(_) => prev
      case Ok(preds) =>
        var more := ConvertEntries(Dedup(preds), rng, prev.1, |prev.0|);
        (prev.0 + more.0, more.1)
  }

  /** How many vehicles the fetched lines yield: per line, the complete
      entries among its deduplicated predictions. */
  function CompleteCount(fetches: seq<Fetch>): nat {
    if |fetches| == 0 then 0
    else CompleteCount(fetches[..|fetches| - 1]) +
         match fetches[|fetches| - 1]
         case Err(_) => 0
         case Ok(preds) => CountWhere(Dedup(preds), Complete)
  }

  const NoRealTimeVehicles: string := "No real-time vehicles found"

  /** `build_real_time_vehicles`, given the fetch result of each primary
      line in order: an error exactly when no vehicle could be built. */
  function BuildRealTimeVehicles(fetches: seq<Fetch>, rng: nat -> real, cursor: nat): (r: (Result<seq<MapVehicle>>, nat))
    ensures r.0.Err? <==> CompleteCount(fetches) == 0
    ensures r.0.Err? ==> r.0.message == NoRealTimeVehicles && r.1 == cursor
    ensures r.0.Ok? ==> |r.0.value| == CompleteCount(fetches) && r.1 == cursor + |r.0.value|
    ensures r.0.Ok? ==> forall j :: 0 <= j < |r.0.value| ==> r.0.value[j].id == j && RealTimeShape(r.0.value[j])
  {
    var built := RealTimeUpTo(fetches, |fetches|, rng, cursor);
    assert fetches[..|fetches|] == fetches;
    if |built.0| == 0 then (Err(NoRealTimeVehicles), built.1) else (Ok(built.0), built.1)
  }

  /** A failed fetch contributes nothing; failures everywhere give the
      error. */
  lemma AllFetchesFailed(fetches: seq<Fetch>, rng: nat -> real, cursor: nat)
    requires forall k :: 0 <= k < |fetches| ==> fetches[k].Err?
    ensures BuildRealTimeVehicles(fetches, rng, cursor).0 == Err(NoRealTimeVehicles)
  {
    NoCompleteFromFailures(fetches);
  }

  lemma {:induction false} NoCompleteFromFailures(fetches: seq<Fetch>)
    requires forall k :: 0 <= k < |fetches| ==> fetches[k].Err?
    ensures CompleteCount(fetches) == 0
  {
    if |fetches| > 0 {
      NoCompleteFromFailures(fetches[..|fetches| - 1]);
    }
  }

  /** The lines real-time data is fetched for, in order. */
  const PrimaryLines: seq<string> := [
    "victoria", "piccadilly", "northern", "jubilee", "central",
    "district", "bakerloo", "waterloo-city", "circle", "hammersmith-city",
    "metropolitan", "dlr", "elizabeth", "tram"]

  const CentralLondon: Point := Point(-0.1278, 51.5074)
  const NearCentralLondon: Point := Point(-0.1178, 51.5174)

  /** The placeholder route of line `lineId` at index `i`. */
  function SimpleRoute(i: nat, lineId: string): MapRoute {
    MapRoute(i, lineId + " (segment 0)", lineId, TflLines.VehicleTypeForLine(lineId), [CentralLondon, NearCentralLondon])
  }

  /** `create_simple_routes_for_real_time`: one two-station route per
      primary line, its id its index. */
  function CreateSimpleRoutesForRealTime(): (routes: seq<MapRoute>)
    ensures |routes| == |PrimaryLines| && IdsArePositions(routes) && AllTravelable(routes)
    ensures forall i :: 0 <= i < |routes| ==> routes[i].lineId == PrimaryLines[i] && |routes[i].stations| == 2
  {
    seq(|PrimaryLines|, i requires 0 <= i < |PrimaryLines| => SimpleRoute(i, PrimaryLines[i]))
  }

  /** Every primary line is a train line, so every placeholder route
      carries trains. */
  lemma SimpleRoutesAreTrains()
    ensures forall i :: 0 <= i < |PrimaryLines| ==> CreateSimpleRoutesForRealTime()[i].vehicleType == Train
  {
    PrimaryLinesAreTrains();
  }

  lemma PrimaryLinesAreTrains()
    ensures forall i :: 0 <= i < |PrimaryLines| ==> TflLines.VehicleTypeForLine(PrimaryLines[i]) == Train
  {
    forall i | 0 <= i < |PrimaryLines|
      ensures TflLines.VehicleTypeForLine(PrimaryLines[i]) == Train
    {
      assert PrimaryLines[i] in TflLines.TrainLineIds;
    }
  }
}
