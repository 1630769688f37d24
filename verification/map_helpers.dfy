/** The map crate's GeoJSON helpers (map/src/data/map_helpers.rs): station
    points, the per-line station lists built from platforms, a line string
    through a line's stations, and the route-geometry sources the map
    draws. Serialisation to a JavaScript value is left out; a helper's
    `Result` is the model's. */
module MapHelpers {
  import opened Common
  import opened Text
  import opened GeoJson
  import opened Loader
  import TflLines

  // ---------------------------------------------------------------------
  // stations_to_geojson

  /** The filter `stations_to_geojson` applies: NaN in neither coordinate
      (zero is allowed here, unlike `filter_valid_stations`). */
  predicate HasCoordinates(s: Station) {
    !IsNaN(s.lat) && !IsNaN(s.lon)
  }

  function StationProperties(s: Station): Properties {
    [("id", PStr(s.id)), ("name", PStr(s.name)), ("fareZones", PStr(s.fareZones)), ("wifi", PBool(s.wifi))]
  }

  function StationFeature(s: Station): Feature {
    NewPointFeature(s.lon, s.lat, StationProperties(s))
  }

  /** `f` is the point feature of some station of `stations` that has
      coordinates. */
  predicate DrawnFrom(stations: seq<Station>, f: Feature) {
    exists s :: s in stations && HasCoordinates(s) && f == StationFeature(s)
  }

  /** One point feature per station with coordinates, in station order. */
  function StationsToGeojson(stations: seq<Station>): (r: GeoJsonSource)
    ensures ValidSource(r)
    ensures |r.data.features| == CountWhere(stations, HasCoordinates)
    ensures forall k :: 0 <= k < |r.data.features| ==> DrawnFrom(stations, r.data.features[k])
  {
    var shown := Filter(stations, HasCoordinates);
    FilterHas(stations, HasCoordinates);
    var fs := seq(|shown|, k requires 0 <= k < |shown| => StationFeature(shown[k]));
    assert forall k :: 0 <= k < |fs| ==> DrawnFrom(stations, fs[k]) by {
      forall k | 0 <= k < |fs|
        ensures DrawnFrom(stations, fs[k])
      {
        assert shown[k] in stations && HasCoordinates(shown[k]) && fs[k] == StationFeature(shown[k]);
      }
    }
    NewGeojsonSource(fs)
  }

  /** Every station that survives `filter_valid_stations` is drawn, each at
      its own [lon, lat]: the drawing filter removes nothing more. */
  lemma {:induction false} ValidStationsAllDrawn(stations: seq<Station>)
    ensures var valid := FilterValidStations(stations);
            var fs := StationsToGeojson(valid).data.features;
            && |fs| == |valid|
            && forall k :: 0 <= k < |fs| ==> fs[k].geometry.coordinates == Position(valid[k].lon, valid[k].lat)
  {
    var valid := FilterValidStations(stations);
    assert forall i :: 0 <= i < |valid| ==> HasCoordinates(valid[i]);
    FilterKeepsAll(valid, HasCoordinates);
  }

  // ---------------------------------------------------------------------
  // create_line_stations_map

  /** Lines the map does not draw: National Rail and platforms without a
      line. */
  predicate Skipped(line: string) {
    line == "national-rail" || line == ""
  }

  function Elems(xs: seq<string>): set<string> {
    set x | x in xs
  }

  /** The station ids of the platforms on `line`. */
  function StationsOn(platforms: seq<Platform>, line: string): set<string> {
    set p | p in platforms && p.line == line :: p.stationId
  }

  function DrawnLines(platforms: seq<Platform>): set<string> {
    set p | p in platforms && !Skipped(p.line) :: p.line
  }

  predicate StrictlyAscending(xs: seq<string>) {
    forall i, j :: 0 <= i < j < |xs| ==> Less(xs[i], xs[j])
  }

  /** The collecting pass: per drawn line, its platforms' station ids in
      platform order, duplicates included. */
  function CollectLineStations(platforms: seq<Platform>): (m: map<string, seq<string>>)
    ensures m.Keys == DrawnLines(platforms)
    ensures forall l :: l in m ==> Elems(m[l]) == StationsOn(platforms, l)
  {
    if |platforms| == 0 then map[]
    else
      var init := platforms[..|platforms| - 1];
      var p := platforms[|platforms| - 1];
      var m := CollectLineStations(init);
      assert platforms == init + [p];
      CollectStep(init, p, m);
      if Skipped(p.line) then m
      else m[p.line := (if p.line in m then m[p.line] else []) + [p.stationId]]
  }

  lemma CollectStep(init: seq<Platform>, p: Platform, m: map<string, seq<string>>)
    requires m.Keys == DrawnLines(init)
    requires forall l :: l in m ==> Elems(m[l]) == StationsOn(init, l)
    ensures Skipped(p.line) ==>
              && m.Keys == DrawnLines(init + [p])
              && forall l :: l in m ==> Elems(m[l]) == StationsOn(init + [p], l)
    ensures !Skipped(p.line) ==>
              var m' := m[p.line := (if p.line in m then m[p.line] else []) + [p.stationId]];
              && m'.Keys == DrawnLines(init + [p])
              && forall l :: l in m' ==> Elems(m'[l]) == StationsOn(init + [p], l)
  {
    var s := init + [p];
    assert forall q :: q in s <==> q in init || q == p;
    assert forall l :: StationsOn(s, l) == StationsOn(init, l) + (if p.line == l then {p.stationId} else {});
    if !Skipped(p.line) && p.line !in m {
      assert forall q :: q in init && q.line == p.line ==> q.line in DrawnLines(init);
    }
  }

  /** Inserts `x` into a strictly ascending list, keeping it so; an `x`
      already present leaves the list as it is. */
  function InsertSorted(xs: seq<string>, x: string): (r: seq<string>)
    requires StrictlyAscending(xs)
    ensures StrictlyAscending(r) && Elems(r) == Elems(xs) + {x}
  {
    if |xs| == 0 then [x]
    else if x == xs[0] then
      assert xs[0] in Elems(xs);
      xs
    else if Less(x, xs[0]) then
      InsertFront(xs, x);
      [x] + xs
    else
      LessTotal(x, xs[0]);
      var rest := InsertSorted(xs[1..], x);
      InsertBehind(xs, x, rest);
      [xs[0]] + rest
  }

  lemma InsertFront(xs: seq<string>, x: string)
    requires StrictlyAscending(xs) && |xs| > 0 && Less(x, xs[0])
    ensures StrictlyAscending([x] + xs) && Elems([x] + xs) == Elems(xs) + {x}
  {
    var r := [x] + xs;
    forall i, j | 0 <= i < j < |r|
      ensures Less(r[i], r[j])
    {
      if i == 0 && j > 1 {
        LessTransitive(x, xs[0], xs[j - 1]);
      }
    }
  }

  lemma ElemsCons(x: string, xs: seq<string>)
    ensures Elems([x] + xs) == {x} + Elems(xs)
  {
    assert forall y :: y in [x] + xs <==> y == x || y in xs;
  }

  lemma InsertBehind(xs: seq<string>, x: string, rest: seq<string>)
    requires StrictlyAscending(xs) && |xs| > 0 && Less(xs[0], x)
    requires StrictlyAscending(rest) && Elems(rest) == Elems(xs[1..]) + {x}
    ensures StrictlyAscending([xs[0]] + rest) && Elems([xs[0]] + rest) == Elems(xs) + {x}
  {
    var r := [xs[0]] + rest;
    ElemsCons(xs[0], xs[1..]);
    ElemsCons(xs[0], rest);
    assert xs == [xs[0]] + xs[1..];
    forall i, j | 0 <= i < j < |r|
      ensures Less(r[i], r[j])
    {
      if i == 0 {
        assert r[j] in Elems(rest);
        if r[j] != x {
          var k :| 0 <= k < |xs[1..]| && xs[1..][k] == r[j];
          assert xs[k + 1] == r[j];
        }
      }
    }
  }

  /** `sort` followed by `dedup`: the distinct ids, strictly ascending. */
  function SortDedup(ids: seq<string>): (r: seq<string>)
    ensures StrictlyAscending(r) && Elems(r) == Elems(ids)
  {
    if |ids| == 0 then []
    else
      var init := ids[..|ids| - 1];
      assert ids == init + [ids[|ids| - 1]];
      InsertSorted(SortDedup(init), ids[|ids| - 1])
  }

  /** A strictly ascending list is determined by its elements, so any way
      of sorting and deduplicating gives the same list. */
  lemma {:induction false} AscendingUnique(a: seq<string>, b: seq<string>)
    requires StrictlyAscending(a) && StrictlyAscending(b) && Elems(a) == Elems(b)
    ensures a == b
    decreases |a|
  {
    assert |a| > 0 ==> a[0] in Elems(a);
    assert |b| > 0 ==> b[0] in Elems(b);
    if |a| > 0 && |b| > 0 {
      HeadIsLeast(b, a[0]);
      HeadIsLeast(a, b[0]);
      LessAntisymmetric(a[0], b[0]);
      LessIrreflexive(a[0]);
      HeadOnlyOnce(a);
      HeadOnlyOnce(b);
      assert Elems(a[1..]) == Elems(a) - {a[0]} by {
        assert a == [a[0]] + a[1..];
      }
      assert Elems(b[1..]) == Elems(b) - {b[0]} by {
        assert b == [b[0]] + b[1..];
      }
      AscendingUnique(a[1..], b[1..]);
      assert a == [a[0]] + a[1..] && b == [b[0]] + b[1..];
    }
  }

  lemma HeadIsLeast(a: seq<string>, x: string)
    requires StrictlyAscending(a) && x in Elems(a)
    ensures x == a[0] || Less(a[0], x)
  {
    var i :| 0 <= i < |a| && a[i] == x;
  }

  lemma LessAntisymmetric(a: string, b: string)
    ensures !(Less(a, b) && Less(b, a))
  {
    if Less(a, b) {
      LessAsymmetric(a, b);
    }
  }

  lemma HeadOnlyOnce(a: seq<string>)
    requires StrictlyAscending(a) && |a| > 0
    ensures a[0] !in Elems(a[1..])
  {
    forall k | 0 <= k < |a[1..]|
      ensures a[1..][k] != a[0]
    {
      assert a[1..][k] == a[k + 1];
      LessIrreflexive(a[0]);
    }
  }

  /** `create_line_stations_map`: per drawn line, its platforms' distinct
      station ids in ascending order. */
  function CreateLineStationsMap(platforms: seq<Platform>): (m: map<string, seq<string>>)
    ensures m.Keys == DrawnLines(platforms)
    ensures forall l :: l in m ==> StrictlyAscending(m[l]) && Elems(m[l]) == StationsOn(platforms, l)
    ensures forall l :: l in m ==> !Skipped(l) && |m[l]| > 0
  {
    var collected := CollectLineStations(platforms);
    var m := map l | l in collected :: SortDedup(collected[l]);
    forall l | l in m
      ensures |m[l]| > 0
    {
      var p :| p in platforms && !Skipped(p.line) && p.line == l;
      assert p.stationId in StationsOn(platforms, l);
    }
    m
  }

  /** The result depends only on which platforms there are, not on their
      order, so the order in which the platform groups are flattened does
      not matter. */
  lemma LineStationsOrderIndependent(a: seq<Platform>, b: seq<Platform>)
    ensures CreateLineStationsMap(a + b) == CreateLineStationsMap(b + a)
  {
    SamePlatformsSameMap(a + b, b + a);
  }

  lemma SamePlatformsSameMap(a: seq<Platform>, b: seq<Platform>)
    requires forall p :: p in a <==> p in b
    ensures CreateLineStationsMap(a) == CreateLineStationsMap(b)
  {
    var m1 := CreateLineStationsMap(a);
    var m2 := CreateLineStationsMap(b);
    SameDrawnLines(a, b);
    forall l | l in m1
      ensures m1[l] == m2[l]
    {
      SameEntry(a, b, l);
    }
    SameMap(m1, m2);
  }

  lemma SameEntry(a: seq<Platform>, b: seq<Platform>, l: string)
    requires forall p :: p in a <==> p in b
    requires l in CreateLineStationsMap(a) && l in CreateLineStationsMap(b)
    ensures CreateLineStationsMap(a)[l] == CreateLineStationsMap(b)[l]
  {
    SameStationsOn(a, b, l);
    AscendingUnique(CreateLineStationsMap(a)[l], CreateLineStationsMap(b)[l]);
  }

  lemma SameMap<K, V>(m1: map<K, V>, m2: map<K, V>)
    requires m1.Keys == m2.Keys
    requires forall k :: k in m1 ==> m1[k] == m2[k]
    ensures m1 == m2
  {
  }

  lemma SameDrawnLines(a: seq<Platform>, b: seq<Platform>)
    requires forall p :: p in a <==> p in b
    ensures DrawnLines(a) == DrawnLines(b)
  {
  }

  lemma SameStationsOn(a: seq<Platform>, b: seq<Platform>, l: string)
    requires forall p :: p in a <==> p in b
    ensures StationsOn(a, l) == StationsOn(b, l)
  {
  }

  // ---------------------------------------------------------------------
  // line_to_geojson

  /** A station id's [lon, lat], when the station is known. */
  function StationPosition(byId: map<string, Station>): string -> Option<Position> {
    id => if id in byId then Some(Position(byId[id].lon, byId[id].lat)) else None
  }

  function NotEnoughStations(lineName: string): string {
    "Not enough stations with valid coordinates for " + lineName + " line"
  }

  /** A single line string through the known stations of a line, in the
      order of `ids`; fewer than two known stations is an error. */
  function LineToGeojson(lineName: string, ids: seq<string>, byId: map<string, Station>): (r: Result<GeoJsonSource>)
    ensures r.Err? ==> r.message == NotEnoughStations(lineName)
    ensures r.Ok? ==> ValidSource(r.value) && |r.value.data.features| == 1
    ensures r.Ok? ==> r.value.data.features[0].properties == [("name", PStr(lineName))]
  {
    var positions := FilterMap(ids, StationPosition(byId));
    if |positions| < 2 then Err(NotEnoughStations(lineName))
    else Ok(NewGeojsonSource([NewLinestringFeature(positions, [("name", PStr(lineName))])]))
  }

  /** When every id is known the line passes through all of them in
      order; ids that are not known are skipped. */
  lemma LineThroughKnownStations(lineName: string, ids: seq<string>, byId: map<string, Station>)
    requires forall i :: 0 <= i < |ids| ==> ids[i] in byId
    ensures |ids| < 2 <==> LineToGeojson(lineName, ids, byId).Err?
    ensures |ids| >= 2 ==>
              LineToGeojson(lineName, ids, byId).value.data.features[0].geometry.positions ==
              seq(|ids|, i requires 0 <= i < |ids| => Position(byId[ids[i]].lon, byId[ids[i]].lat))
  {
    var expected := seq(|ids|, i requires 0 <= i < |ids| => Position(byId[ids[i]].lon, byId[ids[i]].lat));
    FilterMapAll(ids, StationPosition(byId), expected);
  }

  /** A line with fewer than two station ids cannot resolve two positions,
      so `line_to_geojson` already rejects it. */
  lemma ShortLinesFail(lineName: string, ids: seq<string>, byId: map<string, Station>)
    requires |ids| < 2
    ensures LineToGeojson(lineName, ids, byId).Err?
  {
  }

  /** Unknown ids are dropped: the positions come only from known ids. */
  lemma UnknownIdsSkipped(lineName: string, ids: seq<string>, byId: map<string, Station>)
    requires forall i :: 0 <= i < |ids| ==> ids[i] !in byId
    ensures LineToGeojson(lineName, ids, byId) == Err(NotEnoughStations(lineName))
  {
    FilterMapEmpty(ids, StationPosition(byId));
  }

  // ---------------------------------------------------------------------
  // generate_all_line_data

  /** Per drawn line with at least two station ids whose line string can be
      built: the source and the line's colour. */
  function GenerateAllLineData(platforms: seq<Platform>, byId: map<string, Station>): (r: map<string, (GeoJsonSource, string)>)
    ensures forall l :: l in r ==> l in DrawnLines(platforms) && ValidSource(r[l].0)
    ensures forall l :: l in r ==> r[l].1 == TflLines.MapLineColor(l)
    ensures forall l :: l in DrawnLines(platforms) ==>
              (l in r <==> LineToGeojson(l, CreateLineStationsMap(platforms)[l], byId).Ok?)
  {
    var lines := CreateLineStationsMap(platforms);
    ShortLinesNeverDrawn(lines, byId);
    map l | l in lines && |lines[l]| >= 2 && LineToGeojson(l, lines[l], byId).Ok? ::
      (LineToGeojson(l, lines[l], byId).value, TflLines.MapLineColor(l))
  }

  lemma ShortLinesNeverDrawn(lines: map<string, seq<string>>, byId: map<string, Station>)
    ensures forall l :: l in lines && LineToGeojson(l, lines[l], byId).Ok? ==> |lines[l]| >= 2
  {
    forall l | l in lines && |lines[l]| < 2
      ensures LineToGeojson(l, lines[l], byId).Err?
    {
      ShortLinesFail(l, lines[l], byId);
    }
  }

  // ---------------------------------------------------------------------
  // route_geometries_to_geojson

  function Positions(coords: seq<Point>): (ps: seq<Position>)
    ensures |ps| == |coords|
  {
    seq(|coords|, i requires 0 <= i < |coords| => Position(Num(coords[i].x), Num(coords[i].y)))
  }

  function Indexed(geometries: seq<seq<Point>>): (e: seq<(nat, seq<Point>)>)
    ensures |e| == |geometries|
    ensures forall i :: 0 <= i < |e| ==> e[i] == (i, geometries[i])
  {
    seq(|geometries|, i requires 0 <= i < |geometries| => (i as nat, geometries[i]))
  }

  function SegmentFeature(lineId: string, e: (nat, seq<Point>)): Feature {
    NewLinestringFeature(Positions(e.1), [("line_id", PStr(lineId)), ("segment_id", PNat(e.0))])
  }

  function SegmentFeatures(lineId: string, kept: seq<(nat, seq<Point>)>): (fs: seq<Feature>)
    ensures |fs| == |kept|
  {
    seq(|kept|, k requires 0 <= k < |kept| => SegmentFeature(lineId, kept[k]))
  }

  predicate NonEmptySegment(e: (nat, seq<Point>)) {
    |e.1| > 0
  }

  /** `route_geometries_to_geojson` as written: every non-empty geometry
      becomes a line string, tagged with its index. */
  function RouteGeometriesToGeojsonAsWritten(lineId: string, geometries: seq<seq<Point>>): (r: GeoJsonSource)
    ensures |r.data.features| == CountWhere(Indexed(geometries), NonEmptySegment)
  {
    NewGeojsonSource(SegmentFeatures(lineId, Filter(Indexed(geometries), NonEmptySegment)))
  }

  /** A one-position geometry comes through `parse_line_string` and then
      yields a LineString with a single position, which RFC 7946 section
      3.1.4 does not allow. */
  lemma OnePointSegmentEmitted(c: Point, show: real -> string, parse: string -> Option<real>, lineId: string)
    requires Printable(show, parse, c.x) && Printable(show, parse, c.y)
    ensures ParseLineString(RenderLineString([c], show), parse) == Ok([c])
    ensures !ValidSource(RouteGeometriesToGeojsonAsWritten(lineId, [[c]]))
  {
    LineStringRoundTrip([c], show, parse);
    var e := Indexed([[c]]);
    assert e == [(0, [c])];
    assert Filter(e, NonEmptySegment) == [(0, [c])] by {
      assert e[..0] == [];
    }
    var fs := SegmentFeatures(lineId, [(0, [c])]);
    assert fs[0] == SegmentFeature(lineId, (0, [c]));
    assert |Positions([c])| == 1;
    assert !ValidFeature(fs[0]);
  }

  predicate DrawableSegment(e: (nat, seq<Point>)) {
    |e.1| >= 2
  }

  /** `f` is the line-string feature of a geometry of `geometries` with at
      least two positions, under that geometry's own index. */
  predicate SegmentOf(lineId: string, geometries: seq<seq<Point>>, f: Feature) {
    exists i :: 0 <= i < |geometries| && |geometries[i]| >= 2 && f == SegmentFeature(lineId, (i, geometries[i]))
  }

  /** The corrected conversion: a geometry becomes a line string only when
      it has the two positions a LineString needs; indices are kept. */
  function RouteGeometriesToGeojson(lineId: string, geometries: seq<seq<Point>>): (r: GeoJsonSource)
    ensures ValidSource(r)
    ensures |r.data.features| == CountWhere(Indexed(geometries), DrawableSegment)
    ensures forall k :: 0 <= k < |r.data.features| ==> SegmentOf(lineId, geometries, r.data.features[k])
  {
    var kept := Filter(Indexed(geometries), DrawableSegment);
    var fs := SegmentFeatures(lineId, kept);
    KeptSegments(lineId, geometries, kept, fs);
    NewGeojsonSource(fs)
  }

  lemma KeptSegments(lineId: string, geometries: seq<seq<Point>>, kept: seq<(nat, seq<Point>)>, fs: seq<Feature>)
    requires kept == Filter(Indexed(geometries), DrawableSegment)
    requires fs == SegmentFeatures(lineId, kept)
    ensures forall k :: 0 <= k < |fs| ==> ValidFeature(fs[k]) && SegmentOf(lineId, geometries, fs[k])
  {
    var e := Indexed(geometries);
    FilterHas(e, DrawableSegment);
    forall k | 0 <= k < |fs|
      ensures ValidFeature(fs[k]) && SegmentOf(lineId, geometries, fs[k])
    {
      assert kept[k] in e && DrawableSegment(kept[k]);
      var i :| 0 <= i < |e| && e[i] == kept[k];
      assert fs[k] == SegmentFeature(lineId, (i, geometries[i]));
      assert |Positions(geometries[i])| >= 2;
    }
  }

  /** Where no geometry has exactly one position, the correction changes
      nothing. */
  lemma CorrectionAgrees(lineId: string, geometries: seq<seq<Point>>)
    requires forall i :: 0 <= i < |geometries| ==> |geometries[i]| != 1
    ensures RouteGeometriesToGeojson(lineId, geometries) == RouteGeometriesToGeojsonAsWritten(lineId, geometries)
  {
    SameFilter(Indexed(geometries));
  }

  lemma {:induction false} SameFilter(e: seq<(nat, seq<Point>)>)
    requires forall i :: 0 <= i < |e| ==> |e[i].1| != 1
    ensures Filter(e, DrawableSegment) == Filter(e, NonEmptySegment)
    decreases |e|
  {
    if |e| > 0 {
      SameFilter(e[..|e| - 1]);
    }
  }

  // ---------------------------------------------------------------------
  // generate_all_route_geometries

  /** A source is valid exactly when none of its geometries has a single
      position: empty ones are filtered out, and a single position is the
      only way a kept geometry fails RFC 7946 section 3.1.4. */
  lemma AsWrittenValidExactly(lineId: string, geometries: seq<seq<Point>>)
    ensures ValidSource(RouteGeometriesToGeojsonAsWritten(lineId, geometries))
        <==> forall i :: 0 <= i < |geometries| ==> |geometries[i]| != 1
  {
    var e := Indexed(geometries);
    var kept := Filter(e, NonEmptySegment);
    var fs := SegmentFeatures(lineId, kept);
    assert RouteGeometriesToGeojsonAsWritten(lineId, geometries).data.features == fs;
    FilterHas(e, NonEmptySegment);
    if forall i :: 0 <= i < |geometries| ==> |geometries[i]| != 1 {
      forall k | 0 <= k < |fs|
        ensures ValidFeature(fs[k])
      {
        assert kept[k] in e;
        assert |Positions(kept[k].1)| >= 2;
      }
    } else {
      var i :| 0 <= i < |geometries| && |geometries[i]| == 1;
      assert e[i] in e && NonEmptySegment(e[i]);
      var k :| 0 <= k < |kept| && kept[k] == e[i];
      assert |Positions(kept[k].1)| == 1;
      assert !ValidFeature(fs[k]);
    }
  }

  /** `generate_all_route_geometries`: every line with at least one
      geometry gets the as-written conversion of its geometries, which is
      a valid collection exactly when none of them has a single position. */
  function GenerateAllRouteGeometries(routeGeometries: map<string, seq<seq<Point>>>): (r: map<string, GeoJsonSource>)
    ensures forall l :: l in r <==> l in routeGeometries && |routeGeometries[l]| > 0
    ensures forall l :: l in r ==>
      |r[l].data.features| == CountWhere(Indexed(routeGeometries[l]), NonEmptySegment)
    ensures forall l :: l in r ==>
      (ValidSource(r[l]) <==> forall i :: 0 <= i < |routeGeometries[l]| ==> |routeGeometries[l][i]| != 1)
  {
    var r := map l | l in routeGeometries && |routeGeometries[l]| > 0 :: RouteGeometriesToGeojsonAsWritten(l, routeGeometries[l]);
    forall l | l in r
      ensures ValidSource(r[l]) <==> forall i :: 0 <= i < |routeGeometries[l]| ==> |routeGeometries[l][i]| != 1
    {
      AsWrittenValidExactly(l, routeGeometries[l]);
    }
    r
  }

  /** The same loop over the corrected conversion: every source is valid,
      and it differs from the code only on lines holding a one-position
      geometry. */
  function GenerateAllRouteGeometriesCorrected(routeGeometries: map<string, seq<seq<Point>>>): (r: map<string, GeoJsonSource>)
    ensures r.Keys == GenerateAllRouteGeometries(routeGeometries).Keys
    ensures forall l :: l in r ==> ValidSource(r[l])
    ensures forall l :: l in r && ValidSource(GenerateAllRouteGeometries(routeGeometries)[l]) ==>
      r[l] == GenerateAllRouteGeometries(routeGeometries)[l]
  {
    var r := map l | l in routeGeometries && |routeGeometries[l]| > 0 :: RouteGeometriesToGeojson(l, routeGeometries[l]);
    forall l | l in r && ValidSource(GenerateAllRouteGeometries(routeGeometries)[l])
      ensures r[l] == GenerateAllRouteGeometries(routeGeometries)[l]
    {
      CorrectionAgrees(l, routeGeometries[l]);
    }
    r
  }

  /** After `process_route_geometries` no line is empty, so every processed
      line gets a source. */
  lemma ProcessedLinesAllDrawn(routes: RoutesMap, parse: string -> Option<real>)
    ensures GenerateAllRouteGeometries(ProcessRouteGeometries(routes, parse)).Keys == ProcessRouteGeometries(routes, parse).Keys
  {
  }
}
