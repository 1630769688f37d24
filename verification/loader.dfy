/** The pure data shaping of the map crate's loader
    (map/src/data/loader.rs): dropping stations without usable
    coordinates, grouping platforms by station, merging the rail and bus
    routes files, and extracting route geometry from the line strings the
    routes carry. Fetching and JSON decoding are inputs: a fetch is a
    `Result`, and `str::parse::<f64>` is the parameter `parse`. */
module Loader {
  import opened Common
  import opened Text
  import opened GeoJson

  /** The station fields the map reads. */
  datatype Station = Station(id: string, name: string, fareZones: string, wifi: bool, lat: Float, lon: Float)

  /** The platform fields the map reads. */
  datatype Platform = Platform(stationId: string, line: string)

  /** One route sequence of a line in one direction. */
  datatype RouteSequence = RouteSequence(lineId: string, direction: string, mode: string, lineStrings: seq<string>)

  /** The answer recorded for one line and direction in a routes file. */
  datatype DirectionResponse = DirectionResponse(success: bool, results: seq<RouteSequence>)

  /** An association list: a map whose keys are kept in insertion order. */
  type Assoc<V> = seq<(string, V)>

  /** A routes file: per line, the answer for each direction. Both levels
      are JSON objects, so their keys are distinct. */
  type RoutesFile = Assoc<Assoc<DirectionResponse>>

  /** The merged routes: per line, the route sequences of each direction. */
  type RoutesMap = map<string, Assoc<seq<RouteSequence>>>

  // ---------------------------------------------------------------------
  // filter_valid_stations

  predicate IsNaN(f: Float) {
    f.NaN?
  }

  /** Neither NaN nor zero: `!x.is_nan() && x != 0.0`. */
  predicate UsableCoordinate(f: Float) {
    !IsNaN(f) && f != Num(0.0)
  }

  predicate HasValidCoordinates(s: Station) {
    UsableCoordinate(s.lat) && UsableCoordinate(s.lon)
  }

  /** The stations with usable coordinates, in their original order. */
  function FilterValidStations(stations: seq<Station>): (r: seq<Station>)
    ensures forall i :: 0 <= i < |r| ==> r[i] in stations && r[i].lat.Num? && r[i].lon.Num?
    ensures forall i :: 0 <= i < |r| ==> r[i].lat.value != 0.0 && r[i].lon.value != 0.0
    ensures forall s :: s in stations && HasValidCoordinates(s) ==> s in r
    ensures |r| == CountWhere(stations, HasValidCoordinates)
  {
    FilterHas(stations, HasValidCoordinates);
    Filter(stations, HasValidCoordinates)
  }

  /** Filtering twice is filtering once, and filtering a concatenation
      filters each half in place, so the survivors keep their order. */
  lemma {:induction false} FilterValidStationsIdempotent(stations: seq<Station>)
    ensures FilterValidStations(FilterValidStations(stations)) == FilterValidStations(stations)
    decreases |stations|
  {
    if |stations| > 0 {
      var init := stations[..|stations| - 1];
      var last := stations[|stations| - 1];
      FilterValidStationsIdempotent(init);
      var once := FilterValidStations(init);
      if HasValidCoordinates(last) {
        assert FilterValidStations(stations) == once + [last];
        FilterAppend(once, [last], HasValidCoordinates);
        assert Filter([last], HasValidCoordinates) == [last] by {
          assert [last][..0] == [];
        }
      } else {
        assert FilterValidStations(stations) == once;
      }
    }
  }

  lemma FilterValidStationsAppend(a: seq<Station>, b: seq<Station>)
    ensures FilterValidStations(a + b) == FilterValidStations(a) + FilterValidStations(b)
  {
    FilterAppend(a, b, HasValidCoordinates);
  }

  // ---------------------------------------------------------------------
  // group_platforms_by_station

  predicate AtStation(id: string, p: Platform) {
    p.stationId == id
  }

  function StationIds(platforms: seq<Platform>): set<string> {
    set p | p in platforms :: p.stationId
  }

  /** The platforms of one station, in input order. */
  function PlatformsAt(platforms: seq<Platform>, id: string): (r: seq<Platform>)
    ensures forall q :: q in r ==> q in platforms && AtStation(id, q)
    ensures forall q :: q in platforms && AtStation(id, q) ==> q in r
  {
    if |platforms| == 0 then []
    else
      var init := platforms[..|platforms| - 1];
      var p := platforms[|platforms| - 1];
      assert platforms == init + [p];
      PlatformsAt(init, id) + (if AtStation(id, p) then [p] else [])
  }

  /** Each station's platforms, grouped in one pass over the input. */
  function GroupPlatformsByStation(platforms: seq<Platform>): (m: map<string, seq<Platform>>)
    ensures m.Keys == StationIds(platforms)
  {
    if |platforms| == 0 then map[]
    else
      var init := platforms[..|platforms| - 1];
      var p := platforms[|platforms| - 1];
      var m := GroupPlatformsByStation(init);
      assert platforms == init + [p];
      assert StationIds(platforms) == StationIds(init) + {p.stationId};
      m[p.stationId := (if p.stationId in m then m[p.stationId] else []) + [p]]
  }

  /** Every platform lands under its own station, once, and each group
      keeps the input order: a group is exactly that station's platforms. */
  lemma {:induction false} GroupedByStation(platforms: seq<Platform>, id: string)
    ensures var m := GroupPlatformsByStation(platforms);
            id in m ==> m[id] == PlatformsAt(platforms, id) && |m[id]| > 0
    decreases |platforms|
  {
    if |platforms| > 0 {
      var init := platforms[..|platforms| - 1];
      var p := platforms[|platforms| - 1];
      var m := GroupPlatformsByStation(init);
      GroupedByStation(init, id);
      if id != p.stationId && id in m {
        assert PlatformsAt(platforms, id) == PlatformsAt(init, id);
      } else if id == p.stationId && id !in m {
        NoneAt(init, id);
      }
    }
  }

  lemma NoneAt(platforms: seq<Platform>, id: string)
    requires id !in GroupPlatformsByStation(platforms)
    ensures PlatformsAt(platforms, id) == []
  {
    var r := PlatformsAt(platforms, id);
    assert forall q :: q in r ==> q.stationId in StationIds(platforms);
  }

  // ---------------------------------------------------------------------
  // Association lists

  function Keys<V>(a: Assoc<V>): set<string> {
    set i | 0 <= i < |a| :: a[i].0
  }

  predicate DistinctKeys<V>(a: Assoc<V>) {
    forall i, j :: 0 <= i < j < |a| ==> a[i].0 != a[j].0
  }

  /** The value stored under `k`. */
  function Get<V>(a: Assoc<V>, k: string): (r: Option<V>)
    ensures r.None? <==> k !in Keys(a)
  {
    if |a| == 0 then None
    else if a[0].0 == k then Some(a[0].1)
    else
      var r := Get(a[1..], k);
      assert a == [a[0]] + a[1..];
      KeysCons(a[0], a[1..]);
      r
  }

  lemma KeysCons<V>(x: (string, V), a: Assoc<V>)
    ensures Keys([x] + a) == {x.0} + Keys(a)
  {
    var b := [x] + a;
    forall k | k in Keys(b)
      ensures k in {x.0} + Keys(a)
    {
      var i :| 0 <= i < |b| && b[i].0 == k;
      if i > 0 {
        assert b[i] == a[i - 1];
      }
    }
    forall k | k in Keys(a)
      ensures k in Keys(b)
    {
      var i :| 0 <= i < |a| && a[i].0 == k;
      assert b[i + 1] == a[i];
    }
    assert b[0] == x;
  }

  /** `HashMap::insert`: the value under `k` is replaced in place, or
      appended when `k` is new. */
  function Insert<V>(a: Assoc<V>, k: string, v: V): (r: Assoc<V>)
    ensures Get(r, k) == Some(v)
    ensures forall k' :: k' != k ==> Get(r, k') == Get(a, k')
    ensures Keys(r) == Keys(a) + {k}
    ensures DistinctKeys(a) ==> DistinctKeys(r)
  {
    if |a| == 0 then
      assert Keys([(k, v)]) == {k} by {
        KeysCons((k, v), []);
      }
      [(k, v)]
    else if a[0].0 == k then
      ReplaceHead(a, v);
      [(k, v)] + a[1..]
    else
      var rest := Insert(a[1..], k, v);
      KeepHead(a, k, v, rest);
      [a[0]] + rest
  }

  /** Replacing the value of the first entry changes only that key. */
  lemma ReplaceHead<V>(a: Assoc<V>, v: V)
    requires |a| > 0
    ensures var k, r := a[0].0, [(a[0].0, v)] + a[1..];
            && Get(r, k) == Some(v)
            && (forall k' :: k' != k ==> Get(r, k') == Get(a, k'))
            && Keys(r) == Keys(a) + {k}
            && (DistinctKeys(a) ==> DistinctKeys(r))
  {
    var k, r := a[0].0, [(a[0].0, v)] + a[1..];
    assert r[1..] == a[1..];
    forall k' | k' != k
      ensures Get(r, k') == Get(a, k')
    {
      assert Get(r, k') == Get(r[1..], k');
    }
    assert Keys(r) == Keys(a) + {k} by {
      assert a == [a[0]] + a[1..];
      KeysCons(a[0], a[1..]);
      KeysCons((k, v), a[1..]);
    }
    assert forall i :: 0 <= i < |r| ==> r[i].0 == a[i].0;
  }

  /** Putting back a first entry with another key in front of an insertion
      into the rest is an insertion into the whole. */
  lemma KeepHead<V>(a: Assoc<V>, k: string, v: V, rest: Assoc<V>)
    requires |a| > 0 && a[0].0 != k
    requires Get(rest, k) == Some(v)
    requires forall k' :: k' != k ==> Get(rest, k') == Get(a[1..], k')
    requires Keys(rest) == Keys(a[1..]) + {k}
    requires DistinctKeys(a[1..]) ==> DistinctKeys(rest)
    ensures var r := [a[0]] + rest;
            && Get(r, k) == Some(v)
            && (forall k' :: k' != k ==> Get(r, k') == Get(a, k'))
            && Keys(r) == Keys(a) + {k}
            && (DistinctKeys(a) ==> DistinctKeys(r))
  {
    KeepHeadGet(a, k, rest);
    KeepHeadKeys(a, k, rest);
    if DistinctKeys(a) {
      KeepHeadDistinct(a, k, rest);
    }
  }

  lemma KeepHeadGet<V>(a: Assoc<V>, k: string, rest: Assoc<V>)
    requires |a| > 0 && a[0].0 != k
    requires forall k' :: k' != k ==> Get(rest, k') == Get(a[1..], k')
    ensures var r := [a[0]] + rest;
            && Get(r, k) == Get(rest, k)
            && forall k' :: k' != k ==> Get(r, k') == Get(a, k')
  {
    var r := [a[0]] + rest;
    assert r[1..] == rest;
    forall k' | k' != k
      ensures Get(r, k') == Get(a, k')
    {
      if k' != a[0].0 {
        assert Get(r, k') == Get(rest, k');
        assert Get(a, k') == Get(a[1..], k');
      }
    }
  }

  lemma KeepHeadKeys<V>(a: Assoc<V>, k: string, rest: Assoc<V>)
    requires |a| > 0
    requires Keys(rest) == Keys(a[1..]) + {k}
    ensures Keys([a[0]] + rest) == Keys(a) + {k}
  {
    assert a == [a[0]] + a[1..];
    KeysCons(a[0], a[1..]);
    KeysCons(a[0], rest);
  }

  lemma KeepHeadDistinct<V>(a: Assoc<V>, k: string, rest: Assoc<V>)
    requires |a| > 0 && a[0].0 != k
    requires DistinctKeys(a) && DistinctKeys(rest)
    requires Keys(rest) == Keys(a[1..]) + {k}
    ensures DistinctKeys([a[0]] + rest)
  {
    var r := [a[0]] + rest;
    forall i, j | 0 <= i < j < |r|
      ensures r[i].0 != r[j].0
    {
      if i == 0 {
        assert r[j] == rest[j - 1];
        assert r[j].0 in Keys(rest);
        if r[j].0 != k {
          var m :| 0 <= m < |a[1..]| && a[1..][m].0 == r[j].0;
          assert a[m + 1].0 == r[j].0;
        }
      } else {
        assert r[i] == rest[i - 1] && r[j] == rest[j - 1];
      }
    }
  }

  // ---------------------------------------------------------------------
  // The routes-file merge (the `process_routes` closure)

  /** The results of the successful answer for direction `d`, if any. */
  function SuccessFor(responses: Assoc<DirectionResponse>, d: string): Option<seq<RouteSequence>> {
    if |responses| == 0 then None
    else if responses[0].0 == d && responses[0].1.success then Some(responses[0].1.results)
    else SuccessFor(responses[1..], d)
  }

  /** One line's directions after a file's answers for it: each successful
      answer is inserted, overwriting; unsuccessful ones are skipped. */
  function MergeDirections(existing: Assoc<seq<RouteSequence>>, responses: Assoc<DirectionResponse>): (r: Assoc<seq<RouteSequence>>)
    ensures DistinctKeys(existing) ==> DistinctKeys(r)
  {
    if |responses| == 0 then existing
    else
      var m := MergeDirections(existing, responses[..|responses| - 1]);
      var last := responses[|responses| - 1];
      if last.1.success then Insert(m, last.0, last.1.results) else m
  }

  /** A direction's routes come from the file when it answered that
      direction successfully, and are kept from before otherwise. */
  lemma {:induction false} MergeDirectionsLookup(existing: Assoc<seq<RouteSequence>>, responses: Assoc<DirectionResponse>, d: string)
    requires DistinctKeys(responses)
    ensures Get(MergeDirections(existing, responses), d) ==
              if SuccessFor(responses, d).Some? then SuccessFor(responses, d) else Get(existing, d)
    decreases |responses|
  {
    if |responses| > 0 {
      var init := responses[..|responses| - 1];
      var last := responses[|responses| - 1];
      assert responses == init + [last];
      MergeDirectionsLookup(existing, init, d);
      SuccessForSnoc(init, last, d);
    }
  }

  lemma {:induction false} SuccessForSnoc(init: Assoc<DirectionResponse>, last: (string, DirectionResponse), d: string)
    requires DistinctKeys(init + [last])
    ensures SuccessFor(init + [last], d) ==
              if last.0 == d && last.1.success then Some(last.1.results)
              else if last.0 == d then None
              else SuccessFor(init, d)
    ensures last.0 == d ==> SuccessFor(init, d).None?
    decreases |init|
  {
    var s := init + [last];
    if |init| == 0 {
      assert s == [last];
      assert s[1..] == [];
    } else {
      assert s[1..] == init[1..] + [last];
      assert init[0].0 != last.0 by {
        assert s[0] == init[0] && s[|s| - 1] == last;
      }
      assert DistinctKeys(init[1..] + [last]) by {
        forall i, j | 0 <= i < j < |init[1..] + [last]|
          ensures (init[1..] + [last])[i].0 != (init[1..] + [last])[j].0
        {
          assert (init[1..] + [last])[i] == s[i + 1];
          assert (init[1..] + [last])[j] == s[j + 1];
        }
      }
      SuccessForSnoc(init[1..], last, d);
    }
  }

  function LineIds(file: RoutesFile): set<string> {
    Keys(file)
  }

  predicate WellFormedFile(file: RoutesFile) {
    && DistinctKeys(file)
    && forall i :: 0 <= i < |file| ==> DistinctKeys(file[i].1)
  }

  function Existing(routes: RoutesMap, lineId: string): Assoc<seq<RouteSequence>> {
    if lineId in routes then routes[lineId] else []
  }

  /** Applies one routes file to the merged map: every line of the file
      gets an entry, even when none of its directions succeeded, and the
      lines the file does not mention are untouched. */
  function ProcessRoutes(file: RoutesFile, routes: RoutesMap): (r: RoutesMap)
    ensures r.Keys == routes.Keys + LineIds(file)
    ensures forall l :: l in routes && l !in LineIds(file) ==> r[l] == routes[l]
  {
    if |file| == 0 then routes
    else
      var init := file[..|file| - 1];
      var last := file[|file| - 1];
      var m := ProcessRoutes(init, routes);
      assert Keys(file) == Keys(init) + {last.0} by {
        assert file == init + [last];
      }
      m[last.0 := MergeDirections(Existing(m, last.0), last.1)]
  }

  /** Each line of the file holds its existing directions merged with the
      file's answers for it. */
  lemma {:induction false} ProcessRoutesLine(file: RoutesFile, routes: RoutesMap, i: nat)
    requires WellFormedFile(file) && i < |file|
    ensures ProcessRoutes(file, routes)[file[i].0] == MergeDirections(Existing(routes, file[i].0), file[i].1)
    decreases |file|
  {
    var init := file[..|file| - 1];
    if i < |file| - 1 {
      assert WellFormedFile(init);
      ProcessRoutesLine(init, routes, i);
      ProcessRoutesEarlier(file, routes, i);
    } else {
      ProcessRoutesLast(file, routes);
    }
  }

  /** A line before the last one is not touched by the last one. */
  lemma ProcessRoutesEarlier(file: RoutesFile, routes: RoutesMap, i: nat)
    requires DistinctKeys(file) && i < |file| - 1
    ensures var init := file[..|file| - 1];
            file[i] == init[i] && file[i].0 in ProcessRoutes(init, routes)
            && ProcessRoutes(file, routes)[file[i].0] == ProcessRoutes(init, routes)[file[i].0]
  {
    var init := file[..|file| - 1];
    assert file[i] == init[i];
    assert file[i].0 != file[|file| - 1].0;
    assert file[i].0 in Keys(init);
  }

  /** The last line merges into what the map held before the file. */
  lemma ProcessRoutesLast(file: RoutesFile, routes: RoutesMap)
    requires DistinctKeys(file) && |file| > 0
    ensures var l := file[|file| - 1];
            ProcessRoutes(file, routes)[l.0] == MergeDirections(Existing(routes, l.0), l.1)
  {
    var init := file[..|file| - 1];
    var l := file[|file| - 1];
    var m := ProcessRoutes(init, routes);
    assert l.0 !in Keys(init) by {
      forall j | 0 <= j < |init|
        ensures init[j].0 != l.0
      {
        assert init[j] == file[j];
      }
    }
    assert Existing(m, l.0) == Existing(routes, l.0);
  }

  /** `load_routes`: the rail file is required, its failure is the result;
      the bus file is consulted only when buses are requested, and a bus
      failure leaves the rail routes as they are. */
  function LoadRoutes(rail: Result<RoutesFile>, loadBuses: bool, bus: Result<RoutesFile>): (r: Result<RoutesMap>)
    ensures rail.Err? <==> r.Err?
    ensures rail.Err? ==> r == Err(rail.message)
    ensures r.Ok? ==> r.value.Keys == LineIds(rail.value) + (if loadBuses && bus.Ok? then LineIds(bus.value) else {})
  {
    match rail
    case Err(e) => Err(e)
    case Ok(railFile) =>
      var m := ProcessRoutes(railFile, map[]);
      if loadBuses && bus.Ok? then Ok(ProcessRoutes(bus.value, m)) else Ok(m)
  }

  /** Without buses requested the bus file plays no part. */
  lemma BusFileUnusedUnlessRequested(rail: Result<RoutesFile>, bus1: Result<RoutesFile>, bus2: Result<RoutesFile>)
    ensures LoadRoutes(rail, false, bus1) == LoadRoutes(rail, false, bus2)
    ensures LoadRoutes(rail, true, Err("x")) == LoadRoutes(rail, false, bus1)
  {
  }

  /** With both files loaded, a direction the bus file answers successfully
      takes the bus routes; any other direction keeps the rail routes. */
  lemma BusOverridesRail(railFile: RoutesFile, busFile: RoutesFile, i: nat, d: string)
    requires WellFormedFile(railFile) && WellFormedFile(busFile) && i < |busFile|
    ensures var r := LoadRoutes(Ok(railFile), true, Ok(busFile)).value;
            var l := busFile[i].0;
            && (SuccessFor(busFile[i].1, d).Some? ==> Get(r[l], d) == SuccessFor(busFile[i].1, d))
            && (SuccessFor(busFile[i].1, d).None? && l in LineIds(railFile) ==>
                  Get(r[l], d) == Get(ProcessRoutes(railFile, map[])[l], d))
  {
    var m := ProcessRoutes(railFile, map[]);
    var l := busFile[i].0;
    ProcessRoutesLine(busFile, m, i);
    MergeDirectionsLookup(Existing(m, l), busFile[i].1, d);
  }

  // ---------------------------------------------------------------------
  // parse_line_string

  /** `str::trim_start_matches(c)`: every leading `c` removed. */
  function TrimStartMatches(s: string, c: char): string {
    if |s| > 0 && s[0] == c then TrimStartMatches(s[1..], c) else s
  }

  /** What is left is a suffix that does not start with `c`, and what went
      was all `c`. */
  lemma {:induction false} TrimStartMatchesSuffix(s: string, c: char)
    ensures var r := TrimStartMatches(s, c);
            && |r| <= |s| && r == s[|s| - |r|..]
            && (forall i :: 0 <= i < |s| - |r| ==> s[i] == c)
            && (|r| > 0 ==> r[0] != c)
  {
    if |s| > 0 && s[0] == c {
      TrimStartMatchesSuffix(s[1..], c);
    }
  }

  /** `str::trim_end_matches(c)`: every trailing `c` removed. */
  function TrimEndMatches(s: string, c: char): string {
    if |s| > 0 && s[|s| - 1] == c then TrimEndMatches(s[..|s| - 1], c) else s
  }

  /** What is left is a prefix that does not end with `c`, and what went
      was all `c`. */
  lemma {:induction false} TrimEndMatchesPrefix(s: string, c: char)
    ensures var r := TrimEndMatches(s, c);
            && |r| <= |s| && r == s[..|r|]
            && (forall i :: |r| <= i < |s| ==> s[i] == c)
            && (|r| > 0 ==> r[|r| - 1] != c)
  {
    if |s| > 0 && s[|s| - 1] == c {
      TrimEndMatchesPrefix(s[..|s| - 1], c);
    }
  }

  const PairSeparator := "],["
  const NoCoordinates := "Failed to parse any coordinates from LineString"

  /** The text between the outer brackets, cut at each "],[". */
  function LineStringParts(lineString: string): (parts: seq<string>)
    ensures |parts| >= 1
  {
    SplitOn(TrimEndMatches(TrimStartMatches(Trim(lineString), '['), ']'), PairSeparator)
  }

  /** One "lon,lat" part: brackets stripped, exactly two comma-separated
      fields, both numbers. */
  function ParsePart(part: string, parse: string -> Option<real>): Option<Point> {
    var fields := Split(TrimEndMatches(TrimStartMatches(part, '['), ']'), ',');
    if |fields| == 2 && parse(fields[0]).Some? && parse(fields[1]).Some? then
      Some(Point(parse(fields[0]).value, parse(fields[1]).value))
    else None
  }

  function PartParser(parse: string -> Option<real>): string -> Option<Point> {
    part => ParsePart(part, parse)
  }

  /** `parse_line_string`: the coordinates ([lon, lat] as Point(x, y)) of
      every part that parses, in order, or an error when none does. */
  function ParseLineString(lineString: string, parse: string -> Option<real>): (r: Result<seq<Point>>)
    ensures r.Err? ==> r.message == NoCoordinates
    ensures r.Ok? ==> 0 < |r.value| <= |LineStringParts(lineString)|
  {
    var coords := FilterMap(LineStringParts(lineString), PartParser(parse));
    if |coords| == 0 then Err(NoCoordinates) else Ok(coords)
  }

  /** The error case is exactly the line string none of whose parts holds
      two numeric fields; a part that fails is skipped, not fatal, and every
      coordinate comes from one of the parts. */
  lemma ParseLineStringFails(lineString: string, parse: string -> Option<real>)
    ensures var parts := LineStringParts(lineString);
            ParseLineString(lineString, parse).Err? <==> forall i :: 0 <= i < |parts| ==> ParsePart(parts[i], parse).None?
    ensures var r := ParseLineString(lineString, parse);
            var parts := LineStringParts(lineString);
            r.Ok? ==> forall p :: p in r.value ==> exists i :: 0 <= i < |parts| && ParsePart(parts[i], parse) == Some(p)
  {
    var parts := LineStringParts(lineString);
    var f := PartParser(parse);
    FilterMapEmpty(parts, f);
    forall p | p in FilterMap(parts, f)
      ensures exists i :: 0 <= i < |parts| && ParsePart(parts[i], parse) == Some(p)
    {
      FilterMapFrom(parts, f, p);
    }
  }

  /** A number printer whose output the parser reads back, and which uses
      none of the characters the line-string syntax reserves. */
  predicate Printable(show: real -> string, parse: string -> Option<real>, x: real) {
    parse(show(x)) == Some(x) && ',' !in show(x) && '[' !in show(x) && ']' !in show(x)
  }

  function ShowPair(p: Point, show: real -> string): string {
    show(p.x) + "," + show(p.y)
  }

  function ShowPairs(coords: seq<Point>, show: real -> string): (pairs: seq<string>)
    ensures |pairs| == |coords|
  {
    seq(|coords|, i requires 0 <= i < |coords| => ShowPair(coords[i], show))
  }

  /** The TfL rendering: "[[[" then the "lon,lat" pairs joined by "],["
      then "]]]". */
  function RenderLineString(coords: seq<Point>, show: real -> string): string {
    "[[[" + Join(ShowPairs(coords, show), PairSeparator) + "]]]"
  }

  /** Parsing a rendered line string gives back its coordinates. */
  lemma LineStringRoundTrip(coords: seq<Point>, show: real -> string, parse: string -> Option<real>)
    requires |coords| > 0
    requires forall i :: 0 <= i < |coords| ==> Printable(show, parse, coords[i].x) && Printable(show, parse, coords[i].y)
    ensures ParseLineString(RenderLineString(coords, show), parse) == Ok(coords)
  {
    var pairs := ShowPairs(coords, show);
    forall i | 0 <= i < |pairs|
      ensures |pairs[i]| > 0 && pairs[i][0] != '[' && pairs[i][|pairs[i]| - 1] != ']' && ']' !in pairs[i]
    {
      PairShape(coords[i], show, parse);
    }
    RenderedParts(pairs);
    forall i | 0 <= i < |pairs|
      ensures PartParser(parse)(pairs[i]) == Some(coords[i])
    {
      PairParses(coords[i], show, parse);
    }
    FilterMapAll(pairs, PartParser(parse), coords);
  }

  /** The outer brackets of a rendering come off and the "],[" cuts give
      back the pairs. */
  lemma RenderedParts(pairs: seq<string>)
    requires |pairs| > 0
    requires forall i :: 0 <= i < |pairs| ==>
               |pairs[i]| > 0 && pairs[i][0] != '[' && pairs[i][|pairs[i]| - 1] != ']' && ']' !in pairs[i]
    ensures LineStringParts("[[[" + Join(pairs, PairSeparator) + "]]]") == pairs
  {
    var body := Join(pairs, PairSeparator);
    JoinEnds(pairs, PairSeparator);
    StripOuter(body);
    JoinSplitOn(pairs, PairSeparator);
  }

  /** Trimming white space leaves a bracketed text alone, and trimming the
      brackets leaves what was inside them. */
  lemma StripOuter(body: string)
    requires |body| > 0 && body[0] != '[' && body[|body| - 1] != ']'
    ensures TrimEndMatches(TrimStartMatches(Trim("[[[" + body + "]]]"), '['), ']') == body
  {
    var s := "[[[" + body + "]]]";
    assert s[0] == '[' && s[|s| - 1] == ']';
    TrimIdentity(s);
    var t := body + "]]]";
    assert s == "[[[" + t;
    StripLeading("[[[", t, '[');
    StripTrailing(body, "]]]", ']');
  }

  lemma {:induction false} StripLeading(run: string, x: string, c: char)
    requires forall i :: 0 <= i < |run| ==> run[i] == c
    requires |x| > 0 && x[0] != c
    ensures TrimStartMatches(run + x, c) == x
    decreases |run|
  {
    if |run| == 0 {
      assert run + x == x;
    } else {
      assert (run + x)[1..] == run[1..] + x;
      StripLeading(run[1..], x, c);
    }
  }

  lemma {:induction false} StripTrailing(x: string, run: string, c: char)
    requires forall i :: 0 <= i < |run| ==> run[i] == c
    requires |x| > 0 && x[|x| - 1] != c
    ensures TrimEndMatches(x + run, c) == x
    decreases |run|
  {
    if |run| == 0 {
      assert x + run == x;
    } else {
      assert (x + run)[..|x + run| - 1] == x + run[..|run| - 1];
      StripTrailing(x, run[..|run| - 1], c);
    }
  }

  lemma PairShape(p: Point, show: real -> string, parse: string -> Option<real>)
    requires Printable(show, parse, p.x) && Printable(show, parse, p.y)
    ensures var s := ShowPair(p, show);
            |s| > 0 && s[0] != '[' && s[|s| - 1] != ']' && ']' !in s
  {
    var a := show(p.x);
    var b := show(p.y);
    var s := a + "," + b;
    assert s[0] != '[' by {
      if |a| > 0 { assert s[0] == a[0]; } else { assert s[0] == ','; }
    }
    assert s[|s| - 1] != ']' by {
      if |b| > 0 { assert s[|s| - 1] == b[|b| - 1]; } else { assert s[|s| - 1] == ','; }
    }
  }

  lemma PairParses(p: Point, show: real -> string, parse: string -> Option<real>)
    requires Printable(show, parse, p.x) && Printable(show, parse, p.y)
    ensures ParsePart(ShowPair(p, show), parse) == Some(p)
  {
    var a := show(p.x);
    var b := show(p.y);
    var s := a + "," + b;
    PairShape(p, show, parse);
    assert TrimStartMatches(s, '[') == s;
    assert TrimEndMatches(s, ']') == s;
    assert Join([a, b], [',']) == s;
    JoinSplit([a, b], ',');
  }

  /** The first character of a join is that of its first piece and the
      last character that of its last piece, when pieces are non-empty. */
  lemma {:induction false} JoinEnds(parts: seq<string>, sep: string)
    requires |parts| > 0 && forall i :: 0 <= i < |parts| ==> |parts[i]| > 0
    ensures var j := Join(parts, sep);
            |j| > 0 && j[0] == parts[0][0] && j[|j| - 1] == parts[|parts| - 1][|parts[|parts| - 1]| - 1]
    decreases |parts|
  {
    if |parts| > 1 {
      JoinEnds(parts[1..], sep);
    }
  }

  /** Splitting a join on its separator gives back the pieces when no piece
      contains the separator's first character. */
  lemma {:induction false} JoinSplitOn(parts: seq<string>, pat: string)
    requires |parts| > 0 && |pat| > 0
    requires forall i :: 0 <= i < |parts| ==> pat[0] !in parts[i]
    ensures SplitOn(Join(parts, pat), pat) == parts
    decreases |parts|
  {
    var j := Join(parts, pat);
    var p := parts[0];
    forall k: nat | k < |p|
      ensures !At(j, pat, k)
    {
      AtFirstChar(j, pat, k);
      assert j[k] == p[k] by {
        if |parts| > 1 {
          assert j == p + pat + Join(parts[1..], pat);
        }
      }
      assert p[k] in p;
    }
    if |parts| == 1 {
      forall k: nat
        ensures !At(j, pat, k)
      {
        AtFirstChar(j, pat, k);
      }
    } else {
      var rest := Join(parts[1..], pat);
      assert j == p + pat + rest;
      assert At(j, pat, |p|) by {
        assert j[|p|..|p| + |pat|] == pat;
      }
      IndexOfAt(j, pat, |p|);
      assert j[|p| + |pat|..] == rest;
      assert j[..|p|] == p;
      JoinSplitOn(parts[1..], pat);
    }
  }

  lemma AtFirstChar(s: string, pat: string, k: nat)
    requires |pat| > 0
    ensures At(s, pat, k) ==> s[k] == pat[0]
  {
    if At(s, pat, k) {
      assert s[k..k + |pat|][0] == s[k];
    }
  }

  /** The first occurrence found from 0 is the first position where the
      pattern occurs. */
  lemma IndexOfAt(s: string, pat: string, k: nat)
    requires At(s, pat, k)
    requires forall i: nat :: i < k ==> !At(s, pat, i)
    ensures IndexOf(s, pat, 0) == Some(k)
  {
  }

  // ---------------------------------------------------------------------
  // process_route_geometries

  /** `parse_line_string` seen as a partial function: its coordinates, or
      nothing on error. */
  function LineStringCoordinates(parse: string -> Option<real>): string -> Option<seq<Point>> {
    s => var r := ParseLineString(s, parse); if r.Ok? then Some(r.value) else None
  }

  /** A line-string reader that never yields an empty coordinate list. */
  ghost predicate NonEmptyResults(reader: string -> Option<seq<Point>>) {
    forall s :: reader(s).Some? ==> |reader(s).value| > 0
  }

  lemma LineStringCoordinatesNonEmpty(parse: string -> Option<real>)
    ensures NonEmptyResults(LineStringCoordinates(parse))
  {
  }

  /** The geometries of a direction's route sequences, in order: every line
      string of every sequence that reads. */
  function ParsedSequences(sequences: seq<RouteSequence>, reader: string -> Option<seq<Point>>): seq<seq<Point>> {
    if |sequences| == 0 then []
    else ParsedSequences(sequences[..|sequences| - 1], reader) + FilterMap(sequences[|sequences| - 1].lineStrings, reader)
  }

  predicate AnyStringReads(strings: seq<string>, reader: string -> Option<seq<Point>>) {
    exists k :: 0 <= k < |strings| && reader(strings[k]).Some?
  }

  predicate AnySequenceReads(sequences: seq<RouteSequence>, reader: string -> Option<seq<Point>>) {
    exists j :: 0 <= j < |sequences| && AnyStringReads(sequences[j].lineStrings, reader)
  }

  lemma FilterMapSome(strings: seq<string>, reader: string -> Option<seq<Point>>)
    ensures |FilterMap(strings, reader)| > 0 <==> AnyStringReads(strings, reader)
  {
    FilterMapEmpty(strings, reader);
  }

  lemma {:induction false} ParsedSequencesSome(sequences: seq<RouteSequence>, reader: string -> Option<seq<Point>>)
    ensures |ParsedSequences(sequences, reader)| > 0 <==> AnySequenceReads(sequences, reader)
    decreases |sequences|
  {
    if |sequences| > 0 {
      var init := sequences[..|sequences| - 1];
      var last := sequences[|sequences| - 1];
      ParsedSequencesSome(init, reader);
      FilterMapSome(last.lineStrings, reader);
      if AnySequenceReads(init, reader) {
        var j :| 0 <= j < |init| && AnyStringReads(init[j].lineStrings, reader);
        assert sequences[j] == init[j];
      }
      if AnySequenceReads(sequences, reader) && !AnyStringReads(last.lineStrings, reader) {
        var j :| 0 <= j < |sequences| && AnyStringReads(sequences[j].lineStrings, reader);
        assert init[j] == sequences[j];
      }
    }
  }

  /** A line's geometries over all its directions, in direction order. */
  function LineGeometries(directions: Assoc<seq<RouteSequence>>, reader: string -> Option<seq<Point>>): seq<seq<Point>> {
    if |directions| == 0 then []
    else LineGeometries(directions[..|directions| - 1], reader) + ParsedSequences(directions[|directions| - 1].1, reader)
  }

  predicate AnyDirectionReads(directions: Assoc<seq<RouteSequence>>, reader: string -> Option<seq<Point>>) {
    exists i :: 0 <= i < |directions| && AnySequenceReads(directions[i].1, reader)
  }

  lemma {:induction false} LineGeometriesSome(directions: Assoc<seq<RouteSequence>>, reader: string -> Option<seq<Point>>)
    ensures |LineGeometries(directions, reader)| > 0 <==> AnyDirectionReads(directions, reader)
    decreases |directions|
  {
    if |directions| > 0 {
      var init := directions[..|directions| - 1];
      var last := directions[|directions| - 1];
      LineGeometriesSome(init, reader);
      ParsedSequencesSome(last.1, reader);
      if AnyDirectionReads(init, reader) {
        var i :| 0 <= i < |init| && AnySequenceReads(init[i].1, reader);
        assert directions[i] == init[i];
      }
      if AnyDirectionReads(directions, reader) && !AnySequenceReads(last.1, reader) {
        var i :| 0 <= i < |directions| && AnySequenceReads(directions[i].1, reader);
        assert init[i] == directions[i];
      }
    }
  }

  /** No geometry a reader without empty results produces is empty. */
  lemma {:induction false} LineGeometriesNonEmpty(directions: Assoc<seq<RouteSequence>>, reader: string -> Option<seq<Point>>)
    requires NonEmptyResults(reader)
    ensures forall g :: g in LineGeometries(directions, reader) ==> |g| > 0
    decreases |directions|
  {
    if |directions| > 0 {
      LineGeometriesNonEmpty(directions[..|directions| - 1], reader);
      SequencesNonEmpty(directions[|directions| - 1].1, reader);
    }
  }

  lemma {:induction false} SequencesNonEmpty(sequences: seq<RouteSequence>, reader: string -> Option<seq<Point>>)
    requires NonEmptyResults(reader)
    ensures forall g :: g in ParsedSequences(sequences, reader) ==> |g| > 0
    decreases |sequences|
  {
    if |sequences| > 0 {
      SequencesNonEmpty(sequences[..|sequences| - 1], reader);
      forall g | g in FilterMap(sequences[|sequences| - 1].lineStrings, reader)
        ensures |g| > 0
      {
        FilterMapFrom(sequences[|sequences| - 1].lineStrings, reader, g);
      }
    }
  }

  /** `process_route_geometries`: per line, the coordinates of every line
      string that parses, over all directions and sequences. */
  function ProcessRouteGeometries(routes: RoutesMap, parse: string -> Option<real>): (g: map<string, seq<seq<Point>>>)
    ensures forall l :: l in g ==> l in routes && |g[l]| > 0
  {
    map l | l in routes && |LineGeometries(routes[l], LineStringCoordinates(parse))| > 0 ::
      LineGeometries(routes[l], LineStringCoordinates(parse))
  }

  /** A line is kept exactly when one of its line strings parses, and none
      of its geometries is empty. */
  lemma ProcessRouteGeometriesLines(routes: RoutesMap, parse: string -> Option<real>, l: string)
    ensures var g := ProcessRouteGeometries(routes, parse);
            l in g <==> l in routes && AnyDirectionReads(routes[l], LineStringCoordinates(parse))
    ensures var g := ProcessRouteGeometries(routes, parse);
            l in g ==> forall s :: s in g[l] ==> |s| > 0
  {
    if l in routes {
      LineGeometriesSome(routes[l], LineStringCoordinates(parse));
      LineStringCoordinatesNonEmpty(parse);
      LineGeometriesNonEmpty(routes[l], LineStringCoordinates(parse));
    }
  }
}
