/** Route catalogues of the canvas simulation (sim/src/model/route_builder.rs):
    the TSV reader for real route endpoints, the real train and bus routes
    built from its rows, and the synthetic London-like train and bus
    networks used in debug mode.

    Every builder projects with the London-centred projection onto a
    1000 x 1000 canvas and reads `Math::random` from the stream `rng`,
    starting at `cursor`; each returns the cursor after the last value it
    read. Sine, cosine and pi are inputs (`Trig`); the number parser is an
    input of the row reader. Only the structure of the generated routes is
    specified: how many, how many stations, where they start and end. */
module RouteBuilder {
  import opened Common
  import opened Text
  import opened Geo
  import opened SimVehicle

  const CanvasWidth: real := 1000.0
  const CanvasHeight: real := 1000.0

  /** The trigonometry the generators use, taken as given. */
  datatype Trig = Trig(pi: real, sin: real -> real, cos: real -> real)

  /** A projected London coordinate: the cosine of the centre latitude is
      `cos(51.5 * pi / 180)`, as `project` computes it. */
  function London(trig: Trig, q: LatLng): Point {
    var p := LondonCentered(CanvasWidth, CanvasHeight);
    Project(p, trig.cos(p.centerLat * trig.pi / 180.0), q.lat, q.lng)
  }

  /** Central London (Oxford Circus), where radial routes start. */
  const Central: LatLng := LatLng(51.51, -0.12)

  /** `f as usize` for a finite float: negative values saturate at 0, the
      rest are truncated. */
  function AsUsize(x: real): nat {
    if x < 0.0 then 0 else x.Floor
  }

  /** `(random * k) as usize` for a random value in [0,1) lies in [0, k). */
  lemma {:induction false} ScaledDraw(r: real, k: nat)
    requires 0.0 <= r < 1.0 && k > 0
    ensures AsUsize(r * (k as real)) < k
  {
    var x := r * (k as real);
    assert x < k as real by {
      assert r * (k as real) < 1.0 * (k as real);
    }
    assert x.Floor as real <= x;
  }

  // ----- TSV rows -----

  /** One TSV row: route name, start name, start coordinate, end name, end
      coordinate. */
  datatype TsvRow = TsvRow(name: string, startName: string, start: LatLng, endName: string, end: LatLng)

  /** A line becomes a row when it has at least five tab-separated fields
      and both coordinate fields parse; extra fields are ignored. */
  function RowOf(line: string, parse: string -> Option<real>): Option<TsvRow> {
    var fields := Split(line, '\t');
    if |fields| < 5 then None
    else
      match ParseCoordinate(fields[2], parse)
      case Err(_) => None
      case Ok(start) =>
        match ParseCoordinate(fields[4], parse)
        case Err(_) => None
        case Ok(end) => Some(TsvRow(fields[0], fields[1], start, fields[3], end))
  }

  /** The rows of the accepted lines, in order. */
  function ParseRows(lines: seq<string>, parse: string -> Option<real>): (rows: seq<TsvRow>)
    ensures |rows| <= |lines|
  {
    if |lines| == 0 then []
    else
      ParseRows(lines[..|lines| - 1], parse)
        + (match RowOf(lines[|lines| - 1], parse) case None => [] case Some(r) => [r])
  }

  /** `parse_tsv_data`: the header line is skipped, then every accepted line
      yields its row. */
  function ParseTsvData(content: string, parse: string -> Option<real>): seq<TsvRow> {
    var lines := Lines(content);
    if |lines| == 0 then [] else ParseRows(lines[1..], parse)
  }

  /** Reading lines one after the other: the rows of a concatenation are the
      rows of each part. */
  lemma {:induction false} ParseRowsAppend(a: seq<string>, b: seq<string>, parse: string -> Option<real>)
    ensures ParseRows(a + b, parse) == ParseRows(a, parse) + ParseRows(b, parse)
    decreases |b|
  {
    if |b| == 0 {
      assert a + b == a;
    } else {
      assert (a + b)[..|a + b| - 1] == a + b[..|b| - 1];
      ParseRowsAppend(a, b[..|b| - 1], parse);
    }
  }

  /** One line yields its row exactly when it is accepted, so rows come
      out in input order and the rejected lines are dropped. */
  lemma ParseRowsSingle(line: string, parse: string -> Option<real>)
    ensures ParseRows([line], parse) == match RowOf(line, parse) case None => [] case Some(r) => [r]
  {
    assert [line][..0] == [];
  }

  /** A header followed by data lines reads as the rows of the data lines;
      the header is never read as data. */
  lemma ParseTsvSkipsHeader(header: string, lines: seq<string>, parse: string -> Option<real>)
    requires forall i :: 0 <= i < |lines| ==> '\n' !in lines[i] && (|lines[i]| == 0 || lines[i][|lines[i]| - 1] != '\r')
    requires '\n' !in header && (|header| == 0 || header[|header| - 1] != '\r')
    ensures ParseTsvData(Unlines([header] + lines), parse) == ParseRows(lines, parse)
  {
    var all := [header] + lines;
    forall i | 0 <= i < |all|
      ensures '\n' !in all[i] && (|all[i]| == 0 || all[i][|all[i]| - 1] != '\r')
    {
      if i > 0 {
        assert all[i] == lines[i - 1];
      }
    }
    LinesUnlines(all);
    assert all[1..] == lines;
  }

  /** A line of fewer than five fields (fewer than four tabs) is dropped. */
  lemma ShortLineDropped(line: string, parse: string -> Option<real>)
    requires Occurrences(line, '\t') < 4
    ensures RowOf(line, parse).None?
  {
    SplitCount(line, '\t');
  }

  /** Tab-free fields joined by tabs: with at least five of them, the line
      gives the row of fields 0 to 4 (the rest are ignored) provided both
      coordinates parse; otherwise it is dropped. */
  lemma RowOfFields(fields: seq<string>, parse: string -> Option<real>)
    requires |fields| >= 5
    requires forall i :: 0 <= i < |fields| ==> '\t' !in fields[i]
    ensures var s := ParseCoordinate(fields[2], parse);
            var e := ParseCoordinate(fields[4], parse);
            RowOf(Join(fields, "\t"), parse)
              == if s.Ok? && e.Ok? then Some(TsvRow(fields[0], fields[1], s.value, fields[3], e.value)) else None
  {
    JoinSplit(fields, '\t');
  }

  // ----- generation over a sequence of items -----

  /** Build one route per item, in order, each generator call continuing
      the random stream where the previous one stopped. */
  function GenerateOver<T>(items: seq<T>, gen: (T, nat) -> (Route, nat), cursor: nat): (r: (seq<Route>, nat))
    ensures |r.0| == |items|
  {
    if |items| == 0 then ([], cursor)
    else
      var first := gen(items[0], cursor);
      var rest := GenerateOver(items[1..], gen, first.1);
      ([first.0] + rest.0, rest.1)
  }

  /** A property every generated route has, whatever the cursor, holds for
      every route of the catalogue. */
  lemma {:induction false} GenerateOverAll<T>(items: seq<T>, gen: (T, nat) -> (Route, nat), cursor: nat, P: Route -> bool)
    requires forall k, c: nat :: 0 <= k < |items| ==> P(gen(items[k], c).0)
    ensures forall i :: 0 <= i < |items| ==> P(GenerateOver(items, gen, cursor).0[i])
    decreases |items|
  {
    if |items| > 0 {
      var first := gen(items[0], cursor);
      var tail := items[1..];
      assert forall k, c: nat :: 0 <= k < |tail| ==> P(gen(tail[k], c).0) by {
        forall k, c: nat | 0 <= k < |tail|
          ensures P(gen(tail[k], c).0)
        {
          assert tail[k] == items[k + 1];
        }
      }
      GenerateOverAll(tail, gen, first.1, P);
      var all := GenerateOver(items, gen, cursor).0;
      assert all == [first.0] + GenerateOver(tail, gen, first.1).0;
      forall i | 0 <= i < |items|
        ensures P(all[i])
      {
        if i > 0 {
          assert all[i] == GenerateOver(tail, gen, first.1).0[i - 1];
        }
      }
    }
  }

  /** `n` routes of the given kind of generator, items 0..n-1. */
  function Indices(n: nat): (s: seq<nat>)
    ensures |s| == n && forall i :: 0 <= i < n ==> s[i] == i
  {
    seq(n, i requires 0 <= i < n => i)
  }

  // ----- real routes -----

  /** One real train route: 3 intermediate points, randomness 0.2. */
  function RealTrainRoute(trig: Trig, rng: nat -> real, row: TsvRow, cursor: nat): (Route, nat) {
    (Route(GenerateRoutePath(London(trig, row.start), London(trig, row.end), 3, 0.2, rng, cursor)), cursor + PathDraws(3))
  }

  /** One real bus route: `5 + floor(5 r)` intermediate points, randomness 0.3. */
  function RealBusRoute(trig: Trig, rng: nat -> real, row: TsvRow, cursor: nat): (Route, nat) {
    var w := 5 + AsUsize(rng(cursor) * 5.0);
    (Route(GenerateRoutePath(London(trig, row.start), London(trig, row.end), w, 0.3, rng, cursor + 1)), cursor + 1 + PathDraws(w))
  }

  /** `build_real_train_routes` on the rows `parse_tsv_data` read: one
      route per row, in row order. */
  function RealTrainRoutes(rows: seq<TsvRow>, trig: Trig, rng: nat -> real, cursor: nat): (r: (seq<Route>, nat))
    ensures |r.0| == |rows|
  {
    GenerateOver(rows, (row, c) => RealTrainRoute(trig, rng, row, c), cursor)
  }

  /** `build_real_bus_routes` on the rows `parse_tsv_data` read: one route
      per row, in row order. */
  function RealBusRoutes(rows: seq<TsvRow>, trig: Trig, rng: nat -> real, cursor: nat): (r: (seq<Route>, nat))
    ensures |r.0| == |rows|
  {
    GenerateOver(rows, (row, c) => RealBusRoute(trig, rng, row, c), cursor)
  }

  /** Every real route, train or bus, has at least its two projected
      endpoints, whatever the random stream. */
  lemma RealRoutesTravelable(trainRows: seq<TsvRow>, busRows: seq<TsvRow>, trig: Trig, rng: nat -> real, cursor: nat)
    ensures var trains := RealTrainRoutes(trainRows, trig, rng, cursor);
            var all := trains.0 + RealBusRoutes(busRows, trig, rng, trains.1).0;
            forall i :: 0 <= i < |all| ==> |all[i].stations| >= 2
  {
    var trains := RealTrainRoutes(trainRows, trig, rng, cursor);
    var buses := RealBusRoutes(busRows, trig, rng, trains.1);
    var P := (r: Route) => |r.stations| >= 2;
    GenerateOverAll(trainRows, (row, c) => RealTrainRoute(trig, rng, row, c), cursor, P);
    GenerateOverAll(busRows, (row, c) => RealBusRoute(trig, rng, row, c), trains.1, P);
    var all := trains.0 + buses.0;
    forall i | 0 <= i < |all|
      ensures |all[i].stations| >= 2
    {
      if i < |trains.0| {
        assert all[i] == trains.0[i];
      } else {
        assert all[i] == buses.0[i - |trains.0|];
      }
    }
  }

  /** Real train routes have five stations: the projected start, three
      intermediate points and the projected end of their row. */
  lemma RealTrainShape(rows: seq<TsvRow>, trig: Trig, rng: nat -> real, cursor: nat, i: nat)
    requires i < |rows|
    ensures var s := RealTrainRoutes(rows, trig, rng, cursor).0[i].stations;
            |s| == 5 && s[0] == London(trig, rows[i].start) && s[4] == London(trig, rows[i].end)
  {
    var gen := (row, c) => RealTrainRoute(trig, rng, row, c);
    var P := (r: Route) => |r.stations| == 5;
    GenerateOverAll(rows, gen, cursor, P);
    RowEndpoints(rows, gen, cursor, trig, i);
  }

  /** Whatever the generator, the i-th route joins the projected endpoints of
      the i-th row when every generated route does so for its row. */
  lemma {:induction false} RowEndpoints(rows: seq<TsvRow>, gen: (TsvRow, nat) -> (Route, nat), cursor: nat, trig: Trig, i: nat)
    requires i < |rows|
    requires forall row, c :: var s := gen(row, c).0.stations;
               |s| >= 2 && s[0] == London(trig, row.start) && s[|s| - 1] == London(trig, row.end)
    ensures var s := GenerateOver(rows, gen, cursor).0[i].stations;
            |s| >= 2 && s[0] == London(trig, rows[i].start) && s[|s| - 1] == London(trig, rows[i].end)
    decreases i
  {
    var first := gen(rows[0], cursor);
    if i > 0 {
      RowEndpoints(rows[1..], gen, first.1, trig, i - 1);
      assert GenerateOver(rows, gen, cursor).0[i] == GenerateOver(rows[1..], gen, first.1).0[i - 1];
    }
  }

  /** Real bus routes have 7 to 11 stations, from the projected start to
      the projected end of their row. */
  lemma RealBusShape(rows: seq<TsvRow>, trig: Trig, rng: nat -> real, cursor: nat, i: nat)
    requires UnitStream(rng) && i < |rows|
    ensures var s := RealBusRoutes(rows, trig, rng, cursor).0[i].stations;
            7 <= |s| <= 11 && s[0] == London(trig, rows[i].start) && s[|s| - 1] == London(trig, rows[i].end)
  {
    var gen := (row, c) => RealBusRoute(trig, rng, row, c);
    var P := (r: Route) => 7 <= |r.stations| <= 11;
    forall k, c: nat | 0 <= k < |rows|
      ensures P(gen(rows[k], c).0)
    {
      ScaledDraw(rng(c), 5);
    }
    GenerateOverAll(rows, gen, cursor, P);
    RowEndpoints(rows, gen, cursor, trig, i);
  }

  // ----- synthetic train routes -----

  /** End points of the ten synthetic train lines. */
  const TrainEnds: seq<LatLng> := [
    LatLng(51.59, -0.33), LatLng(51.69, 0.11), LatLng(51.49, -0.22), LatLng(51.54, 0.08),
    LatLng(51.62, -0.28), LatLng(51.40, -0.19), LatLng(51.47, -0.48), LatLng(51.65, -0.14),
    LatLng(51.58, -0.02), LatLng(51.46, -0.11)]

  /** One synthetic train line from central London to `end`, with
      `4 + floor(4 r)` intermediate points. */
  function RandomTrainRoute(trig: Trig, rng: nat -> real, end: LatLng, cursor: nat): (Route, nat) {
    var w := 4 + AsUsize(rng(cursor) * 4.0);
    (Route(GenerateRoutePath(London(trig, Central), London(trig, end), w, 0.2, rng, cursor + 1)), cursor + 1 + PathDraws(w))
  }

  /** `build_random_train_routes`. */
  function BuildRandomTrainRoutes(trig: Trig, rng: nat -> real, cursor: nat): (r: (seq<Route>, nat))
    ensures |r.0| == 10
  {
    GenerateOver(TrainEnds, (end, c) => RandomTrainRoute(trig, rng, end, c), cursor)
  }

  /** Exactly ten train routes, each of 6 to 9 stations starting in central
      London. */
  lemma RandomTrainShape(trig: Trig, rng: nat -> real, cursor: nat)
    requires UnitStream(rng)
    ensures var routes := BuildRandomTrainRoutes(trig, rng, cursor).0;
            forall i :: 0 <= i < 10 ==>
              6 <= |routes[i].stations| <= 9 && routes[i].stations[0] == London(trig, Central)
  {
    var gen := (end, c) => RandomTrainRoute(trig, rng, end, c);
    var P := (r: Route) => 6 <= |r.stations| <= 9 && r.stations[0] == London(trig, Central);
    forall k, c: nat | 0 <= k < |TrainEnds|
      ensures P(gen(TrainEnds[k], c).0)
    {
      ScaledDraw(rng(c), 4);
    }
    GenerateOverAll(TrainEnds, gen, cursor, P);
  }

  // ----- synthetic bus routes -----

  /** A radial bus route: a random direction and distance from the centre,
      `5 + floor(7 r)` intermediate points, randomness 0.3. */
  function RadialRoute(trig: Trig, rng: nat -> real, k: nat, cursor: nat): (Route, nat) {
    var angle := rng(cursor) * 2.0 * trig.pi;
    var distance := 0.1 + rng(cursor + 1) * 0.2;
    var end := LatLng(Central.lat + distance * trig.sin(angle), Central.lng + distance * trig.cos(angle));
    var w := 5 + AsUsize(rng(cursor + 2) * 7.0);
    (Route(GenerateRoutePath(London(trig, Central), London(trig, end), w, 0.3, rng, cursor + 3)), cursor + 3 + PathDraws(w))
  }

  /** The j-th point of an orbital route of `segments` segments around the
      centre, nudged by up to 10% of the radius in each axis. */
  function OrbitPoint(trig: Trig, rng: nat -> real, radius: real, startAngle: real, segments: nat, j: nat, cursor: nat): Point
    requires segments > 0
  {
    var angle := startAngle + ((j as real) / (segments as real)) * 2.0 * trig.pi;
    var xy := London(trig, LatLng(Central.lat + radius * trig.sin(angle), Central.lng + radius * trig.cos(angle)));
    var offset := radius * 0.1;
    var scale := LondonCentered(CanvasWidth, CanvasHeight).scale;
    Point(xy.x + (rng(cursor) * 2.0 - 1.0) * offset * scale, xy.y + (rng(cursor + 1) * 2.0 - 1.0) * offset * scale)
  }

  /** The k-th orbital route: radius `0.03 + 0.15 k/20`, a random start
      angle, `8 + floor(8 r)` segments, points 0..segments, and the first
      point repeated at the end to close the loop. */
  function OrbitalRoute(trig: Trig, rng: nat -> real, k: nat, cursor: nat): (Route, nat) {
    var radius := 0.03 + ((k as real) / 20.0) * 0.15;
    var startAngle := rng(cursor) * 2.0 * trig.pi;
    var segments := 8 + AsUsize(rng(cursor + 1) * 8.0);
    var points := seq(segments + 1, j requires 0 <= j < segments + 1 =>
                        OrbitPoint(trig, rng, radius, startAngle, segments, j, cursor + 2 + 2 * j));
    (Route(points + [points[0]]), cursor + 2 + 2 * (segments + 1))
  }

  /** A cross-town route, east-west when the first value exceeds 0.5 and
      north-south otherwise, `6 + floor(10 r)` intermediate points. */
  function CrossTownRoute(trig: Trig, rng: nat -> real, k: nat, cursor: nat): (Route, nat) {
    var eastWest := rng(cursor) > 0.5;
    var offset := -0.1 + rng(cursor + 1) * 0.2;
    var start := if eastWest then LatLng(Central.lat + offset, Central.lng - 0.15 - rng(cursor + 2) * 0.1)
                 else LatLng(Central.lat - 0.15 - rng(cursor + 2) * 0.1, Central.lng + offset);
    var end := if eastWest then LatLng(Central.lat + offset, Central.lng + 0.15 + rng(cursor + 3) * 0.1)
               else LatLng(Central.lat + 0.15 + rng(cursor + 3) * 0.1, Central.lng + offset);
    var w := 6 + AsUsize(rng(cursor + 4) * 10.0);
    (Route(GenerateRoutePath(London(trig, start), London(trig, end), w, 0.25, rng, cursor + 5)), cursor + 5 + PathDraws(w))
  }

  function Radials(trig: Trig, rng: nat -> real, cursor: nat): (r: (seq<Route>, nat))
    ensures |r.0| == 30
  {
    GenerateOver(Indices(30), (k, c) => RadialRoute(trig, rng, k, c), cursor)
  }

  function Orbitals(trig: Trig, rng: nat -> real, cursor: nat): (r: (seq<Route>, nat))
    ensures |r.0| == 20
  {
    GenerateOver(Indices(20), (k, c) => OrbitalRoute(trig, rng, k, c), cursor)
  }

  function CrossTowns(trig: Trig, rng: nat -> real, cursor: nat): (r: (seq<Route>, nat))
    ensures |r.0| == 50
  {
    GenerateOver(Indices(50), (k, c) => CrossTownRoute(trig, rng, k, c), cursor)
  }

  /** `build_random_bus_routes`: 30 radial, then 20 orbital, then 50
      cross-town routes. */
  function BuildRandomBusRoutes(trig: Trig, rng: nat -> real, cursor: nat): (r: (seq<Route>, nat))
    ensures |r.0| == 100
  {
    var radial := Radials(trig, rng, cursor);
    var orbital := Orbitals(trig, rng, radial.1);
    var cross := CrossTowns(trig, rng, orbital.1);
    (radial.0 + orbital.0 + cross.0, cross.1)
  }

  /** Radial routes start in central London and have 7 to 13 stations. */
  lemma RadialShape(trig: Trig, rng: nat -> real, cursor: nat)
    requires UnitStream(rng)
    ensures var routes := Radials(trig, rng, cursor).0;
            forall i :: 0 <= i < 30 ==>
              7 <= |routes[i].stations| <= 13 && routes[i].stations[0] == London(trig, Central)
  {
    var gen := (k, c) => RadialRoute(trig, rng, k, c);
    var P := (r: Route) => 7 <= |r.stations| <= 13 && r.stations[0] == London(trig, Central);
    forall k, c: nat | 0 <= k < 30
      ensures P(gen(Indices(30)[k], c).0)
    {
      ScaledDraw(rng(c + 2), 7);
    }
    GenerateOverAll(Indices(30), gen, cursor, P);
  }

  /** Orbital routes are closed loops of `segments + 2` points with 8 to 15
      segments: the last station repeats the first. */
  lemma OrbitalShape(trig: Trig, rng: nat -> real, cursor: nat)
    requires UnitStream(rng)
    ensures var routes := Orbitals(trig, rng, cursor).0;
            forall i :: 0 <= i < 20 ==>
              10 <= |routes[i].stations| <= 17
              && routes[i].stations[|routes[i].stations| - 1] == routes[i].stations[0]
  {
    var gen := (k, c) => OrbitalRoute(trig, rng, k, c);
    var P := (r: Route) => 10 <= |r.stations| <= 17 && r.stations[|r.stations| - 1] == r.stations[0];
    forall k, c: nat | 0 <= k < 20
      ensures P(gen(Indices(20)[k], c).0)
    {
      ScaledDraw(rng(c + 1), 8);
    }
    GenerateOverAll(Indices(20), gen, cursor, P);
  }

  /** Cross-town routes have 8 to 17 stations. */
  lemma CrossTownShape(trig: Trig, rng: nat -> real, cursor: nat)
    requires UnitStream(rng)
    ensures var routes := CrossTowns(trig, rng, cursor).0;
            forall i :: 0 <= i < 50 ==> 8 <= |routes[i].stations| <= 17
  {
    var gen := (k, c) => CrossTownRoute(trig, rng, k, c);
    var P := (r: Route) => 8 <= |r.stations| <= 17;
    forall k, c: nat | 0 <= k < 50
      ensures P(gen(Indices(50)[k], c).0)
    {
      ScaledDraw(rng(c + 4), 10);
    }
    GenerateOverAll(Indices(50), gen, cursor, P);
  }

  /** Every synthetic route, train or bus, has at least two stations. */
  lemma RandomRoutesMovable(trig: Trig, rng: nat -> real, cursor: nat)
    requires UnitStream(rng)
    ensures var trains := BuildRandomTrainRoutes(trig, rng, cursor);
            var buses := BuildRandomBusRoutes(trig, rng, trains.1).0;
            forall i :: 0 <= i < |trains.0 + buses| ==> |(trains.0 + buses)[i].stations| >= 2
  {
    var trains := BuildRandomTrainRoutes(trig, rng, cursor);
    var radial := Radials(trig, rng, trains.1);
    var orbital := Orbitals(trig, rng, radial.1);
    var cross := CrossTowns(trig, rng, orbital.1);
    RandomTrainShape(trig, rng, cursor);
    RadialShape(trig, rng, trains.1);
    OrbitalShape(trig, rng, radial.1);
    CrossTownShape(trig, rng, orbital.1);
    var all := trains.0 + (radial.0 + orbital.0 + cross.0);
    forall i | 0 <= i < |all|
      ensures |all[i].stations| >= 2
    {
      if i < 10 {
        assert all[i] == trains.0[i];
      } else if i < 40 {
        assert all[i] == radial.0[i - 10];
      } else if i < 60 {
        assert all[i] == orbital.0[i - 40];
      } else {
        assert all[i] == cross.0[i - 60];
      }
    }
  }
}
