/** Geographic helpers of the canvas simulation (sim/src/model/geo.rs): the
    equirectangular projection of latitude/longitude onto the canvas, the
    clamp that keeps a point 50 pixels inside the canvas, the "lat,lng"
    coordinate parser and the generator of a wobbly path between two points.

    The cosine of the centre latitude is an input of the projection; the
    number parser `str::parse::<f32>` is an input `parse` that may fail; the
    random values come from a stream `rng` read from a cursor. */
module Geo {
  import opened Common
  import opened Text

  /** A parsed coordinate, latitude first as in the "lat,lng" text. */
  datatype LatLng = LatLng(lat: real, lng: real)

  /** A projection centred on (`centerLat`, `centerLng`) with `scale`
      pixels per degree onto a canvas of `width` x `height` pixels. */
  datatype Projection = Projection(centerLat: real, centerLng: real, scale: real, width: real, height: real)

  /** The London-centred projection used by every route builder. */
  function LondonCentered(width: real, height: real): (p: Projection)
    ensures p.scale > 0.0
  {
    Projection(51.5, -0.12, 5000.0, width, height)
  }

  /** `project`: x grows with longitude at `cosCenter * scale` pixels per
      degree, y shrinks as latitude grows, and the centre maps to the middle
      of the canvas. `cosCenter` stands for the cosine of the centre
      latitude in radians. */
  function Project(p: Projection, cosCenter: real, lat: real, lng: real): Point {
    Point(p.width / 2.0 + (lng - p.centerLng) * cosCenter * p.scale,
          p.height / 2.0 + (p.centerLat - lat) * p.scale)
  }

  /** The centre of the projection lands in the middle of the canvas. */
  lemma ProjectCentre(p: Projection, cosCenter: real)
    ensures Project(p, cosCenter, p.centerLat, p.centerLng) == Point(p.width / 2.0, p.height / 2.0)
  {
  }

  /** y depends on latitude only, and a point further north is drawn
      higher up (smaller y) when the scale is positive. */
  lemma ProjectLatitude(p: Projection, cosCenter: real, lat1: real, lng1: real, lat2: real, lng2: real)
    requires p.scale > 0.0
    ensures lat1 == lat2 ==> Project(p, cosCenter, lat1, lng1).y == Project(p, cosCenter, lat2, lng2).y
    ensures lat1 < lat2 ==> Project(p, cosCenter, lat2, lng2).y < Project(p, cosCenter, lat1, lng1).y
  {
    var d := (lat2 - lat1) * p.scale;
    assert Project(p, cosCenter, lat1, lng1).y - Project(p, cosCenter, lat2, lng2).y == d;
  }

  /** x is affine in longitude with slope `cosCenter * scale`, whatever the
      latitude. */
  lemma ProjectLongitude(p: Projection, cosCenter: real, lat1: real, lng1: real, lat2: real, lng2: real)
    ensures Project(p, cosCenter, lat2, lng2).x - Project(p, cosCenter, lat1, lng1).x
              == (lng2 - lng1) * (cosCenter * p.scale)
  {
  }

  /** `project_many`: every coordinate projected, in order. */
  function ProjectMany(p: Projection, cosCenter: real, coords: seq<LatLng>): (r: seq<Point>)
    ensures |r| == |coords|
    ensures forall i :: 0 <= i < |r| ==> r[i] == Project(p, cosCenter, coords[i].lat, coords[i].lng)
  {
    seq(|coords|, i requires 0 <= i < |coords| => Project(p, cosCenter, coords[i].lat, coords[i].lng))
  }

  /** Projecting a concatenation projects each part. */
  lemma ProjectManyAppend(p: Projection, cosCenter: real, a: seq<LatLng>, b: seq<LatLng>)
    ensures ProjectMany(p, cosCenter, a + b) == ProjectMany(p, cosCenter, a) + ProjectMany(p, cosCenter, b)
  {
  }

  const Margin: real := 50.0

  function Max(a: real, b: real): real { if a < b then b else a }
  function Min(a: real, b: real): real { if a < b then a else b }

  /** `ensure_in_bounds`: each coordinate raised to the margin, then lowered
      to the far side minus the margin. */
  function EnsureInBounds(p: Projection, q: Point): (r: Point)
    ensures p.width >= 2.0 * Margin ==> Margin <= r.x <= p.width - Margin
    ensures p.height >= 2.0 * Margin ==> Margin <= r.y <= p.height - Margin
    ensures Margin <= q.x <= p.width - Margin ==> r.x == q.x
    ensures Margin <= q.y <= p.height - Margin ==> r.y == q.y
  {
    Point(Min(Max(q.x, Margin), p.width - Margin), Min(Max(q.y, Margin), p.height - Margin))
  }

  /** Clamping twice is clamping once. */
  lemma EnsureInBoundsIdempotent(p: Projection, q: Point)
    requires p.width >= 2.0 * Margin && p.height >= 2.0 * Margin
    ensures EnsureInBounds(p, EnsureInBounds(p, q)) == EnsureInBounds(p, q)
  {
  }

  /** `parse_coordinate`: exactly two comma-separated parts, each trimmed
      and parsed as a number, latitude first. */
  function ParseCoordinate(s: string, parse: string -> Option<real>): (r: Result<LatLng>)
    ensures r.Err? ==> r.message in {"Invalid coordinate format", "Invalid latitude", "Invalid longitude"}
  {
    var parts := Split(s, ',');
    if |parts| != 2 then Err("Invalid coordinate format")
    else
      match parse(Trim(parts[0]))
      case None => Err("Invalid latitude")
      case Some(lat) =>
        match parse(Trim(parts[1]))
        case None => Err("Invalid longitude")
        case Some(lng) => Ok(LatLng(lat, lng))
  }

  /** Text with other than exactly one comma is rejected as malformed. */
  lemma ParseCoordinateCommas(s: string, parse: string -> Option<real>)
    ensures Occurrences(s, ',') != 1 ==> ParseCoordinate(s, parse) == Err("Invalid coordinate format")
    ensures Occurrences(s, ',') == 1 ==> ParseCoordinate(s, parse) != Err("Invalid coordinate format")
  {
    SplitCount(s, ',');
  }

  /** Two comma-free texts joined by a comma parse to the two numbers they
      denote, latitude first; the first that does not parse is reported. */
  lemma ParseCoordinateJoin(a: string, b: string, parse: string -> Option<real>)
    requires ',' !in a && ',' !in b
    ensures parse(Trim(a)).None? ==> ParseCoordinate(a + "," + b, parse) == Err("Invalid latitude")
    ensures parse(Trim(a)).Some? && parse(Trim(b)).None? ==>
              ParseCoordinate(a + "," + b, parse) == Err("Invalid longitude")
    ensures parse(Trim(a)).Some? && parse(Trim(b)).Some? ==>
              ParseCoordinate(a + "," + b, parse) == Ok(LatLng(parse(Trim(a)).value, parse(Trim(b)).value))
  {
    JoinSplit([a, b], ',');
    assert Join([a, b], [',']) == a + "," + b;
  }

  /** The i-th intermediate point (1-based) of a path of `waypoints`
      intermediate points: the point at `t = i/(waypoints+1)` of the
      straight line, pushed by up to `randomness` times the extent of the
      line in each axis. It reads four random values: the two offsets, then
      the two signs (a value above 0.5 keeps the offset positive). */
  function Waypoint(start: Point, end: Point, waypoints: nat, randomness: real,
                    rng: nat -> real, cursor: nat, i: nat): Point
  {
    var base := LinePoint(start, end, waypoints, i);
    Point(Wobble(base.x, rng(cursor), randomness * Abs(end.x - start.x), rng(cursor + 2)),
          Wobble(base.y, rng(cursor + 1), randomness * Abs(end.y - start.y), rng(cursor + 3)))
  }

  /** The point at `t = i/(waypoints+1)` of the straight line from `start`
      to `end`. */
  function LinePoint(start: Point, end: Point, waypoints: nat, i: nat): Point {
    var t := (i as real) / (waypoints as real + 1.0);
    Point(start.x + (end.x - start.x) * t, start.y + (end.y - start.y) * t)
  }

  /** `base` pushed by `r * m` (the product `random * randomness * |d|`),
      forwards when `sign` exceeds 0.5 and backwards otherwise. */
  function Wobble(base: real, r: real, m: real, sign: real): (v: real)
    ensures 0.0 <= r < 1.0 && 0.0 <= m ==> Abs(v - base) <= m
  {
    ScaleWithinUnit(m, r);
    base + (if sign > 0.5 then r * m else -(r * m))
  }

  /** Random values one call of `generate_route_path` reads. */
  function PathDraws(waypoints: nat): nat {
    4 * waypoints
  }

  /** `generate_route_path`: start, the intermediate points in order, end. */
  function GenerateRoutePath(start: Point, end: Point, waypoints: nat, randomness: real,
                             rng: nat -> real, cursor: nat): (path: seq<Point>)
    ensures |path| == waypoints + 2
    ensures path[0] == start && path[|path| - 1] == end
    ensures forall i :: 1 <= i <= waypoints ==>
              path[i] == Waypoint(start, end, waypoints, randomness, rng, cursor + 4 * (i - 1), i)
  {
    [start]
      + seq(waypoints, k requires 0 <= k < waypoints => Waypoint(start, end, waypoints, randomness, rng, cursor + 4 * k, k + 1))
      + [end]
  }

  /** With random values in [0,1) and a non-negative randomness, each
      intermediate point stays within `randomness * |dx|` and
      `randomness * |dy|` of the straight-line point at `i/(waypoints+1)`. */
  lemma WaypointNearLine(start: Point, end: Point, waypoints: nat, randomness: real,
                         rng: nat -> real, cursor: nat, i: nat)
    requires UnitStream(rng) && 0.0 <= randomness && 1 <= i <= waypoints
    ensures var q := GenerateRoutePath(start, end, waypoints, randomness, rng, cursor)[i];
            var base := LinePoint(start, end, waypoints, i);
            && Abs(q.x - base.x) <= randomness * Abs(end.x - start.x)
            && Abs(q.y - base.y) <= randomness * Abs(end.y - start.y)
  {
    var c := cursor + 4 * (i - 1);
    assert GenerateRoutePath(start, end, waypoints, randomness, rng, cursor)[i]
        == Waypoint(start, end, waypoints, randomness, rng, c, i);
    assert 0.0 <= rng(c) < 1.0 && 0.0 <= rng(c + 1) < 1.0;
    WaypointNear(start, end, waypoints, randomness, rng, c, i);
  }

  lemma WaypointNear(start: Point, end: Point, waypoints: nat, randomness: real,
                     rng: nat -> real, c: nat, i: nat)
    requires 0.0 <= rng(c) < 1.0 && 0.0 <= rng(c + 1) < 1.0 && 0.0 <= randomness
    ensures var q := Waypoint(start, end, waypoints, randomness, rng, c, i);
            var base := LinePoint(start, end, waypoints, i);
            && Abs(q.x - base.x) <= randomness * Abs(end.x - start.x)
            && Abs(q.y - base.y) <= randomness * Abs(end.y - start.y)
  {
    NonNegProduct(randomness, Abs(end.x - start.x));
    NonNegProduct(randomness, Abs(end.y - start.y));
  }

  lemma NonNegProduct(a: real, b: real)
    requires 0.0 <= a && 0.0 <= b
    ensures 0.0 <= a * b
  {
  }
}
