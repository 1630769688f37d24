/** The one kinematic rule every vehicle in the simulation follows.

    A vehicle travels back and forth along the stations of its route. Its
    progress on the current segment, from station `last` towards station
    `next`, is `fraction`; each tick adds `speed` to it, and every whole unit
    of progress is one arrival at `next`, after which the vehicle heads for
    the following station in `direction`, bouncing at either end of the route.
    Finally the vehicle's position is interpolated between the two stations.

    The simulation crates carry this rule in four copies (three textually
    identical imperative loops and one in the map crate); modules
    `SimVehicle` and `MapSimulation` prove that each copy computes exactly
    `Step` below. */
module Kinematics {
  import opened Common

  /** Where a vehicle is on its route: heading from station `last` to station
      `next` in `direction` (+1 or -1), `fraction` of the way along. Indices
      are `int` because the source computes them in signed arithmetic. */
  datatype Motion = Motion(direction: int, last: int, next: int, fraction: real)

  predicate InRoute(i: int, n: nat) {
    0 <= i < n
  }

  /** The placement invariant: a route of at least two stations, a unit
      direction, both indices inside the route and `next` one step from
      `last` along `direction`. */
  predicate OnSegment(m: Motion, n: nat) {
    && n >= 2
    && (m.direction == 1 || m.direction == -1)
    && InRoute(m.last, n) && InRoute(m.next, n)
    && m.next == m.last + m.direction
  }

  /** What indexing the route needs: at least two stations, a unit direction
      and both indices inside the route. Unlike `OnSegment` it does not ask
      `next` to follow `last`; one arrival restores that. */
  predicate Indexable(m: Motion, n: nat) {
    && n >= 2
    && (m.direction == 1 || m.direction == -1)
    && InRoute(m.last, n) && InRoute(m.next, n)
  }

  /** One arrival at station `next`: the fraction loses one whole unit, the
      vehicle now leaves from the station it reached, and turns round when
      the station after it in `direction` is not on the route. */
  function Arrive(m: Motion, n: nat): (r: Motion)
    ensures r.fraction == m.fraction - 1.0
    ensures r.last == m.next
    ensures r.next == r.last + r.direction
    ensures r.direction == m.direction || r.direction == -m.direction
    ensures m.direction != 0 ==>
              (r.direction == -m.direction <==> !InRoute(m.next + m.direction, n))
    ensures Indexable(m, n) ==> OnSegment(r, n)
  {
    var candidate := m.next + m.direction;
    var direction := if candidate < 0 || candidate >= n then -m.direction else m.direction;
    Motion(direction, m.next, m.next + direction, m.fraction - 1.0)
  }

  /** Number of arrivals a fraction triggers: none below 1, otherwise its
      whole part. */
  function Arrivals(fraction: real): (k: nat)
    ensures fraction < 1.0 ==> k == 0
    ensures fraction >= 1.0 ==> k as real <= fraction < k as real + 1.0
  {
    if fraction < 1.0 then 0 else fraction.Floor
  }

  /** Perform arrivals while the fraction is at least one. */
  function Settle(m: Motion, n: nat): (r: Motion)
    ensures r.fraction < 1.0
    ensures m.fraction < 1.0 ==> r == m
    ensures r.fraction == m.fraction - Arrivals(m.fraction) as real
    ensures 0.0 <= m.fraction ==> 0.0 <= r.fraction
    ensures Indexable(m, n) ==> Indexable(r, n)
    ensures OnSegment(m, n) ==> OnSegment(r, n)
    ensures Indexable(m, n) && m.fraction >= 1.0 ==> OnSegment(r, n)
    decreases Arrivals(m.fraction)
  {
    if m.fraction < 1.0 then m
    else
      ArrivalsStep(m.fraction);
      Settle(Arrive(m, n), n)
  }

  /** One arrival takes one off the count of arrivals still due. */
  lemma ArrivalsStep(fraction: real)
    requires fraction >= 1.0
    ensures Arrivals(fraction - 1.0) == Arrivals(fraction) - 1
  {
    var k := Arrivals(fraction);
    assert (k - 1) as real <= fraction - 1.0 < (k - 1) as real + 1.0;
  }

  /** `k` arrivals in a row. */
  function ArriveTimes(m: Motion, n: nat, k: nat): (r: Motion)
    ensures r.fraction == m.fraction - k as real
    ensures OnSegment(m, n) ==> OnSegment(r, n)
    decreases k
  {
    if k == 0 then m else ArriveTimes(Arrive(m, n), n, k - 1)
  }

  /** Settling performs exactly `Arrivals(fraction)` arrivals. */
  lemma {:induction false} SettleCountsArrivals(m: Motion, n: nat)
    ensures Settle(m, n) == ArriveTimes(m, n, Arrivals(m.fraction))
    decreases Arrivals(m.fraction)
  {
    if m.fraction >= 1.0 {
      var a := Arrive(m, n);
      ArrivalsStep(m.fraction);
      SettleCountsArrivals(a, n);
    }
  }

  /** One tick of motion: add the speed, then settle. */
  function Step(m: Motion, speed: real, n: nat): (r: Motion)
    ensures r.fraction < 1.0
    ensures 0.0 <= m.fraction && 0.0 <= speed ==> 0.0 <= r.fraction
    ensures Indexable(m, n) ==> Indexable(r, n)
    ensures OnSegment(m, n) ==> OnSegment(r, n)
    ensures r.fraction == m.fraction + speed - Arrivals(m.fraction + speed) as real
  {
    Settle(m.(fraction := m.fraction + speed), n)
  }

  /** With a speed below one, a vehicle in normal position arrives at most
      once per tick. */
  lemma StepArrivesAtMostOnce(m: Motion, speed: real, n: nat)
    requires 0.0 <= m.fraction < 1.0 && 0.0 <= speed < 1.0
    ensures m.fraction + speed < 1.0 ==> Step(m, speed, n) == m.(fraction := m.fraction + speed)
    ensures m.fraction + speed >= 1.0 ==> Step(m, speed, n) == Arrive(m.(fraction := m.fraction + speed), n)
  {
  }

  /** A stationary vehicle stays exactly where it is. */
  lemma ZeroSpeedIsIdentity(m: Motion, n: nat)
    requires 0.0 <= m.fraction < 1.0
    ensures Step(m, 0.0, n) == m
  {
    assert m.(fraction := m.fraction + 0.0) == m;
  }

  /** `k` ticks at a constant speed. */
  function Run(m: Motion, speed: real, n: nat, k: nat): (r: Motion)
    ensures k > 0 ==> r.fraction < 1.0
    ensures 0.0 <= m.fraction && 0.0 <= speed ==> 0.0 <= r.fraction
    ensures OnSegment(m, n) ==> OnSegment(r, n)
  {
    if k == 0 then m else Step(Run(m, speed, n, k - 1), speed, n)
  }

  /** Zero speed: any number of ticks leaves the motion unchanged. */
  lemma {:induction false} ZeroSpeedRunIsIdentity(m: Motion, n: nat, k: nat)
    requires 0.0 <= m.fraction < 1.0
    ensures Run(m, 0.0, n, k) == m
  {
    if k > 0 {
      ZeroSpeedRunIsIdentity(m, n, k - 1);
      ZeroSpeedIsIdentity(m, n);
    }
  }

  /** The interpolated position between the two current stations. */
  function Locate(stations: seq<Point>, m: Motion): (p: Point)
    requires InRoute(m.last, |stations|) && InRoute(m.next, |stations|)
    ensures m.fraction == 0.0 ==> p == stations[m.last]
    ensures m.fraction == 1.0 ==> p == stations[m.next]
    ensures 0.0 <= m.fraction <= 1.0 ==> Between(p, stations[m.last], stations[m.next])
  {
    var a := stations[m.last];
    var b := stations[m.next];
    Point(Lerp(a.x, b.x, m.fraction), Lerp(a.y, b.y, m.fraction))
  }

  /** The interpolated position, coordinate by coordinate. */
  lemma LocateSpelled(stations: seq<Point>, m: Motion)
    requires InRoute(m.last, |stations|) && InRoute(m.next, |stations|)
    ensures var a, b := stations[m.last], stations[m.next];
            Locate(stations, m) == Point(a.x + (b.x - a.x) * m.fraction, a.y + (b.y - a.y) * m.fraction)
  {
    var a, b := stations[m.last], stations[m.next];
    assert Locate(stations, m) == Point(Lerp(a.x, b.x, m.fraction), Lerp(a.y, b.y, m.fraction));
    LerpValue(a.x, b.x, m.fraction);
    LerpValue(a.y, b.y, m.fraction);
  }

  /** `p` lies in the axis-aligned box spanned by `a` and `b`. */
  predicate Between(p: Point, a: Point, b: Point) {
    && (a.x <= p.x <= b.x || b.x <= p.x <= a.x)
    && (a.y <= p.y <= b.y || b.y <= p.y <= a.y)
  }

  /** The bounce: on a two-station route, a forward vehicle crossing the end
      of its segment turns back towards station 0. */
  lemma BounceOnTwoStations(fraction: real, speed: real)
    requires 0.0 <= fraction < 1.0 && 0.0 <= speed < 1.0 && fraction + speed >= 1.0
    ensures Step(Motion(1, 0, 1, fraction), speed, 2) == Motion(-1, 1, 0, fraction + speed - 1.0)
  {
    StepArrivesAtMostOnce(Motion(1, 0, 1, fraction), speed, 2);
  }

  /** Worked example: stations (0,0) and (10,0), fraction 0.9, speed 0.3. */
  lemma BounceExample()
    ensures Step(Motion(1, 0, 1, 0.9), 0.3, 2) == Motion(-1, 1, 0, 0.2)
    ensures Locate([Point(0.0, 0.0), Point(10.0, 0.0)], Motion(-1, 1, 0, 0.2)) == Point(8.0, 0.0)
  {
    BounceOnTwoStations(0.9, 0.3);
  }
}
