/** Fleet spawning shared by every `init_vehicles` of the canvas simulation.

    For one route and a per-route vehicle count `per`, the simulation spawns
    `per / 2` vehicles heading forward from station 0 towards station 1,
    then `per - per / 2` heading backward from the last station towards the
    one before it. The i-th vehicle of a group of `count` starts at a random
    point of the i-th slice `[i/count, (i+1)/count)` of its first segment and
    gets a random speed in `[0.005, 0.015)`. A route with fewer than two
    stations gets no vehicles. Each spawned vehicle is then moved once by
    `update_position`; the functions here describe the vehicles just before
    that first move.

    `Math::random` is modelled by an input stream `rng` of reals in [0,1);
    `cursor` is the position of the next unread value. Every spawned vehicle
    reads two values: one for its fraction, then one for its speed. */
module Spawn {
  import opened Common
  import opened Kinematics
  import opened SimVehicle

  /** Start fraction of the i-th of `count` vehicles: a point of the i-th
      equal slice of [0,1) picked by `r`. */
  function SliceFraction(i: nat, count: nat, r: real): real
    requires i < count
  {
    var lo := (i as real) / (count as real);
    var hi := ((i + 1) as real) / (count as real);
    lo + (hi - lo) * r
  }

  /** For `r` in [0,1) the start fraction lies in the i-th slice. */
  lemma {:induction false} SliceFractionInSlice(i: nat, count: nat, r: real)
    requires i < count && 0.0 <= r < 1.0
    ensures (i as real) / (count as real) <= SliceFraction(i, count, r) < ((i + 1) as real) / (count as real)
    ensures 0.0 <= SliceFraction(i, count, r) < 1.0
  {
    var lo := (i as real) / (count as real);
    var hi := ((i + 1) as real) / (count as real);
    SliceWidth(i, count);
    ScaleWithinUnit(hi - lo, r);
    assert (hi - lo) * r < hi - lo by {
      assert 0.0 < hi - lo;
      assert (hi - lo) * r < (hi - lo) * 1.0;
    }
  }

  /** Adjacent slices are `1/count` apart and the last one ends at 1. */
  lemma {:induction false} SliceWidth(i: nat, count: nat)
    requires i < count
    ensures ((i + 1) as real) / (count as real) - (i as real) / (count as real) == 1.0 / (count as real) > 0.0
    ensures 0.0 <= (i as real) / (count as real)
    ensures ((i + 1) as real) / (count as real) <= 1.0
  {
    var c := count as real;
    assert ((i + 1) as real) / c == (i as real) / c + 1.0 / c;
    assert (i + 1) as real <= c;
    assert ((i + 1) as real) / c <= c / c;
  }

  /** Start speed drawn from `r`. */
  function SpawnSpeed(r: real): (s: real)
    ensures 0.0 <= r < 1.0 ==> 0.005 <= s < 0.015
  {
    0.005 + r * 0.01
  }


  /** One spawn slot: the `i`-th of the `count` vehicles of type `kind`
      that head in `direction` on route `routeIndex`, a route of `stations`
      stations. Slots are listed in the order the vehicles are built. */
  datatype Slot = Slot(kind: VehicleType, routeIndex: nat, stations: nat, direction: int, i: nat, count: nat)

  predicate SlotValid(s: Slot) {
    s.stations >= 2 && (s.direction == 1 || s.direction == -1) && s.i < s.count
  }

  /** The vehicle built for slot `s`, before its first move: forward from
      station 0 towards station 1, or backward from the last station towards
      the one before it, with a fraction and speed drawn from the two
      random values. The position is filled in by the first move. */
  function PreSpawn(s: Slot, rFraction: real, rSpeed: real): (v: Vehicle)
    requires SlotValid(s)
    ensures OnSegment(MotionOf(v), s.stations)
    ensures v.direction == s.direction
    ensures s.direction == 1 ==> v.lastStation == 0 && v.nextStation == 1
    ensures s.direction == -1 ==> v.lastStation == s.stations - 1 && v.nextStation == s.stations - 2
    ensures v.vehicleType == s.kind && v.routeIndex == s.routeIndex
  {
    var forward := s.direction == 1;
    Vehicle(s.kind, s.routeIndex, s.direction,
            if forward then 0 else s.stations - 1,
            if forward then 1 else s.stations - 2,
            SliceFraction(s.i, s.count, rFraction), SpawnSpeed(rSpeed), 0.0, 0.0)
  }

  /** How the vehicles of one route divide between the two directions:
      `per / 2` forward and `per - per / 2` backward for `per` vehicles. */
  datatype Split = Split(forward: nat, backward: nat)

  function SplitOf(per: nat): (s: Split)
    ensures s.forward + s.backward == per
    ensures s.forward <= s.backward <= s.forward + 1
  {
    Split(per / 2, per - per / 2)
  }

  /** The first `k` slots of a direction group of `count` vehicles. */
  function GroupUpTo(kind: VehicleType, routeIndex: nat, n: nat, direction: int, count: nat, k: nat): (g: seq<Slot>)
    ensures |g| == k
  {
    if k == 0 then []
    else GroupUpTo(kind, routeIndex, n, direction, count, k - 1) + [Slot(kind, routeIndex, n, direction, k - 1, count)]
  }

  /** The q-th slot of a group is the q-th of its `count` vehicles. */
  lemma {:induction false} GroupUpToAt(kind: VehicleType, routeIndex: nat, n: nat, direction: int, count: nat, k: nat, q: nat)
    requires q < k
    ensures GroupUpTo(kind, routeIndex, n, direction, count, k)[q] == Slot(kind, routeIndex, n, direction, q, count)
    decreases k
  {
    if q < k - 1 {
      GroupUpToAt(kind, routeIndex, n, direction, count, k - 1, q);
    }
  }

  /** The slots of one route: `split.forward` heading forward, then
      `split.backward` heading backward; none when the route has fewer than two stations. */
  function RouteSlots(kind: VehicleType, routeIndex: nat, n: nat, split: Split): (p: seq<Slot>)
    ensures |p| == (if n < 2 then 0 else split.forward + split.backward)
  {
    if n < 2 then []
    else GroupUpTo(kind, routeIndex, n, 1, split.forward, split.forward) + GroupUpTo(kind, routeIndex, n, -1, split.backward, split.backward)
  }

  /** The slots of `count` consecutive routes from index `start`, each with
      the same split, in route order; an index past the end of `routes` is
      skipped. */
  function RangeSlots(kind: VehicleType, routes: seq<Route>, start: nat, count: nat, split: Split): (s: seq<Slot>)
    decreases count
  {
    if count == 0 then []
    else
      var k := start + count - 1;
      RangeSlots(kind, routes, start, count - 1, split) + (if k < |routes| then RouteSlots(kind, k, |routes[k].stations|, split) else [])
  }

  /** How many vehicles a route sends in direction `d`. */
  function Share(split: Split, d: int): nat {
    if d == 1 then split.forward else if d == -1 then split.backward else 0
  }

  /** Number of slots on route `j` heading in direction `d`. */
  function CountSlots(s: seq<Slot>, j: nat, d: int): (c: nat)
    ensures c <= |s|
  {
    if |s| == 0 then 0
    else CountSlots(s[..|s| - 1], j, d) + (if s[|s| - 1].routeIndex == j && s[|s| - 1].direction == d then 1 else 0)
  }

  lemma {:induction false} CountSlotsAppend(a: seq<Slot>, b: seq<Slot>, j: nat, d: int)
    ensures CountSlots(a + b, j, d) == CountSlots(a, j, d) + CountSlots(b, j, d)
    decreases |b|
  {
    if |b| == 0 {
      assert a + b == a;
    } else {
      assert (a + b)[..|a + b| - 1] == a + b[..|b| - 1];
      CountSlotsAppend(a, b[..|b| - 1], j, d);
    }
  }

  lemma CountSlotsSum(a: seq<Slot>, b: seq<Slot>, j: nat, d: int, x: nat, y: nat)
    requires CountSlots(a, j, d) == x && CountSlots(b, j, d) == y
    ensures CountSlots(a + b, j, d) == x + y
  {
    CountSlotsAppend(a, b, j, d);
  }

  /** The first `k` slots of a group count towards the group's own route
      and direction only. */
  lemma {:induction false} GroupUpToCount(kind: VehicleType, routeIndex: nat, n: nat, direction: int, count: nat,
                                          k: nat, j: nat, d: int)
    ensures CountSlots(GroupUpTo(kind, routeIndex, n, direction, count, k), j, d)
              == (if j == routeIndex && d == direction then k else 0)
    decreases k
  {
    if k > 0 {
      var g := GroupUpTo(kind, routeIndex, n, direction, count, k);
      assert g[..k - 1] == GroupUpTo(kind, routeIndex, n, direction, count, k - 1);
      GroupUpToCount(kind, routeIndex, n, direction, count, k - 1, j, d);
    }
  }

  /** A route with at least two stations sends `split.forward` vehicles
      forward and `split.backward` backward; no other route and no other direction
      gets any. */
  lemma RouteCount(kind: VehicleType, routeIndex: nat, n: nat, split: Split, j: nat, d: int)
    ensures CountSlots(RouteSlots(kind, routeIndex, n, split), j, d)
              == (if n >= 2 && j == routeIndex then Share(split, d) else 0)
  {
    if n >= 2 {
      var fwd := GroupUpTo(kind, routeIndex, n, 1, split.forward, split.forward);
      var bwd := GroupUpTo(kind, routeIndex, n, -1, split.backward, split.backward);
      GroupUpToCount(kind, routeIndex, n, 1, split.forward, split.forward, j, d);
      GroupUpToCount(kind, routeIndex, n, -1, split.backward, split.backward, j, d);
      CountSlotsAppend(fwd, bwd, j, d);
    }
  }

  /** Route `j` of a range receives `split.forward` forward and
      `split.backward`
      backward vehicles when it exists and has at least two stations, and
      none otherwise. */
  lemma {:induction false} RangeCount(kind: VehicleType, routes: seq<Route>, start: nat, count: nat, split: Split, j: nat, d: int)
    ensures CountSlots(RangeSlots(kind, routes, start, count, split), j, d)
              == (if start <= j < start + count && j < |routes| && |routes[j].stations| >= 2 then Share(split, d) else 0)
    decreases count
  {
    if count > 0 {
      RangeCount(kind, routes, start, count - 1, split, j, d);
      RangeCountFrom(kind, routes, start, count, split, j, d);
    }
  }

  /** The count of a range from the count of the range one route shorter. */
  lemma RangeCountFrom(kind: VehicleType, routes: seq<Route>, start: nat, count: nat, split: Split, j: nat, d: int)
    requires count > 0
    requires CountSlots(RangeSlots(kind, routes, start, count - 1, split), j, d)
               == (if start <= j < start + (count - 1) && j < |routes| && |routes[j].stations| >= 2 then Share(split, d) else 0)
    ensures CountSlots(RangeSlots(kind, routes, start, count, split), j, d)
              == (if start <= j < start + count && j < |routes| && |routes[j].stations| >= 2 then Share(split, d) else 0)
  {
    RangeCountStep(kind, routes, start, count, split, j, d);
    RangeShare(routes, start, count, split, j, d, CountSlots(RangeSlots(kind, routes, start, count - 1, split), j, d));
  }

  /** The last route of a range adds its own share to the count. */
  lemma RangeCountStep(kind: VehicleType, routes: seq<Route>, start: nat, count: nat, split: Split, j: nat, d: int)
    requires count > 0
    ensures var k := start + count - 1;
            CountSlots(RangeSlots(kind, routes, start, count, split), j, d)
              == CountSlots(RangeSlots(kind, routes, start, count - 1, split), j, d)
                 + (if j == k && k < |routes| && |routes[k].stations| >= 2 then Share(split, d) else 0)
  {
    var k := start + count - 1;
    var last := if k < |routes| then RouteSlots(kind, k, |routes[k].stations|, split) else [];
    CountSlotsAppend(RangeSlots(kind, routes, start, count - 1, split), last, j, d);
    if k < |routes| {
      RouteCount(kind, k, |routes[k].stations|, split, j, d);
    }
  }

  /** Adding the last route's share to the shares of the routes before it
      gives the share of the whole range. */
  lemma RangeShare(routes: seq<Route>, start: nat, count: nat, split: Split, j: nat, d: int, x: nat)
    requires count > 0
    requires x == (if start <= j < start + (count - 1) && j < |routes| && |routes[j].stations| >= 2 then Share(split, d) else 0)
    ensures var k := start + count - 1;
            x + (if j == k && k < |routes| && |routes[k].stations| >= 2 then Share(split, d) else 0)
              == (if start <= j < start + count && j < |routes| && |routes[j].stations| >= 2 then Share(split, d) else 0)
  {
  }

  /** When every route of the range exists and has at least two stations,
      the range has exactly one split's worth of slots per route. */
  lemma {:induction false} RangeSize(kind: VehicleType, routes: seq<Route>, start: nat, count: nat, split: Split)
    requires start + count <= |routes|
    requires forall j :: start <= j < start + count ==> |routes[j].stations| >= 2
    ensures |RangeSlots(kind, routes, start, count, split)| == count * (split.forward + split.backward)
    decreases count
  {
    if count > 0 {
      RangeSize(kind, routes, start, count - 1, split);
      assert count * (split.forward + split.backward) == (count - 1) * (split.forward + split.backward) + split.forward + split.backward;
    }
  }

  /** Every slot of a range is a valid slot of the range's kind, on an
      existing route of the range, with that route's station count. */
  predicate SlotsOn(kind: VehicleType, routes: seq<Route>, start: nat, count: nat, s: seq<Slot>) {
    forall q :: 0 <= q < |s| ==>
      && SlotValid(s[q]) && s[q].kind == kind
      && start <= s[q].routeIndex < start + count && s[q].routeIndex < |routes|
      && s[q].stations == |routes[s[q].routeIndex].stations|
  }

  lemma RouteSlotsOn(kind: VehicleType, routes: seq<Route>, start: nat, count: nat, split: Split, j: nat)
    requires start <= j < start + count && j < |routes|
    ensures SlotsOn(kind, routes, start, count, RouteSlots(kind, j, |routes[j].stations|, split))
  {
    var n := |routes[j].stations|;
    if n >= 2 {
      GroupOn(kind, routes, start, count, j, 1, split.forward);
      GroupOn(kind, routes, start, count, j, -1, split.backward);
      SlotsOnAppend(kind, routes, start, count, GroupUpTo(kind, j, n, 1, split.forward, split.forward),
                    GroupUpTo(kind, j, n, -1, split.backward, split.backward));
    }
  }

  lemma GroupOn(kind: VehicleType, routes: seq<Route>, start: nat, count: nat, j: nat, direction: int, size: nat)
    requires start <= j < start + count && j < |routes| && |routes[j].stations| >= 2
    requires direction == 1 || direction == -1
    ensures SlotsOn(kind, routes, start, count, GroupUpTo(kind, j, |routes[j].stations|, direction, size, size))
  {
    var n := |routes[j].stations|;
    var g := GroupUpTo(kind, j, n, direction, size, size);
    forall q | 0 <= q < |g|
      ensures g[q] == Slot(kind, j, n, direction, q, size)
    {
      GroupUpToAt(kind, j, n, direction, size, size, q);
    }
  }

  lemma SlotsOnAppend(kind: VehicleType, routes: seq<Route>, start: nat, count: nat, a: seq<Slot>, b: seq<Slot>)
    requires SlotsOn(kind, routes, start, count, a) && SlotsOn(kind, routes, start, count, b)
    ensures SlotsOn(kind, routes, start, count, a + b)
  {
    forall q | 0 <= q < |a + b|
      ensures (a + b)[q] == if q < |a| then a[q] else b[q - |a|]
    {
    }
  }

  lemma SlotsOnWiden(kind: VehicleType, routes: seq<Route>, start: nat, count: nat, wider: nat, s: seq<Slot>)
    requires count <= wider && SlotsOn(kind, routes, start, count, s)
    ensures SlotsOn(kind, routes, start, wider, s)
  {
  }

  lemma {:induction false} RangeSlotsOn(kind: VehicleType, routes: seq<Route>, start: nat, count: nat, split: Split)
    ensures SlotsOn(kind, routes, start, count, RangeSlots(kind, routes, start, count, split))
    decreases count
  {
    if count > 0 {
      var k := start + count - 1;
      var earlier := RangeSlots(kind, routes, start, count - 1, split);
      var last := if k < |routes| then RouteSlots(kind, k, |routes[k].stations|, split) else [];
      RangeSlotsOn(kind, routes, start, count - 1, split);
      SlotsOnWiden(kind, routes, start, count - 1, count, earlier);
      if k < |routes| {
        RouteSlotsOn(kind, routes, start, count, split, k);
      }
      SlotsOnAppend(kind, routes, start, count, earlier, last);
    }
  }

  predicate AllValid(slots: seq<Slot>) {
    forall q :: 0 <= q < |slots| ==> SlotValid(slots[q])
  }

  /** Every slot is valid and names an existing route with that route's
      station count, whatever its kind or range. */
  predicate Grounded(routes: seq<Route>, slots: seq<Slot>) {
    forall q :: 0 <= q < |slots| ==>
      SlotValid(slots[q]) && slots[q].routeIndex < |routes|
      && slots[q].stations == |routes[slots[q].routeIndex].stations|
  }

  lemma SlotsOnGrounded(kind: VehicleType, routes: seq<Route>, start: nat, count: nat, s: seq<Slot>)
    requires SlotsOn(kind, routes, start, count, s)
    ensures Grounded(routes, s)
  {
  }

  lemma GroundedAppend(routes: seq<Route>, a: seq<Slot>, b: seq<Slot>)
    requires Grounded(routes, a) && Grounded(routes, b)
    ensures Grounded(routes, a + b)
  {
    forall q | 0 <= q < |a + b|
      ensures (a + b)[q] == if q < |a| then a[q] else b[q - |a|]
    {
    }
  }

  /** Two ranges of slots, one after the other, stay grounded. */
  lemma RangesGrounded(routes: seq<Route>, kindA: VehicleType, startA: nat, countA: nat, splitA: Split,
                       kindB: VehicleType, startB: nat, countB: nat, splitB: Split)
    ensures Grounded(routes, RangeSlots(kindA, routes, startA, countA, splitA) + RangeSlots(kindB, routes, startB, countB, splitB))
  {
    var a := RangeSlots(kindA, routes, startA, countA, splitA);
    var b := RangeSlots(kindB, routes, startB, countB, splitB);
    RangeSlotsOn(kindA, routes, startA, countA, splitA);
    RangeSlotsOn(kindB, routes, startB, countB, splitB);
    SlotsOnGrounded(kindA, routes, startA, countA, a);
    SlotsOnGrounded(kindB, routes, startB, countB, b);
    GroundedAppend(routes, a, b);
  }

  /** Per-route, per-direction count of the vehicles spawned for two
      consecutive ranges: each route of either range contributes its share. */
  lemma RangesHeading(routes: seq<Route>, kindA: VehicleType, startA: nat, countA: nat, splitA: Split,
                      kindB: VehicleType, startB: nat, countB: nat, splitB: Split,
                      rng: nat -> real, cursor: nat, j: nat, d: int, shareA: nat, shareB: nat)
    requires Grounded(routes, RangeSlots(kindA, routes, startA, countA, splitA) + RangeSlots(kindB, routes, startB, countB, splitB))
    requires shareA == if startA <= j < startA + countA && j < |routes| && |routes[j].stations| >= 2 then Share(splitA, d) else 0
    requires shareB == if startB <= j < startB + countB && j < |routes| && |routes[j].stations| >= 2 then Share(splitB, d) else 0
    ensures CountHeading(Spawned(RangeSlots(kindA, routes, startA, countA, splitA) + RangeSlots(kindB, routes, startB, countB, splitB), rng, cursor), j, d)
              == shareA + shareB
  {
    var a := RangeSlots(kindA, routes, startA, countA, splitA);
    var b := RangeSlots(kindB, routes, startB, countB, splitB);
    SpawnedHeading(a + b, rng, cursor, j, d);
    CountSlotsAppend(a, b, j, d);
    RangeCount(kindA, routes, startA, countA, splitA, j, d);
    RangeCount(kindB, routes, startB, countB, splitB, j, d);
  }

  /** A range of buses followed by a range of trains, every route of both
      present with at least two stations: once spawned and moved, the fleet
      holds exactly the sizes of the two ranges as buses and as trains. */
  lemma RangesPlacedTypes(routes: seq<Route>, startA: nat, countA: nat, splitA: Split,
                          startB: nat, countB: nat, splitB: Split, rng: nat -> real, cursor: nat,
                          slots: seq<Slot>, sizeA: nat, sizeB: nat)
    requires startA + countA <= |routes| && startB + countB <= |routes|
    requires forall j :: startA <= j < startA + countA ==> |routes[j].stations| >= 2
    requires forall j :: startB <= j < startB + countB ==> |routes[j].stations| >= 2
    requires slots == RangeSlots(Bus, routes, startA, countA, splitA) + RangeSlots(Train, routes, startB, countB, splitB)
    requires sizeA == countA * (splitA.forward + splitA.backward)
    requires sizeB == countB * (splitB.forward + splitB.backward)
    ensures Grounded(routes, slots)
    ensures AllValid(slots)
    ensures FleetMovable(routes, Spawned(slots, rng, cursor))
    ensures var placed := Place(routes, Spawned(slots, rng, cursor));
            |placed| == sizeA + sizeB && CountType(placed, Bus) == sizeA && CountType(placed, Train) == sizeB
  {
    var a := RangeSlots(Bus, routes, startA, countA, splitA);
    var b := RangeSlots(Train, routes, startB, countB, splitB);
    RangesGrounded(routes, Bus, startA, countA, splitA, Train, startB, countB, splitB);
    GroundedMovable(routes, a + b, rng, cursor);
    RangeSize(Bus, routes, startA, countA, splitA);
    RangeSize(Train, routes, startB, countB, splitB);
    RangeSlotsOn(Bus, routes, startA, countA, splitA);
    RangeSlotsOn(Train, routes, startB, countB, splitB);
    PlacedTypes(routes, a, b, rng, cursor);
  }

  /** Spawning and moving bus slots followed by train slots keeps the
      counts of each kind. */
  lemma PlacedTypes(routes: seq<Route>, a: seq<Slot>, b: seq<Slot>, rng: nat -> real, cursor: nat)
    requires Grounded(routes, a + b)
    requires forall q :: 0 <= q < |a| ==> a[q].kind == Bus
    requires forall q :: 0 <= q < |b| ==> b[q].kind == Train
    ensures FleetMovable(routes, Spawned(a + b, rng, cursor))
    ensures var placed := Place(routes, Spawned(a + b, rng, cursor));
            |placed| == |a| + |b| && CountType(placed, Bus) == |a| && CountType(placed, Train) == |b|
  {
    GroundedMovable(routes, a + b, rng, cursor);
    var placed := Place(routes, Spawned(a + b, rng, cursor));
    forall q | 0 <= q < |placed|
      ensures placed[q].vehicleType == if q < |a| then Bus else Train
    {
      assert placed[q].vehicleType == (a + b)[q].kind;
      if q >= |a| {
        assert (a + b)[q] == b[q - |a|];
      }
    }
    CountTypeSplit(placed, |a|);
  }

  /** Vehicles spawned for grounded slots can all be moved along the routes
      they name. */
  lemma GroundedMovable(routes: seq<Route>, slots: seq<Slot>, rng: nat -> real, cursor: nat)
    requires Grounded(routes, slots)
    ensures AllValid(slots)
    ensures FleetMovable(routes, Spawned(slots, rng, cursor))
  {
  }

  /** The vehicles built for `slots`, before their first move; the q-th one
      reads the random values at `cursor + 2q` (fraction) and
      `cursor + 2q + 1` (speed), as the spawn loops call `Math::random`
      twice per vehicle in slot order. */
  function Spawned(slots: seq<Slot>, rng: nat -> real, cursor: nat): (v: seq<Vehicle>)
    requires AllValid(slots)
    ensures |v| == |slots|
    ensures forall q :: 0 <= q < |v| ==>
              && v[q].vehicleType == slots[q].kind && v[q].routeIndex == slots[q].routeIndex
              && v[q].direction == slots[q].direction
              && OnSegment(MotionOf(v[q]), slots[q].stations)
  {
    seq(|slots|, q requires 0 <= q < |slots| => PreSpawn(slots[q], rng(cursor + 2 * q), rng(cursor + 2 * q + 1)))
  }

  /** With random values in [0,1), the q-th spawned vehicle starts in the
      `i`-th slice of its group and moves at a speed in [0.005, 0.015). */
  lemma SpawnedInSlices(slots: seq<Slot>, rng: nat -> real, cursor: nat, q: nat)
    requires AllValid(slots) && UnitStream(rng) && q < |slots|
    ensures var v := Spawned(slots, rng, cursor)[q];
            var s := slots[q];
            && (s.i as real) / (s.count as real) <= v.fraction < ((s.i + 1) as real) / (s.count as real)
            && 0.0 <= v.fraction < 1.0
            && 0.005 <= v.speed < 0.015
  {
    var s := slots[q];
    SliceFractionInSlice(s.i, s.count, rng(cursor + 2 * q));
    assert 0.0 <= rng(cursor + 2 * q + 1) < 1.0;
  }

  /** Number of vehicles of `s` on route `j` heading in direction `d`. */
  function CountHeading(s: seq<Vehicle>, j: nat, d: int): (c: nat)
    ensures c <= |s|
  {
    if |s| == 0 then 0
    else CountHeading(s[..|s| - 1], j, d) + (if s[|s| - 1].routeIndex == j && s[|s| - 1].direction == d then 1 else 0)
  }

  /** Vehicles that agree with their slots on route and direction count
      the same per route and direction. */
  lemma {:induction false} HeadingTransfer(v: seq<Vehicle>, slots: seq<Slot>, j: nat, d: int)
    requires |v| == |slots|
    requires forall q :: 0 <= q < |v| ==> v[q].routeIndex == slots[q].routeIndex && v[q].direction == slots[q].direction
    ensures CountHeading(v, j, d) == CountSlots(slots, j, d)
    decreases |v|
  {
    if |v| > 0 {
      HeadingTransfer(v[..|v| - 1], slots[..|slots| - 1], j, d);
    }
  }

  /** The spawned vehicles count per route and direction exactly as their
      slots do. */
  lemma SpawnedHeading(slots: seq<Slot>, rng: nat -> real, cursor: nat, j: nat, d: int)
    requires AllValid(slots)
    ensures CountHeading(Spawned(slots, rng, cursor), j, d) == CountSlots(slots, j, d)
  {
    HeadingTransfer(Spawned(slots, rng, cursor), slots, j, d);
  }

  /** Vehicles spawned for the slots of a range can all be moved along the
      routes they name. */
  lemma SpawnedMovable(kind: VehicleType, routes: seq<Route>, start: nat, count: nat, slots: seq<Slot>,
                       rng: nat -> real, cursor: nat)
    requires SlotsOn(kind, routes, start, count, slots)
    ensures AllValid(slots)
    ensures FleetMovable(routes, Spawned(slots, rng, cursor))
  {
  }

  /** `v` is `p` after one `update_position` on `route`: same speed, the
      kinematic step taken, the fraction back below one, and (when the
      fraction and speed it started with are not negative) a position between
      its two current stations. */
  predicate MovedOnce(route: Route, p: Vehicle, v: Vehicle) {
    && v.speed == p.speed && v.fraction < 1.0
    && MotionOf(v) == Step(MotionOf(p), p.speed, |route.stations|)
    && (0.0 <= p.fraction && 0.0 <= p.speed && Movable(v, route) ==>
          0.0 <= v.fraction &&
          Between(Point(v.x, v.y), route.stations[v.lastStation], route.stations[v.nextStation]))
  }

  /** Move every planned vehicle once along its own route, as `init_vehicles`
      does right after building each vehicle. */
  function Place(routes: seq<Route>, plan: seq<Vehicle>): (r: seq<Vehicle>)
    requires FleetMovable(routes, plan)
    ensures |r| == |plan|
    ensures FleetMovable(routes, r)
    ensures forall i :: 0 <= i < |r| ==>
              r[i].vehicleType == plan[i].vehicleType && r[i].routeIndex == plan[i].routeIndex
    ensures forall i :: 0 <= i < |r| ==>
              (OnSegment(MotionOf(plan[i]), |routes[plan[i].routeIndex].stations|) ==>
               OnSegment(MotionOf(r[i]), |routes[r[i].routeIndex].stations|))
    ensures forall i {:trigger MovedOnce(routes[plan[i].routeIndex], plan[i], r[i])} ::
              0 <= i < |r| ==> MovedOnce(routes[plan[i].routeIndex], plan[i], r[i])
  {
    seq(|plan|, i requires 0 <= i < |plan| => Advance(plan[i], routes[plan[i].routeIndex]))
  }
}
