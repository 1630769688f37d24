/** The simulation control record of the canvas UI (sim/src/ui/control.rs)
    and the control panel conversions (sim/src/ui/input/simulation_control.rs
    and its earlier copy sim/src/ui/input.rs): pause flag, tick interval,
    the one-shot interval calibration, vehicle counts per type, the FPS
    slider conversions and the button labels. */
module Control {
  import opened Common
  import opened SimVehicle

  datatype VehicleCounts = VehicleCounts(buses: nat, trains: nat, total: nat)

  /** `SimulationControl`; the interval and frame counter are `u32` in the
      source and never leave the small range the handlers write. */
  datatype SimulationControl = SimulationControl(
    paused: bool,
    updateIntervalMs: nat,
    autoAdjust: bool,
    frameCount: nat,
    totalFrameTime: real,
    counts: VehicleCounts)

  /** The initial control: running, a 16 ms interval, calibration on, no
      frames measured and all counts zero. */
  function InitialControl(): (c: SimulationControl)
    ensures !c.paused && c.autoAdjust && c.frameCount == 0 && c.totalFrameTime == 0.0
    ensures c.updateIntervalMs == FastInterval
    ensures c.counts == VehicleCounts(0, 0, 0)
  {
    SimulationControl(false, 16, true, 0, 0.0, VehicleCounts(0, 0, 0))
  }

  const FastInterval: nat := 16
  const SlowInterval: nat := 33
  const CalibrationFrames: nat := 10

  /** The counts of a fleet: buses, trains and their sum. */
  function Counts(vehicles: seq<Vehicle>): (c: VehicleCounts)
    ensures c.buses == CountType(vehicles, Bus) && c.trains == CountType(vehicles, Train)
    ensures c.total == c.buses + c.trains == |vehicles|
  {
    CountTypesCover(vehicles);
    VehicleCounts(CountType(vehicles, Bus), CountType(vehicles, Train), CountType(vehicles, Bus) + CountType(vehicles, Train))
  }

  /** The counting loop of `update_vehicle_counts`: one pass over the
      fleet, bumping the counter of each vehicle's type. */
  method CountVehicles(vehicles: seq<Vehicle>) returns (c: VehicleCounts)
    ensures c == Counts(vehicles)
  {
    var buses := 0;
    var trains := 0;
    var i := 0;
    while i < |vehicles|
      invariant 0 <= i <= |vehicles|
      invariant buses == CountType(vehicles[..i], Bus) && trains == CountType(vehicles[..i], Train)
    {
      assert vehicles[..i + 1][..i] == vehicles[..i];
      match vehicles[i].vehicleType {
        case Bus => buses := buses + 1;
        case Train => trains := trains + 1;
      }
      i := i + 1;
    }
    assert vehicles[..i] == vehicles;
    c := VehicleCounts(buses, trains, buses + trains);
  }

  /** `update_vehicle_counts`: only the counts change. */
  function UpdateVehicleCounts(c: SimulationControl, vehicles: seq<Vehicle>): (r: SimulationControl)
    ensures r.counts == Counts(vehicles)
    ensures r.(counts := c.counts) == c
  {
    c.(counts := Counts(vehicles))
  }

  /** `get_vehicle_counts`: the counts stored by the last update. */
  function GetVehicleCounts(c: SimulationControl): VehicleCounts {
    c.counts
  }

  /** Reading the counts back gives what the last update stored, and
      nothing else about the control changes in between. */
  lemma CountsReadBack(c: SimulationControl, vehicles: seq<Vehicle>)
    ensures GetVehicleCounts(UpdateVehicleCounts(c, vehicles)) == Counts(vehicles)
    ensures GetVehicleCounts(UpdateVehicleCounts(c, vehicles)).total == |vehicles|
  {
  }

  /** `auto_adjust_interval`: the first ten calls accumulate frame times;
      the tenth sets the interval to 33 ms when the average exceeds 8 ms
      and to 16 ms otherwise, and turns calibration off. */
  function AutoAdjustInterval(c: SimulationControl, frameTimeMs: real): (r: SimulationControl)
    ensures c.frameCount >= CalibrationFrames ==> r == c
    ensures c.frameCount < CalibrationFrames ==>
              r.frameCount == c.frameCount + 1 && r.totalFrameTime == c.totalFrameTime + frameTimeMs
    ensures r.frameCount < CalibrationFrames ==> r.updateIntervalMs == c.updateIntervalMs && r.autoAdjust == c.autoAdjust
    ensures r.paused == c.paused && r.counts == c.counts
  {
    if c.frameCount < CalibrationFrames then
      var d := c.(totalFrameTime := c.totalFrameTime + frameTimeMs, frameCount := c.frameCount + 1);
      if d.frameCount == CalibrationFrames then
        d.(updateIntervalMs := if d.totalFrameTime / 10.0 > 8.0 then SlowInterval else FastInterval, autoAdjust := false)
      else d
    else c
  }

  /** Feed a sequence of frame times, one call per frame. */
  function Feed(c: SimulationControl, times: seq<real>): SimulationControl
    decreases |times|
  {
    if |times| == 0 then c else Feed(AutoAdjustInterval(c, times[0]), times[1..])
  }

  function Sum(s: seq<real>): real {
    if |s| == 0 then 0.0 else s[0] + Sum(s[1..])
  }

  /** Calibration runs once: from the initial control, ten or more frames
      leave the interval decided by the average of the first ten, and
      calibration off; every later frame is ignored. */
  lemma CalibrateOnce(times: seq<real>)
    requires |times| >= CalibrationFrames
    ensures var c := Feed(InitialControl(), times);
            && c.frameCount == CalibrationFrames
            && c.totalFrameTime == Sum(times[..CalibrationFrames])
            && c.updateIntervalMs == (if Sum(times[..CalibrationFrames]) / 10.0 > 8.0 then SlowInterval else FastInterval)
            && !c.autoAdjust
  {
    FeedPrefix(InitialControl(), times[..CalibrationFrames]);
    FeedAfter(Feed(InitialControl(), times[..CalibrationFrames]), times[CalibrationFrames..]);
    FeedSplit(InitialControl(), times[..CalibrationFrames], times[CalibrationFrames..]);
    assert times[..CalibrationFrames] + times[CalibrationFrames..] == times;
  }

  /** Feeding `k` frames before calibration ends just accumulates them. */
  lemma {:induction false} FeedPrefix(c: SimulationControl, times: seq<real>)
    requires c.frameCount + |times| <= CalibrationFrames
    ensures var r := Feed(c, times);
            && r.frameCount == c.frameCount + |times|
            && r.totalFrameTime == c.totalFrameTime + Sum(times)
            && (r.frameCount < CalibrationFrames ==> r.updateIntervalMs == c.updateIntervalMs && r.autoAdjust == c.autoAdjust)
            && (r.frameCount == CalibrationFrames && |times| > 0 ==>
                  r.updateIntervalMs == (if r.totalFrameTime / 10.0 > 8.0 then SlowInterval else FastInterval) && !r.autoAdjust)
    decreases |times|
  {
    if |times| > 0 {
      var d := AutoAdjustInterval(c, times[0]);
      FeedPrefix(d, times[1..]);
      if |times| > 1 {
        assert d.frameCount < CalibrationFrames;
      }
    }
  }

  /** Once ten frames are counted, further frames change nothing. */
  lemma {:induction false} FeedAfter(c: SimulationControl, times: seq<real>)
    requires c.frameCount >= CalibrationFrames
    ensures Feed(c, times) == c
    decreases |times|
  {
    if |times| > 0 {
      FeedAfter(AutoAdjustInterval(c, times[0]), times[1..]);
    }
  }

  lemma {:induction false} FeedSplit(c: SimulationControl, a: seq<real>, b: seq<real>)
    ensures Feed(c, a + b) == Feed(Feed(c, a), b)
    decreases |a|
  {
    if |a| > 0 {
      assert (a + b)[1..] == a[1..] + b;
      FeedSplit(AutoAdjustInterval(c, a[0]), a[1..], b);
    } else {
      assert a + b == b;
    }
  }

  /** The FPS first shown: `1000 / interval`, or 30 for a zero interval. */
  function InitialFps(intervalMs: nat): (fps: nat)
    ensures intervalMs > 0 ==> fps * intervalMs <= 1000 < (fps + 1) * intervalMs
    ensures intervalMs == 0 ==> fps == 30
  {
    if intervalMs > 0 then 1000 / intervalMs else 30
  }

  /** The interval for a slider FPS: `1000 / fps`, or 33 for 0 FPS. */
  function SliderInterval(fps: nat): (ms: nat)
    ensures fps > 0 ==> ms * fps <= 1000 < (ms + 1) * fps
    ensures fps == 0 ==> ms == SlowInterval
  {
    if fps > 0 then 1000 / fps else 33
  }

  /** The two integer conversions lose at most downwards: converting an
      FPS of at most 1000 to an interval and back never shows a lower FPS,
      and likewise for intervals; the default 16 ms survives the round
      trip exactly. */
  lemma FpsRoundTrip(fps: nat, ms: nat)
    ensures 0 < fps <= 1000 ==> SliderInterval(fps) > 0 && InitialFps(SliderInterval(fps)) >= fps
    ensures 0 < ms <= 1000 ==> InitialFps(ms) > 0 && SliderInterval(InitialFps(ms)) >= ms
    ensures SliderInterval(InitialFps(FastInterval)) == FastInterval
  {
    if 0 < fps <= 1000 {
      var m := SliderInterval(fps);
      assert m > 0;
      LargestMultiple(InitialFps(m), fps, m);
    }
    if 0 < ms <= 1000 {
      var f := InitialFps(ms);
      assert f > 0;
      LargestMultiple(SliderInterval(f), ms, f);
    }
  }

  /** `f` is the largest multiplier of `m` within 1000, so any other
      multiplier within 1000 is at most `f`. */
  lemma LargestMultiple(f: nat, g: nat, m: nat)
    requires m > 0 && f * m <= 1000 < (f + 1) * m
    requires m * g <= 1000
    ensures g <= f
  {
    if g > f {
      MulMono(f + 1, g, m);
    }
  }

  lemma MulMono(a: nat, b: nat, m: nat)
    requires a <= b
    ensures a * m <= m * b
  {
    assert m * b == a * m + (b - a) * m;
  }

  /** A slider change: the text is parsed as `u32`; text that does not
      parse changes nothing, otherwise the new interval is requested. */
  function SliderChange(text: string, parseU32: string -> Option<nat>): (r: Option<nat>)
    ensures parseU32(text).None? <==> r.None?
    ensures r.Some? ==> r.value == SliderInterval(parseU32(text).value)
  {
    match parseU32(text)
    case None => None
    case Some(fps) => Some(SliderInterval(fps))
  }

  /** Label of the pause button after a toggle. */
  function PauseLabel(paused: bool): (s: string)
    ensures s == "Resume" <==> paused
  {
    if paused then "Resume" else "Pause"
  }

  /** Label of the follow button after a toggle. */
  function FollowLabel(following: bool): (s: string)
    ensures s == "Stop Following" <==> following
    ensures !following ==> s == "Follow Selected Vehicle"
  {
    if following then "Stop Following" else "Follow Selected Vehicle"
  }
}
