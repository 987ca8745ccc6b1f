/**
 The IoT-facing sensor wrapper: it holds the active strategy (possibly none), scores
 each fresh sample and keeps the last sample, metrics and score for later reports.
 */
module FilterSaturationSensor {
  import opened Wrappers
  import opened SensorReadings
  import opened SaturationStrategy

  /** The wrapper's mutable fields; `strategy` is `None` where the firmware holds a null pointer. */
  datatype Sensor = Sensor(strategy: Option<Strategy>, value: real, lastRGB: RGB, lastHSV: HSV, lastChroma: real)

  /** Result of one `getValue` call: the updated wrapper and the number returned. */
  datatype Poll = Poll(sensor: Sensor, result: real)

  /** The constructor: no reading yet, so every remembered quantity is zero. */
  function NewSensor(strategy: Option<Strategy>): (s: Sensor)
    ensures s.strategy == strategy
    ensures s.value == 0.0 && s.lastChroma == 0.0
    ensures s.lastRGB == RGB(0, 0, 0) && s.lastHSV == HSV(0.0, 0.0, 0.0)
  {
    Sensor(strategy, 0.0, RGB(0, 0, 0), HSV(0.0, 0.0, 0.0), 0.0)
  }

  /** `setStrategy`: a null argument is ignored, anything else replaces the strategy. */
  function SetStrategy(s: Sensor, strategy: Option<Strategy>): (r: Sensor)
    ensures strategy.None? ==> r == s
    ensures strategy.Some? ==> r.strategy == strategy
    ensures r.value == s.value && r.lastRGB == s.lastRGB && r.lastHSV == s.lastHSV && r.lastChroma == s.lastChroma
  {
    if strategy.Some? then s.(strategy := strategy) else s
  }

  /** `getLastValue`: on a reachable wrapper, a percentage, and 0 while there is no strategy. */
  function GetLastValue(s: Sensor): (v: real)
    ensures Coherent(s) ==> 0.0 <= v <= 100.0
    ensures Coherent(s) && s.strategy.None? ==> v == 0.0
  {
    s.value
  }

  /** The strategy the wrapper holds can be evaluated under `cal` (or there is none). */
  predicate Ready(s: Sensor, cal: FilterCalibration)
  {
    s.strategy.Some? ==> Defined(s.strategy.value, cal)
  }

  /**
   `getValue`: without a strategy it returns 0 and changes nothing; otherwise it takes
   the driver's sample `raw`, remembers it with its derived metrics, scores it with
   the current strategy and returns that score. The mix weights and the calibration
   are those of the shared strategy instances.
   */
  function GetValue(s: Sensor, raw: RGB, lib: ColorLibrary, mix: Weights, cal: FilterCalibration): (p: Poll)
    requires Ready(s, cal)
    ensures s.strategy.None? ==> p.result == 0.0 && p.sensor == s
    ensures s.strategy.Some? ==>
      && p.sensor.lastRGB == raw
      && p.sensor.lastHSV == lib.hsvOf(raw)
      && p.sensor.lastChroma == lib.chromaOf(raw)
      && p.result == Calculate(s.strategy.value, mix, MakeReadings(raw, lib), cal)
    ensures p.sensor.strategy == s.strategy
    ensures s.strategy.Some? ==> GetLastValue(p.sensor) == p.result
    ensures 0.0 <= p.result <= 100.0
  {
    match s.strategy
    case None => Poll(s, 0.0)
    case Some(strategy) =>
      var readings := MakeReadings(raw, lib);
      var score := Calculate(strategy, mix, readings, cal);
      Poll(s.(lastRGB := raw, lastHSV := readings.hsv, lastChroma := readings.chroma, value := score), score)
  }

  /**
   The stored value is a score (or the constructor's 0), so it lies in [0, 100];
   a wrapper without a strategy has never scored anything, so its value is still 0.
   */
  predicate Coherent(s: Sensor)
  {
    0.0 <= s.value <= 100.0 && (s.strategy.None? ==> s.value == 0.0)
  }

  /**
   Every reachable wrapper is coherent, so `getLastValue` reports exactly what the
   last `getValue` returned, with or without a strategy.
   */
  lemma LastValueReportsResult(s: Sensor, strategy: Option<Strategy>, raw: RGB, lib: ColorLibrary,
                               mix: Weights, cal: FilterCalibration)
    requires Coherent(s)
    requires Ready(s, cal)
    ensures Coherent(NewSensor(strategy))
    ensures Coherent(SetStrategy(s, strategy))
    ensures Coherent(GetValue(s, raw, lib, mix, cal).sensor)
    ensures GetLastValue(GetValue(s, raw, lib, mix, cal).sensor) == GetValue(s, raw, lib, mix, cal).result
  {
  }

  /** C++'s float-to-int conversion, which rounds toward zero. */
  function Truncate(x: real): (n: int)
    ensures 0.0 <= x ==> 0 <= n && n as real <= x < n as real + 1.0
    ensures x < 0.0 ==> n <= 0 && n as real - 1.0 < x <= n as real
  {
    if 0.0 <= x then x.Floor else -((-x).Floor)
  }

  /** Rounding toward zero is symmetric about zero and leaves whole numbers alone. */
  lemma TruncateSymmetric(x: real, k: int)
    ensures Truncate(-x) == -Truncate(x)
    ensures Truncate(k as real) == k
  {
  }

  const BarCells := 20

  /**
   The progress bar of `printValues`: 20 cells, cell `i` filled (`=`) exactly when
   `i < (int)(value / 5)`. `filled` is the number of filled cells.
   */
  method ProgressBar(value: real) returns (bar: string, filled: nat)
    ensures |bar| == BarCells
    ensures filled == if Truncate(value / 5.0) < 0 then 0
                      else if Truncate(value / 5.0) > BarCells then BarCells
                      else Truncate(value / 5.0)
    ensures forall i :: 0 <= i < |bar| ==> (bar[i] == '=' <==> i < filled)
    ensures forall i :: 0 <= i < |bar| ==> (bar[i] == '=' || bar[i] == ' ')
    ensures 0.0 <= value <= 100.0 ==> filled == (value / 5.0).Floor
  {
    var bars := Truncate(value / 5.0);
    bar, filled := [], 0;
    var i := 0;
    while i < BarCells
      invariant 0 <= i <= BarCells
      invariant |bar| == i
      invariant filled == if bars < 0 then 0 else if bars > i then i else bars
      invariant forall k :: 0 <= k < i ==> (bar[k] == '=' <==> k < bars)
      invariant forall k :: 0 <= k < i ==> (bar[k] == '=' || bar[k] == ' ')
    {
      if i < bars {
        bar := bar + ['='];
        filled := filled + 1;
      } else {
        bar := bar + [' '];
      }
      i := i + 1;
    }
    if 0.0 <= value <= 100.0 {
      assert (value / 5.0).Floor <= 20;
    }
  }
}
