/**
 The operator-facing logic of the firmware's main loop: the status classifier, the
 cyclic strategy selector, the clean/dirty calibration captures and the
 "show all strategies" switch, acting on the program's global state.
 */
module Controller {
  import opened Wrappers
  import opened Constrain
  import opened SensorReadings
  import opened SaturationStrategy
  import opened FilterSaturationSensor

  // ---------------------------------------------------------------- status

  /** The five severity bands of `getSaturationStatus`. */
  datatype Status = Clean | Light | Moderate | Heavy | Saturated

  /** Bands are closed below and open above; everything from 80 up (100 included) is saturated. */
  function SaturationStatus(saturation: real): (st: Status)
    ensures st == Clean <==> saturation < 20.0
    ensures st == Light <==> 20.0 <= saturation < 40.0
    ensures st == Moderate <==> 40.0 <= saturation < 60.0
    ensures st == Heavy <==> 60.0 <= saturation < 80.0
    ensures st == Saturated <==> 80.0 <= saturation
  {
    if saturation < 20.0 then Clean
    else if saturation < 40.0 then Light
    else if saturation < 60.0 then Moderate
    else if saturation < 80.0 then Heavy
    else Saturated
  }

  /** Position of a band in the order of increasing contamination. */
  function Severity(st: Status): nat
  {
    match st
    case Clean => 0
    case Light => 1
    case Moderate => 2
    case Heavy => 3
    case Saturated => 4
  }

  /** The text `getSaturationStatus` returns for each band; each text belongs to exactly one band. */
  function Label(st: Status): (text: string)
    ensures text == "CLEAN - Good condition" <==> st == Clean
    ensures text == "LIGHT - Minor contamination" <==> st == Light
    ensures text == "MODERATE - Needs attention" <==> st == Moderate
    ensures text == "HEAVY - Replace soon" <==> st == Heavy
    ensures text == "SATURATED - Replace immediately" <==> st == Saturated
  {
    match st
    case Clean => "CLEAN - Good condition"
    case Light => "LIGHT - Minor contamination"
    case Moderate => "MODERATE - Needs attention"
    case Heavy => "HEAVY - Replace soon"
    case Saturated => "SATURATED - Replace immediately"
  }

  /** `getSaturationStatus` itself: the score's band, as the text the firmware prints. */
  function StatusText(saturation: real): (text: string)
    ensures text == "CLEAN - Good condition" <==> saturation < 20.0
    ensures text == "LIGHT - Minor contamination" <==> 20.0 <= saturation < 40.0
    ensures text == "MODERATE - Needs attention" <==> 40.0 <= saturation < 60.0
    ensures text == "HEAVY - Replace soon" <==> 60.0 <= saturation < 80.0
    ensures text == "SATURATED - Replace immediately" <==> 80.0 <= saturation
  {
    Label(SaturationStatus(saturation))
  }

  /** A higher score never yields a less severe band. */
  lemma StatusMonotone(a: real, b: real)
    requires a <= b
    ensures Severity(SaturationStatus(a)) <= Severity(SaturationStatus(b))
  {
  }

  /** Each band's lower bound is its own, its upper bound belongs to the next band. */
  lemma StatusBoundaries()
    ensures SaturationStatus(19.9) == Clean && SaturationStatus(20.0) == Light
    ensures SaturationStatus(39.9) == Light && SaturationStatus(40.0) == Moderate
    ensures SaturationStatus(59.9) == Moderate && SaturationStatus(60.0) == Heavy
    ensures SaturationStatus(79.9) == Heavy && SaturationStatus(80.0) == Saturated
    ensures SaturationStatus(100.0) == Saturated
  {
  }

  // ------------------------------------------------------------ calibration

  /** The compiled-in `calibration` record. */
  function DefaultCalibration(): (cal: FilterCalibration)
    ensures Nondegenerate(cal)
    ensures cal.cleanChroma < cal.dirtyChroma && cal.cleanHSVSat < cal.dirtyHSVSat
    ensures cal.dirtyValue < cal.cleanValue && cal.dirtyBlueRatio < cal.cleanBlueRatio
  {
    FilterCalibration(
      cleanChroma := 0.5, dirtyChroma := 1.0,
      cleanValue := 0.80, dirtyValue := 0.40,
      cleanBlueRatio := 0.34, dirtyBlueRatio := 0.10,
      cleanHSVSat := 0.10, dirtyHSVSat := 0.95)
  }

  /** The four clean references become the metrics of `rd`; the dirty references stay. */
  function CaptureClean(cal: FilterCalibration, rd: Readings): (r: FilterCalibration)
    ensures r.cleanChroma == rd.chroma && r.cleanValue == rd.hsv.value
    ensures r.cleanBlueRatio == BlueFraction(rd.rgb) && r.cleanHSVSat == rd.hsv.saturation
    ensures r.dirtyChroma == cal.dirtyChroma && r.dirtyValue == cal.dirtyValue
    ensures r.dirtyBlueRatio == cal.dirtyBlueRatio && r.dirtyHSVSat == cal.dirtyHSVSat
  {
    cal.(cleanChroma := rd.chroma, cleanValue := rd.hsv.value,
         cleanBlueRatio := BlueFraction(rd.rgb), cleanHSVSat := rd.hsv.saturation)
  }

  /** The four dirty references become the metrics of `rd`; the clean references stay. */
  function CaptureDirty(cal: FilterCalibration, rd: Readings): (r: FilterCalibration)
    ensures r.dirtyChroma == rd.chroma && r.dirtyValue == rd.hsv.value
    ensures r.dirtyBlueRatio == BlueFraction(rd.rgb) && r.dirtyHSVSat == rd.hsv.saturation
    ensures r.cleanChroma == cal.cleanChroma && r.cleanValue == cal.cleanValue
    ensures r.cleanBlueRatio == cal.cleanBlueRatio && r.cleanHSVSat == cal.cleanHSVSat
  {
    cal.(dirtyChroma := rd.chroma, dirtyValue := rd.hsv.value,
         dirtyBlueRatio := BlueFraction(rd.rgb), dirtyHSVSat := rd.hsv.saturation)
  }

  /** The two captures write disjoint fields, so their order does not matter. */
  lemma CapturesCommute(cal: FilterCalibration, clean: Readings, dirty: Readings)
    ensures CaptureDirty(CaptureClean(cal, clean), dirty) == CaptureClean(CaptureDirty(cal, dirty), clean)
  {
  }

  /**
   A sample captured as the clean reference scores 0 on every calibrated strategy
   that is still defined; one captured as the dirty reference scores 100.
   */
  lemma CapturedSampleScoresEndpoint(cal: FilterCalibration, rd: Readings, w: Weights)
    ensures var c := CaptureClean(cal, rd);
      forall s | s in {HSVSaturation, Chroma, Brightness, BlueRatio} && Defined(s, c) :: Calculate(s, w, rd, c) == 0.0
    ensures var d := CaptureDirty(cal, rd);
      forall s | s in {HSVSaturation, Chroma, Brightness, BlueRatio} && Defined(s, d) :: Calculate(s, w, rd, d) == 100.0
  {
  }

  /**
   Capturing clean and then dirty from the same sample makes every pair equal: the
   calibration is degenerate and only Brown Score can still be evaluated.
   */
  lemma SameSampleCollapses(cal: FilterCalibration, rd: Readings)
    ensures Collapsed(CaptureDirty(CaptureClean(cal, rd), rd))
    ensures forall s: Strategy :: Defined(s, CaptureDirty(CaptureClean(cal, rd), rd)) <==> s == BrownScore
  {
  }

  // ---------------------------------------------------------------- station

  const StrategyCount := 6

  /** The `strategies[]` array, in its declared order. */
  const Strategies: seq<Strategy> := [WeightedMix, BrownScore, HSVSaturation, Chroma, Brightness, BlueRatio]

  /**
   The program's globals: the shared calibration, the weighted mix's weights, the
   selector's index and current strategy, the "show all" flag and the wrapper, which
   is `None` until `setup` creates it.
   */
  datatype Station = Station(
    calibration: FilterCalibration,
    mix: Weights,
    index: int,
    current: Strategy,
    showAll: bool,
    sensor: Option<Sensor>)

  /** The selector's invariant: the index is in range and names the current strategy, which the wrapper also holds. */
  predicate Consistent(st: Station)
  {
    && 0 <= st.index < StrategyCount
    && st.current == Strategies[st.index]
    && (st.sensor.Some? ==> st.sensor.value.strategy == Some(st.current))
  }

  /** The globals as initialised before `setup` runs. */
  function Boot(): (st: Station)
    ensures Consistent(st)
    ensures st.current == BrownScore && st.index == 1
    ensures !st.showAll && st.sensor.None?
    ensures Nondegenerate(st.calibration) && Convex(st.mix)
  {
    Station(DefaultCalibration(), DefaultWeights(), 1, BrownScore, false, None)
  }

  /** `setup`: creates the wrapper with the current strategy. */
  function Setup(st: Station): (r: Station)
    requires Consistent(st)
    ensures Consistent(r)
    ensures r.sensor.Some? && r.sensor.value == NewSensor(Some(st.current))
    ensures r.(sensor := st.sensor) == st
  {
    st.(sensor := Some(NewSensor(Some(st.current))))
  }

  /** `switchStrategy`: advance the index cyclically and hand the new strategy to the wrapper, if any. */
  function SwitchStrategy(st: Station): (r: Station)
    requires 0 <= st.index < StrategyCount
    ensures Consistent(r)
    ensures r.index == (st.index + 1) % StrategyCount
    ensures r.calibration == st.calibration && r.mix == st.mix && r.showAll == st.showAll
    ensures r.sensor.Some? <==> st.sensor.Some?
    ensures r.sensor.Some? ==> r.sensor.value == SetStrategy(st.sensor.value, Some(r.current))
  {
    var index := (st.index + 1) % StrategyCount;
    var current := Strategies[index];
    var sensor := if st.sensor.Some? then Some(SetStrategy(st.sensor.value, Some(current))) else None;
    st.(index := index, current := current, sensor := sensor)
  }

  /** Where a strategy sits in the array. */
  function IndexOf(s: Strategy): (i: int)
    ensures 0 <= i < StrategyCount && Strategies[i] == s
  {
    match s
    case WeightedMix => 0
    case BrownScore => 1
    case HSVSaturation => 2
    case Chroma => 3
    case Brightness => 4
    case BlueRatio => 5
  }

  /** `n` consecutive calls of `switchStrategy`. */
  function SwitchTimes(st: Station, n: nat): Station
    requires 0 <= st.index < StrategyCount
    decreases n
  {
    if n == 0 then st else SwitchTimes(SwitchStrategy(st), n - 1)
  }

  /** The station a consistent station reaches with its selector at `index`. */
  function SelectedAt(st: Station, index: int): Station
    requires 0 <= index < StrategyCount
  {
    var sensor := if st.sensor.Some? then Some(st.sensor.value.(strategy := Some(Strategies[index]))) else None;
    st.(index := index, current := Strategies[index], sensor := sensor)
  }

  /** After `n` switches the index has advanced by `n` modulo 6 and nothing else has changed. */
  lemma {:induction false} SwitchTimesAdvances(st: Station, n: nat)
    requires Consistent(st)
    ensures SwitchTimes(st, n) == SelectedAt(st, (st.index + n) % StrategyCount)
    decreases n
  {
    if n == 0 {
      FullTurn(st.index, 0);
      UnchangedSelection(st);
    } else {
      SwitchTimesAdvances(SwitchStrategy(st), n - 1);
      SwitchTimesStep(st, n);
    }
  }

  /** One more switch in front of `n - 1` switches advances the index by one more. */
  lemma SwitchTimesStep(st: Station, n: nat)
    requires 0 <= st.index < StrategyCount && 1 <= n
    requires var next := SwitchStrategy(st);
      SwitchTimes(next, n - 1) == SelectedAt(next, (next.index + (n - 1)) % StrategyCount)
    ensures SwitchTimes(st, n) == SelectedAt(st, (st.index + n) % StrategyCount)
  {
    ShiftIndex(st.index, n);
    SelectionForgetsPrevious(st, (st.index + n) % StrategyCount);
  }

  lemma SelectionForgetsPrevious(st: Station, j: int)
    requires 0 <= st.index < StrategyCount && 0 <= j < StrategyCount
    ensures SelectedAt(SwitchStrategy(st), j) == SelectedAt(st, j)
  {
  }

  lemma ShiftIndex(a: int, n: int)
    requires 0 <= a < StrategyCount && 1 <= n
    ensures ((a + 1) % StrategyCount + (n - 1)) % StrategyCount == (a + n) % StrategyCount
  {
  }

  lemma FullTurn(a: int, n: nat)
    requires 0 <= a < StrategyCount && n % StrategyCount == 0
    ensures (a + n) % StrategyCount == a
  {
  }

  /** The number of switches, between 1 and 6, that moves index `a` to `target`. */
  lemma StepsTo(a: int, target: int) returns (k: nat)
    requires 0 <= a < StrategyCount && 0 <= target < StrategyCount
    ensures 1 <= k <= StrategyCount && (a + k) % StrategyCount == target
  {
    k := (target - a - 1) % StrategyCount + 1;
  }

  /** Any multiple of six switches in a row brings the whole station back to where it was. */
  lemma FullCyclesReturn(st: Station, n: nat)
    requires Consistent(st)
    requires n % StrategyCount == 0
    ensures SwitchTimes(st, n) == st
  {
    calc {
      SwitchTimes(st, n);
      == { SwitchTimesAdvances(st, n); }
      SelectedAt(st, (st.index + n) % StrategyCount);
      == { FullTurn(st.index, n); }
      SelectedAt(st, st.index);
      == { UnchangedSelection(st); }
      st;
    }
  }

  lemma UnchangedSelection(st: Station)
    requires Consistent(st)
    ensures SelectedAt(st, st.index) == st
  {
    if st.sensor.Some? {
      assert st.sensor.value.(strategy := Some(st.current)) == st.sensor.value;
    }
  }

  /** Within six switches every one of the six strategies becomes current. */
  lemma SwitchingVisitsAll(st: Station, s: Strategy)
    requires Consistent(st)
    ensures exists k :: 1 <= k <= StrategyCount && SwitchTimes(st, k).current == s
  {
    var target := IndexOf(s);
    var k := StepsTo(st.index, target);
    SwitchTimesAdvances(st, k);
    assert SwitchTimes(st, k).current == s;
  }

  /** The `'a'` command: flip the "show all strategies" flag and nothing else. */
  function ToggleShowAll(st: Station): (r: Station)
    ensures r.showAll != st.showAll
    ensures r.(showAll := st.showAll) == st
  {
    st.(showAll := !st.showAll)
  }

  lemma ToggleTwice(st: Station)
    ensures ToggleShowAll(ToggleShowAll(st)) == st
  {
  }

  /** The IoT layer's periodic `getValue` on the wrapper, scored with the shared calibration and weights. */
  function Sample(st: Station, raw: RGB, lib: ColorLibrary): (r: (Station, real))
    requires Consistent(st) && st.sensor.Some?
    requires Defined(st.current, st.calibration)
    ensures Consistent(r.0)
    ensures r.0.sensor.Some? && r.0.sensor.value.lastRGB == raw
    ensures r.1 == Calculate(st.current, st.mix, MakeReadings(raw, lib), st.calibration)
    ensures r.0.(sensor := st.sensor) == st
  {
    var p := GetValue(st.sensor.value, raw, lib, st.mix, st.calibration);
    (st.(sensor := Some(p.sensor)), p.result)
  }

  /** `calibrateCleanFilter`: the wrapper's last sample becomes the clean reference. */
  function CalibrateClean(st: Station, lib: ColorLibrary): (r: Station)
    requires st.sensor.Some?
    ensures var rgb := st.sensor.value.lastRGB;
      && r.calibration.cleanChroma == lib.chromaOf(rgb) && r.calibration.cleanValue == lib.hsvOf(rgb).value
      && r.calibration.cleanBlueRatio == BlueFraction(rgb)
      && r.calibration.cleanHSVSat == lib.hsvOf(rgb).saturation
    ensures r.calibration.dirtyChroma == st.calibration.dirtyChroma && r.calibration.dirtyValue == st.calibration.dirtyValue
    ensures r.calibration.dirtyBlueRatio == st.calibration.dirtyBlueRatio && r.calibration.dirtyHSVSat == st.calibration.dirtyHSVSat
    ensures r.(calibration := st.calibration) == st
    ensures Consistent(st) ==> Consistent(r)
  {
    st.(calibration := CaptureClean(st.calibration, MakeReadings(st.sensor.value.lastRGB, lib)))
  }

  /** `calibrateDirtyFilter`: the wrapper's last sample becomes the dirty reference. */
  function CalibrateDirty(st: Station, lib: ColorLibrary): (r: Station)
    requires st.sensor.Some?
    ensures var rgb := st.sensor.value.lastRGB;
      && r.calibration.dirtyChroma == lib.chromaOf(rgb) && r.calibration.dirtyValue == lib.hsvOf(rgb).value
      && r.calibration.dirtyBlueRatio == BlueFraction(rgb)
      && r.calibration.dirtyHSVSat == lib.hsvOf(rgb).saturation
    ensures r.calibration.cleanChroma == st.calibration.cleanChroma && r.calibration.cleanValue == st.calibration.cleanValue
    ensures r.calibration.cleanBlueRatio == st.calibration.cleanBlueRatio && r.calibration.cleanHSVSat == st.calibration.cleanHSVSat
    ensures r.(calibration := st.calibration) == st
    ensures Consistent(st) ==> Consistent(r)
  {
    st.(calibration := CaptureDirty(st.calibration, MakeReadings(st.sensor.value.lastRGB, lib)))
  }

  /**
   Pressing `c` and then `d` without a new sample in between captures the same
   sample twice: the calibration collapses and every calibrated strategy, the
   weighted mix included, is left dividing by zero.
   */
  lemma CleanThenDirtyCollapses(st: Station, lib: ColorLibrary)
    requires st.sensor.Some?
    ensures Collapsed(CalibrateDirty(CalibrateClean(st, lib), lib).calibration)
    ensures forall s: Strategy :: Defined(s, CalibrateDirty(CalibrateClean(st, lib), lib).calibration) <==> s == BrownScore
  {
    SameSampleCollapses(st.calibration, MakeReadings(st.sensor.value.lastRGB, lib));
  }

  /**
   `printAllStrategies`: the score of every strategy in array order on one reading.
   The first entry, the weighted mix, is the constrained weighted sum of the others.
   */
  method CompareAll(mix: Weights, rd: Readings, cal: FilterCalibration) returns (scores: seq<real>)
    requires Nondegenerate(cal)
    ensures |scores| == StrategyCount
    ensures forall i :: 0 <= i < StrategyCount ==> scores[i] == Calculate(Strategies[i], mix, rd, cal)
    ensures forall i :: 0 <= i < StrategyCount ==> 0.0 <= scores[i] <= 100.0
    ensures scores[0] == Percent(WeightedSum(mix, scores[3], scores[4], scores[5], scores[2], scores[1]))
  {
    scores := [];
    var i := 0;
    while i < StrategyCount
      invariant 0 <= i <= StrategyCount
      invariant |scores| == i
      invariant forall k :: 0 <= k < i ==> scores[k] == Calculate(Strategies[k], mix, rd, cal)
    {
      scores := scores + [Calculate(Strategies[i], mix, rd, cal)];
      i := i + 1;
    }
  }
}
