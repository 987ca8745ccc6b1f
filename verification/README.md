# Filter-saturation scoring engine, modelled in Dafny

This project models the core of a colour-sensor firmware that estimates how
contaminated an air filter is. One raw RGB sample from a TCS3200 sensor becomes a
0–100 "saturation" score. The model covers four parts:

- **Readings and calibration** (`sensor_readings.dfy`, module `SensorReadings`). A
  sample is kept with its HSV and chroma. The blue ratio is derived from it. The
  calibration record holds a clean and a dirty reference for four metrics.
- **Six strategies** (`constrain.dfy`, `saturation_strategy.dfy`,
  `strategy_properties.dfy`). Brown Score works on raw RGB alone. HSV Saturation,
  Chroma, Brightness and Blue Ratio each interpolate between their two calibration
  references and then apply Arduino's `constrain`. Weighted Mix is the constrained
  weighted sum of the other five. Its five weights can be replaced at runtime.
- **The sensor wrapper** (`filter_saturation_sensor.dfy`). It models the
  null-guarded `setStrategy`, the "no strategy, return 0" path of `getValue`, the
  last-reading bookkeeping and the 20-cell progress bar.
- **The operator logic of the main program** (`controller.dfy`). It models the
  five-band status classifier, the cyclic selector over the six-entry strategy
  array, the clean and dirty calibration captures, the "show all" toggle and the
  all-strategies comparison.

The C++ `float`s are Dafny `real`s. The contracts describe the arithmetic, not
IEEE rounding. Strategies are a six-way datatype. The main program creates one
instance of each strategy class (src/main.cpp:59-64), and the weighted mix owns a
second instance of each of its five component classes
(src/FilterSaturationStrategy.h:145-149). Every one of these instances holds the
same pointer to the single calibration record (src/FilterSaturationStrategy.h:166-170,
src/main.cpp:59-64), so all instances of a class score alike, and a strategy is
identified by its class. The one piece of per-instance state is the weighted mix's
weights. That is a separate `Weights` value shared by whoever points at the mix,
just as the pointers share one object. The main program's globals form the `Station` record. Its
`sensor` field is `None` until `setup` creates the wrapper.

Every interpolation divides by the difference of a clean/dirty pair:
`src/FilterSaturationStrategy.h:71-72`, `:90-91`, `:109-110` and `:130-131`. The
source never checks that difference. With equal endpoints the division is by
zero: a metric on either side of the reference gives an infinity, which
`constrain` clamps to 0 or 100, so the score becomes a 0/100 step; a metric exactly
at the reference gives 0/0, a NaN that `constrain` passes through. The model
instead requires the pair to differ, via
`SaturationStrategy.Defined`. It also proves, in `Controller.CleanThenDirtyCollapses`,
that capturing clean and then dirty from the same last sample violates this
requirement for every strategy except Brown Score.

Behaviours worth noting:

- The selector starts at index 1 (Brown Score) (src/main.cpp:67-68).
- `getValue` without a strategy prints a Serial message and returns 0 to its
  caller, changing nothing (src/FilterSaturationSensor.h:47-50).
- The classifier puts every score below 20 in CLEAN, negative scores included.
  It puts every score from 80 up in SATURATED, scores above 100 included
  (src/main.cpp:112-123).
- The brownish sample (200, 150, 40) scores exactly 900/17, about 52.94.

## Model

| member | source | states |
|---|---|---|
| SensorReadings.BlueFraction | src/FilterSaturationStrategy.h:127-128 | the blue fraction lies in [0,1]; it is 0 for a black sample, and otherwise ratio·(r+g+b) = b; it is 0 exactly when blue is 0, and 1 exactly when only blue is lit |
| Constrain.Interpolate | src/FilterSaturationStrategy.h:70-74 | the interpolated score lies in [0,100] whenever clean ≠ dirty; it is 0 at the clean reference and 100 at the dirty one |
| Constrain.InvertedIsInterpolate | src/FilterSaturationStrategy.h:108-112 | the "inverted" form (clean−x)/(clean−dirty) used for brightness and blue ratio is the same interpolation as (x−clean)/(dirty−clean) |
| Constrain.InterpolateRising | src/FilterSaturationStrategy.h:89-93 | when dirty > clean, moving the metric up never lowers the score |
| Constrain.InterpolateFalling | src/FilterSaturationStrategy.h:108-112 | when dirty < clean, moving the metric down never lowers the score |
| Constrain.InterpolateSaturates | src/FilterSaturationStrategy.h:70-74 | in either orientation, the score is 0 exactly when the metric is at or beyond the clean reference, on the side away from dirty, and 100 exactly when it is at or beyond the dirty reference |
| SensorReadings.MakeReadings | src/FilterSaturationStrategy.h:13-16 | a reading keeps the raw sample and carries the library's HSV and chroma of that same sample |
| SaturationStrategy.HSVSaturationScore | src/FilterSaturationStrategy.h:69-75 | the HSV score lies in [0,100]; it is 0 exactly when the saturation is at or beyond cleanHSVSat (away from dirty), and 100 exactly when it is at or beyond dirtyHSVSat |
| SaturationStrategy.ChromaScore | src/FilterSaturationStrategy.h:88-94 | the chroma score lies in [0,100]; it is 0 exactly when the chroma is at or beyond cleanChroma (away from dirty), and 100 exactly when it is at or beyond dirtyChroma |
| SaturationStrategy.BrightnessScore | src/FilterSaturationStrategy.h:107-113 | the brightness score lies in [0,100]; it is 0 exactly when the value is at or beyond cleanValue (away from dirty), and 100 exactly when it is at or beyond dirtyValue |
| SaturationStrategy.BlueRatioScore | src/FilterSaturationStrategy.h:126-134 | the blue-ratio score lies in [0,100]; it is 0 exactly when the sample's blue fraction is at or beyond cleanBlueRatio (away from dirty), and 100 exactly when it is at or beyond dirtyBlueRatio |
| SaturationStrategy.WeightedMixScore | src/FilterSaturationStrategy.h:177-187 | the mix lies in [0,100]; with non-negative weights it is 0 when every component scores 0, and with strictly positive weights (the defaults) only then |
| SaturationStrategy.WeightedSumZero | src/FilterSaturationStrategy.h:178-184 | for non-negative scores the weighted sum is 0 when all scores are, and with strictly positive weights it is positive as soon as one score is |
| SaturationStrategy.SetWeights | src/FilterSaturationStrategy.h:194-201 | each argument becomes the weight of its own component in the weighted sum; the weights are stored as given, so they are non-negative, or convex, exactly when the arguments are |
| SaturationStrategy.DefaultWeights | src/FilterSaturationStrategy.h:159-164 | the default weights 0.25/0.20/0.20/0.20/0.15 are non-negative and sum to 1 |
| SaturationStrategy.BrownScoreOf | src/FilterSaturationStrategy.h:50-57 | Brown Score lies in [0,100]; it is positive exactly when red > blue and green > blue, and 0 otherwise |
| SaturationStrategy.Calculate | src/FilterSaturationStrategy.h:41 | every strategy's score lies in [0,100] once the calibration pairs that strategy divides by differ |
| StrategyProperties.BrownScoreExample | src/FilterSaturationStrategy.h:53-54 | RGB (200,150,40) gives ((200+150)/2−40)/255·100 = 900/17 |
| StrategyProperties.BrownScoreMonotone | src/FilterSaturationStrategy.h:52-54 | raising red or green, or lowering blue, never lowers Brown Score |
| StrategyProperties.HSVSaturationEndpoints | src/FilterSaturationStrategy.h:70-74 | the HSV score is 0 at cleanHSVSat, 100 at dirtyHSVSat, and always in [0,100] |
| StrategyProperties.HSVSaturationMonotone | src/FilterSaturationStrategy.h:70-74 | when dirtyHSVSat > cleanHSVSat, the HSV score is non-decreasing in saturation |
| StrategyProperties.ChromaEndpoints | src/FilterSaturationStrategy.h:89-93 | the chroma score is 0 at cleanChroma, 100 at dirtyChroma, and always in [0,100] |
| StrategyProperties.ChromaMonotone | src/FilterSaturationStrategy.h:89-93 | when dirtyChroma > cleanChroma, the chroma score is non-decreasing in chroma |
| StrategyProperties.ChromaExample | src/FilterSaturationStrategy.h:89-93 | cleanChroma 0.5, dirtyChroma 1.0 and chroma 0.75 give exactly 50 |
| StrategyProperties.BrightnessEndpoints | src/FilterSaturationStrategy.h:108-112 | the brightness score is 0 at cleanValue, 100 at dirtyValue, and always in [0,100] |
| StrategyProperties.BrightnessMonotone | src/FilterSaturationStrategy.h:108-112 | when cleanValue > dirtyValue, the brightness score is non-increasing in value |
| StrategyProperties.BlueRatioEndpoints | src/FilterSaturationStrategy.h:127-133 | the blue-ratio score is 0 at cleanBlueRatio, 100 at dirtyBlueRatio, and always in [0,100] |
| StrategyProperties.BlueRatioMonotone | src/FilterSaturationStrategy.h:127-133 | when cleanBlueRatio > dirtyBlueRatio, the blue-ratio score is non-increasing in the blue ratio |
| StrategyProperties.WeightedMixFormula | src/FilterSaturationStrategy.h:177-186 | Weighted Mix equals the constrained sum of each component strategy's score times its weight, all scored on the same reading and calibration |
| StrategyProperties.WeightedMixSelectsComponent | src/FilterSaturationStrategy.h:177-186 | a weight vector with a single 1 makes the mix equal to that one component's score |
| StrategyProperties.WeightedSumBounds | src/FilterSaturationStrategy.h:178-184 | with non-negative weights summing to 1, a weighted sum of five scores in [0,100] stays in [0,100] |
| StrategyProperties.WeightedMixConvex | src/FilterSaturationStrategy.h:159-186 | with convex weights such as the defaults, the final constrain never changes the weighted sum |
| StrategyProperties.SetWeightsOnlyAffectsMix | src/FilterSaturationStrategy.h:194-201 | after `setWeights` every non-mix strategy scores as before; the mix follows the five new weights alone, whatever the old ones were; the calibration is only an input |
| FilterSaturationSensor.NewSensor | src/FilterSaturationSensor.h:18-23 | a new wrapper holds the given strategy, value 0, last RGB (0,0,0), last HSV (0,0,0) and last chroma 0 |
| FilterSaturationSensor.SetStrategy | src/FilterSaturationSensor.h:105-111 | a null strategy leaves the wrapper unchanged; a non-null one replaces the strategy and keeps every reading field |
| FilterSaturationSensor.GetValue | src/FilterSaturationSensor.h:45-63 | with no strategy it returns 0 and changes nothing; otherwise it stores the sample, its HSV and its chroma, returns that sample's score under the current strategy, in [0,100], and keeps it as the last value |
| FilterSaturationSensor.GetLastValue | src/FilterSaturationSensor.h:133-136 | on a reachable wrapper the reported value is a percentage in [0,100], and 0 while no strategy is set |
| FilterSaturationSensor.LastValueReportsResult | src/FilterSaturationSensor.h:133-136 | every operation keeps the stored value in [0,100] and keeps it 0 while there is no strategy, so `getLastValue` always reports what the last `getValue` returned |
| FilterSaturationSensor.Truncate | src/FilterSaturationSensor.h:95 | the float-to-int cast rounds toward zero: for x ≥ 0 it is the n ≥ 0 with n ≤ x < n+1, for x < 0 the n ≤ 0 with n−1 < x ≤ n |
| FilterSaturationSensor.TruncateSymmetric | src/FilterSaturationSensor.h:95 | the cast is odd, (int)(−x) = −(int)x, and leaves whole numbers unchanged |
| FilterSaturationSensor.ProgressBar | src/FilterSaturationSensor.h:94-100 | the bar has 20 cells; cell i is '=' exactly when i < (int)(value/5), otherwise ' '; the filled count is that bound clipped to [0,20], and it equals ⌊value/5⌋ ≤ 20 for value in [0,100] |
| Controller.SaturationStatus | src/main.cpp:112-123 | CLEAN below 20, LIGHT in [20,40), MODERATE in [40,60), HEAVY in [60,80), SATURATED from 80 up, 100 included |
| Controller.Label | src/main.cpp:115-122 | each of the five status texts is returned for exactly one band |
| Controller.StatusText | src/main.cpp:112-123 | `getSaturationStatus` returns "CLEAN - Good condition" exactly below 20, "LIGHT - Minor contamination" exactly in [20,40), "MODERATE - Needs attention" in [40,60), "HEAVY - Replace soon" in [60,80), and "SATURATED - Replace immediately" from 80 up |
| Controller.StatusMonotone | src/main.cpp:112-123 | a higher score never yields a less severe band |
| Controller.StatusBoundaries | src/main.cpp:112-123 | 19.9 is CLEAN, 20 is LIGHT, 79.9 is HEAVY, 80 and 100 are SATURATED, and likewise at 40 and 60 |
| Controller.DefaultCalibration | src/main.cpp:35-44 | the compiled-in calibration has clean ≠ dirty for all four pairs, each pair oriented the way its strategy expects contamination to move |
| Controller.CaptureClean | src/main.cpp:133-139 | capturing clean overwrites exactly cleanChroma, cleanValue, cleanBlueRatio and cleanHSVSat with the reading's metrics; all four dirty fields are unchanged |
| Controller.CaptureDirty | src/main.cpp:156-162 | capturing dirty overwrites exactly the four dirty fields; all four clean fields are unchanged |
| Controller.CapturesCommute | src/main.cpp:136-162 | the clean and dirty captures write disjoint fields, so their order does not matter |
| Controller.CapturedSampleScoresEndpoint | src/main.cpp:130-162 | the sample just captured as clean scores 0 on every calibrated strategy still defined; one captured as dirty scores 100 |
| Controller.SameSampleCollapses | src/main.cpp:136-162 | capturing clean and then dirty from one reading makes every pair equal, so only Brown Score remains defined |
| Controller.Boot | src/main.cpp:64-79 | the initial globals are consistent: index 1, current strategy Brown Score (= strategies[1]), show-all off, no wrapper yet, a non-degenerate calibration and convex default weights |
| Controller.Setup | src/main.cpp:190-195 | `setup` creates a fresh wrapper holding the current strategy and changes nothing else |
| Controller.SwitchStrategy | src/main.cpp:81-90 | the index advances by one modulo 6 and stays in [0,6); the current strategy is strategies[index]; the wrapper, if present, gets the same strategy; calibration, weights and show-all are untouched |
| Controller.SwitchTimesAdvances | src/main.cpp:83-84 | after n switches the index is (index + n) mod 6 and nothing else but the selected strategy has changed |
| Controller.FullCyclesReturn | src/main.cpp:79-84 | six consecutive switches, or any multiple of six, return the whole station to its starting state |
| Controller.SwitchingVisitsAll | src/main.cpp:72-84 | every one of the six strategies becomes current within six switches |
| Controller.ToggleShowAll | src/main.cpp:221-225 | the `'a'` command flips the show-all flag and changes nothing else |
| Controller.ToggleTwice | src/main.cpp:223 | toggling twice restores the station |
| Controller.Sample | src/FilterSaturationSensor.h:45-67 | a periodic read through the wrapper scores the sample with the shared calibration and weights; it keeps the station consistent and changes only the wrapper |
| Controller.CalibrateClean | src/main.cpp:125-139 | the clean capture takes the library's chroma, value and saturation of the wrapper's last RGB, and that RGB's blue ratio, as the four clean references; the dirty references and the rest of the station are unchanged, and consistency is kept |
| Controller.CalibrateDirty | src/main.cpp:148-162 | the dirty capture takes the same four metrics of the wrapper's last RGB as the dirty references; the clean references and the rest of the station are unchanged, and consistency is kept |
| Controller.CleanThenDirtyCollapses | src/main.cpp:130-162 | `c` then `d` with no new reading in between collapses all four pairs, leaving every calibrated strategy, including the mix, undefined |
| Controller.CompareAll | src/main.cpp:98-110 | the comparison lists each of the six strategies' scores in array order, each in [0,100]; the first, the mix, is the constrained weighted sum of the other five |

## Left out

- SaturationStrategy.Calculate: requires every clean/dirty pair it divides by to differ. The firmware never checks this. With equal endpoints a metric off the reference divides to ±∞, which `constrain` clamps to 0 or 100; a metric exactly at the reference gives NaN, which `constrain` passes through, and the mix is NaN when any component is. IEEE infinities and NaN are not modelled.
- FilterSaturationSensor.GetValue, Controller.Sample and Controller.CompareAll: inherit the requirement above. The wrapper's bookkeeping does not depend on the calibration, and the firmware keeps recording samples after a collapsed calibration (so a later `c` or `d` captures a fresh one). The model cannot take a reading under such a calibration unless the current strategy is Brown Score.
- The TCS3200 driver (`read_rgb_color`, `begin`, `frequency_scaling`): hardware I/O. The sample it returns is a parameter of `GetValue` and `Sample`.
- The library's `calculate_hsv` and `calculate_chroma`: foreign code. They are the two functions of a `ColorLibrary` parameter, and readings carry their results. No range is assumed for them.
- The RGB channel width: the library's `RGBColor` type is not part of this model, so channels are unbounded natural numbers.
- IEEE float rounding: reals are exact.
- The Supla stack (WiFi, web server, HTML pages, EEPROM and LittleFS configuration, `SuplaDevice.begin/iterate`, the `GeneralPurposeMeasurement` base class, `onInit`): network and storage plumbing. Only the pull of `getValue` appears, as `Sample`.
- All `Serial` text, `printValues` except its bar, `getName` strings, `delay(2000)`, and LED pin setup: output and timing. The status label texts are kept in `Controller.Label`.
- The `loop()` character dispatch: only the state effect of each command is modelled (`c`, `d`, `s`, `a`, and the comparison printed by `p`).
- Calibration before `setup`: the capture dereferences the wrapper pointer unguarded, so `CalibrateClean` and `CalibrateDirty` require the wrapper to exist.
- The trivial accessors `getStrategy`, `getLastRGB`, `getLastHSV` and `getLastChroma`: they return a field of `Sensor` directly.
