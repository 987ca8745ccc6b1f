/**
 The six interchangeable scoring strategies. Each turns one reading into a
 contamination score in [0, 100]; five of them consult the calibration profile.
 */
module SaturationStrategy {
  import opened Constrain
  import opened SensorReadings

  /**
   The six strategy classes. The weighted mix owns a second instance of each
   component class, but every instance holds the same pointer to the one shared
   calibration, so all instances of a class score alike and a strategy is
   identified by its class. The one piece of per-instance state, the weighted mix's
   weights, is the separate `Weights` record.
   */
  datatype Strategy = WeightedMix | BrownScore | HSVSaturation | Chroma | Brightness | BlueRatio

  /** `WeightedMixStrategy`'s five configurable weights. */
  datatype Weights = Weights(chroma: real, brightness: real, blueRatio: real, hsvSat: real, brown: real)

  /** The constructor's default weights. */
  function DefaultWeights(): (w: Weights)
    ensures w.chroma + w.brightness + w.blueRatio + w.hsvSat + w.brown == 1.0
    ensures Convex(w)
  {
    Weights(0.25, 0.20, 0.20, 0.20, 0.15)
  }

  predicate NonNegative(w: Weights)
  {
    0.0 <= w.chroma && 0.0 <= w.brightness && 0.0 <= w.blueRatio && 0.0 <= w.hsvSat && 0.0 <= w.brown
  }

  /** Non-negative weights summing to 1. */
  predicate Convex(w: Weights)
  {
    NonNegative(w) && w.chroma + w.brightness + w.blueRatio + w.hsvSat + w.brown == 1.0
  }

  /**
   `setWeights`: all five weights are replaced at once, in argument order. They are
   stored as given, never normalised, so the result is convex exactly when the
   arguments are non-negative and sum to 1.
   */
  function SetWeights(chromaW: real, brightnessW: real, blueRatioW: real, hsvSatW: real, brownW: real): (w: Weights)
    ensures NonNegative(w) <==> 0.0 <= chromaW && 0.0 <= brightnessW && 0.0 <= blueRatioW && 0.0 <= hsvSatW && 0.0 <= brownW
    ensures Convex(w) <==> NonNegative(w) && chromaW + brightnessW + blueRatioW + hsvSatW + brownW == 1.0
    ensures forall c, v, b, h, r :: WeightedSum(w, c, v, b, h, r) == c * chromaW + v * brightnessW + b * blueRatioW + h * hsvSatW + r * brownW
  {
    Weights(chromaW, brightnessW, blueRatioW, hsvSatW, brownW)
  }

  /** Strategy 1: the brown/yellow cast, from raw RGB and without calibration. */
  function BrownScoreOf(rgb: RGB): (s: real)
    ensures 0.0 <= s <= 100.0
    ensures s > 0.0 <==> rgb.red > rgb.blue && rgb.green > rgb.blue
  {
    if rgb.red > rgb.blue && rgb.green > rgb.blue then
      var raw := ((rgb.red + rgb.green) as real / 2.0 - rgb.blue as real) / 255.0 * 100.0;
      assert raw > 0.0;
      Percent(raw)
    else
      0.0
  }

  /** Strategy 2: HSV saturation interpolated between the clean and dirty references. */
  function HSVSaturationScore(rd: Readings, cal: FilterCalibration): (s: real)
    requires cal.cleanHSVSat != cal.dirtyHSVSat
    ensures 0.0 <= s <= 100.0
    ensures s == 0.0 <==> CleanSide(rd.hsv.saturation, cal.cleanHSVSat, cal.dirtyHSVSat)
    ensures s == 100.0 <==> DirtySide(rd.hsv.saturation, cal.cleanHSVSat, cal.dirtyHSVSat)
  {
    InterpolateSaturates(rd.hsv.saturation, cal.cleanHSVSat, cal.dirtyHSVSat);
    Interpolate(rd.hsv.saturation, cal.cleanHSVSat, cal.dirtyHSVSat)
  }

  /** Strategy 3: chroma interpolated between the clean and dirty references. */
  function ChromaScore(rd: Readings, cal: FilterCalibration): (s: real)
    requires cal.cleanChroma != cal.dirtyChroma
    ensures 0.0 <= s <= 100.0
    ensures s == 0.0 <==> CleanSide(rd.chroma, cal.cleanChroma, cal.dirtyChroma)
    ensures s == 100.0 <==> DirtySide(rd.chroma, cal.cleanChroma, cal.dirtyChroma)
  {
    InterpolateSaturates(rd.chroma, cal.cleanChroma, cal.dirtyChroma);
    Interpolate(rd.chroma, cal.cleanChroma, cal.dirtyChroma)
  }

  /** Strategy 4: brightness, written in the inverted form (a dirty filter is darker). */
  function BrightnessScore(rd: Readings, cal: FilterCalibration): (s: real)
    requires cal.cleanValue != cal.dirtyValue
    ensures 0.0 <= s <= 100.0
    ensures s == 0.0 <==> CleanSide(rd.hsv.value, cal.cleanValue, cal.dirtyValue)
    ensures s == 100.0 <==> DirtySide(rd.hsv.value, cal.cleanValue, cal.dirtyValue)
  {
    InvertedIsInterpolate(rd.hsv.value, cal.cleanValue, cal.dirtyValue);
    InterpolateSaturates(rd.hsv.value, cal.cleanValue, cal.dirtyValue);
    InvertedInterpolate(rd.hsv.value, cal.cleanValue, cal.dirtyValue)
  }

  /** Strategy 5: blue fraction, in the inverted form (a dirty filter is less blue). */
  function BlueRatioScore(rd: Readings, cal: FilterCalibration): (s: real)
    requires cal.cleanBlueRatio != cal.dirtyBlueRatio
    ensures 0.0 <= s <= 100.0
    ensures s == 0.0 <==> CleanSide(BlueFraction(rd.rgb), cal.cleanBlueRatio, cal.dirtyBlueRatio)
    ensures s == 100.0 <==> DirtySide(BlueFraction(rd.rgb), cal.cleanBlueRatio, cal.dirtyBlueRatio)
  {
    InvertedIsInterpolate(BlueFraction(rd.rgb), cal.cleanBlueRatio, cal.dirtyBlueRatio);
    InterpolateSaturates(BlueFraction(rd.rgb), cal.cleanBlueRatio, cal.dirtyBlueRatio);
    InvertedInterpolate(BlueFraction(rd.rgb), cal.cleanBlueRatio, cal.dirtyBlueRatio)
  }

  /** The unconstrained weighted sum of five component scores. */
  function WeightedSum(w: Weights, chroma: real, brightness: real, blueRatio: real, hsvSat: real, brown: real): real
  {
    chroma * w.chroma + brightness * w.brightness + blueRatio * w.blueRatio + hsvSat * w.hsvSat + brown * w.brown
  }

  /** All five weights strictly positive, as the defaults are. */
  predicate Positive(w: Weights)
  {
    0.0 < w.chroma && 0.0 < w.brightness && 0.0 < w.blueRatio && 0.0 < w.hsvSat && 0.0 < w.brown
  }

  /**
   With non-negative scores, the weighted sum vanishes when every score does; with
   strictly positive weights it is positive as soon as one score is.
   */
  lemma WeightedSumZero(w: Weights, c: real, v: real, b: real, h: real, r: real)
    requires 0.0 <= c && 0.0 <= v && 0.0 <= b && 0.0 <= h && 0.0 <= r
    ensures c == 0.0 && v == 0.0 && b == 0.0 && h == 0.0 && r == 0.0 ==> WeightedSum(w, c, v, b, h, r) == 0.0
    ensures Positive(w) && WeightedSum(w, c, v, b, h, r) <= 0.0 ==> c == 0.0 && v == 0.0 && b == 0.0 && h == 0.0 && r == 0.0
  {
    if Positive(w) {
      PositiveProduct(c, w.chroma);
      PositiveProduct(v, w.brightness);
      PositiveProduct(b, w.blueRatio);
      PositiveProduct(h, w.hsvSat);
      PositiveProduct(r, w.brown);
    }
  }

  lemma PositiveProduct(x: real, y: real)
    requires 0.0 <= x && 0.0 < y
    ensures 0.0 <= x * y
    ensures x * y == 0.0 <==> x == 0.0
  {
    if 0.0 < x {
      assert 0.0 < x * y;
    }
  }

  /** Strategy 6: the weighted sum of the other five strategies' scores, constrained to [0, 100]. */
  function WeightedMixScore(w: Weights, rd: Readings, cal: FilterCalibration): (s: real)
    requires Nondegenerate(cal)
    ensures 0.0 <= s <= 100.0
    ensures NonNegative(w) && ChromaScore(rd, cal) == 0.0 && BrightnessScore(rd, cal) == 0.0 &&
            BlueRatioScore(rd, cal) == 0.0 && HSVSaturationScore(rd, cal) == 0.0 && BrownScoreOf(rd.rgb) == 0.0
            ==> s == 0.0
    ensures Positive(w) && s == 0.0 ==>
            ChromaScore(rd, cal) == 0.0 && BrightnessScore(rd, cal) == 0.0 &&
            BlueRatioScore(rd, cal) == 0.0 && HSVSaturationScore(rd, cal) == 0.0 && BrownScoreOf(rd.rgb) == 0.0
  {
    WeightedSumZero(w, ChromaScore(rd, cal), BrightnessScore(rd, cal), BlueRatioScore(rd, cal),
                    HSVSaturationScore(rd, cal), BrownScoreOf(rd.rgb));
    Percent(WeightedSum(w, ChromaScore(rd, cal), BrightnessScore(rd, cal), BlueRatioScore(rd, cal),
                        HSVSaturationScore(rd, cal), BrownScoreOf(rd.rgb)))
  }

  /**
   The calibration pairs a strategy divides by. The firmware never checks them. With
   equal endpoints its division is by zero: a metric off the reference gives an
   infinity that `constrain` clamps to 0 or 100, and a metric exactly at the
   reference gives NaN, which `constrain` passes through.
   */
  predicate Defined(s: Strategy, cal: FilterCalibration)
  {
    match s
    case WeightedMix => Nondegenerate(cal)
    case BrownScore => true
    case HSVSaturation => cal.cleanHSVSat != cal.dirtyHSVSat
    case Chroma => cal.cleanChroma != cal.dirtyChroma
    case Brightness => cal.cleanValue != cal.dirtyValue
    case BlueRatio => cal.cleanBlueRatio != cal.dirtyBlueRatio
  }

  /** `calculate`, dispatched on the strategy. The calibration is read, never written. */
  function Calculate(s: Strategy, w: Weights, rd: Readings, cal: FilterCalibration): (score: real)
    requires Defined(s, cal)
    ensures 0.0 <= score <= 100.0
  {
    match s
    case WeightedMix => WeightedMixScore(w, rd, cal)
    case BrownScore => BrownScoreOf(rd.rgb)
    case HSVSaturation => HSVSaturationScore(rd, cal)
    case Chroma => ChromaScore(rd, cal)
    case Brightness => BrightnessScore(rd, cal)
    case BlueRatio => BlueRatioScore(rd, cal)
  }
}
