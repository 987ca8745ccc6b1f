/** Properties of the six strategies: endpoints, monotonicity, the mix formula and its weights. */
module StrategyProperties {
  import opened Constrain
  import opened SensorReadings
  import opened SaturationStrategy

  /** The brownish sample (200, 150, 40): ((200 + 150) / 2 - 40) / 255 * 100 = 900/17, about 52.94. */
  lemma BrownScoreExample()
    ensures BrownScoreOf(RGB(200, 150, 40)) == 900.0 / 17.0
  {
  }

  /** Brown Score never falls when red or green rise or blue falls. */
  lemma BrownScoreMonotone(a: RGB, b: RGB)
    requires a.red <= b.red && a.green <= b.green && b.blue <= a.blue
    ensures BrownScoreOf(a) <= BrownScoreOf(b)
  {
    if a.red > a.blue && a.green > a.blue {
      var rawA := ((a.red + a.green) as real / 2.0 - a.blue as real) / 255.0 * 100.0;
      var rawB := ((b.red + b.green) as real / 2.0 - b.blue as real) / 255.0 * 100.0;
      assert rawA <= rawB;
      PercentMonotone(rawA, rawB);
    }
  }

  /** The HSV saturation score is 0 at the clean reference and 100 at the dirty one. */
  lemma HSVSaturationEndpoints(rd: Readings, cal: FilterCalibration)
    requires cal.cleanHSVSat != cal.dirtyHSVSat
    ensures rd.hsv.saturation == cal.cleanHSVSat ==> HSVSaturationScore(rd, cal) == 0.0
    ensures rd.hsv.saturation == cal.dirtyHSVSat ==> HSVSaturationScore(rd, cal) == 100.0
    ensures 0.0 <= HSVSaturationScore(rd, cal) <= 100.0
  {
  }

  /** With the dirty reference above the clean one, more saturation never lowers the HSV score. */
  lemma HSVSaturationMonotone(a: Readings, b: Readings, cal: FilterCalibration)
    requires cal.cleanHSVSat < cal.dirtyHSVSat
    requires a.hsv.saturation <= b.hsv.saturation
    ensures HSVSaturationScore(a, cal) <= HSVSaturationScore(b, cal)
  {
    InterpolateRising(a.hsv.saturation, b.hsv.saturation, cal.cleanHSVSat, cal.dirtyHSVSat);
  }

  /** The chroma score is 0 at the clean reference and 100 at the dirty one. */
  lemma ChromaEndpoints(rd: Readings, cal: FilterCalibration)
    requires cal.cleanChroma != cal.dirtyChroma
    ensures rd.chroma == cal.cleanChroma ==> ChromaScore(rd, cal) == 0.0
    ensures rd.chroma == cal.dirtyChroma ==> ChromaScore(rd, cal) == 100.0
    ensures 0.0 <= ChromaScore(rd, cal) <= 100.0
  {
  }

  /** With the dirty reference above the clean one, more chroma never lowers the chroma score. */
  lemma ChromaMonotone(a: Readings, b: Readings, cal: FilterCalibration)
    requires cal.cleanChroma < cal.dirtyChroma
    requires a.chroma <= b.chroma
    ensures ChromaScore(a, cal) <= ChromaScore(b, cal)
  {
    InterpolateRising(a.chroma, b.chroma, cal.cleanChroma, cal.dirtyChroma);
  }

  /** Clean chroma 0.5, dirty chroma 1.0 and a sample chroma of 0.75 give 50. */
  lemma ChromaExample(rd: Readings, cal: FilterCalibration)
    requires cal.cleanChroma == 0.5 && cal.dirtyChroma == 1.0
    requires rd.chroma == 0.75
    ensures ChromaScore(rd, cal) == 50.0
  {
  }

  /** The brightness score is 0 at the clean brightness and 100 at the dirty one. */
  lemma BrightnessEndpoints(rd: Readings, cal: FilterCalibration)
    requires cal.cleanValue != cal.dirtyValue
    ensures rd.hsv.value == cal.cleanValue ==> BrightnessScore(rd, cal) == 0.0
    ensures rd.hsv.value == cal.dirtyValue ==> BrightnessScore(rd, cal) == 100.0
    ensures 0.0 <= BrightnessScore(rd, cal) <= 100.0
  {
  }

  /** With the dirty reference darker than the clean one, a darker sample never scores lower. */
  lemma BrightnessMonotone(a: Readings, b: Readings, cal: FilterCalibration)
    requires cal.dirtyValue < cal.cleanValue
    requires b.hsv.value <= a.hsv.value
    ensures BrightnessScore(a, cal) <= BrightnessScore(b, cal)
  {
    InvertedIsInterpolate(a.hsv.value, cal.cleanValue, cal.dirtyValue);
    InvertedIsInterpolate(b.hsv.value, cal.cleanValue, cal.dirtyValue);
    InterpolateFalling(a.hsv.value, b.hsv.value, cal.cleanValue, cal.dirtyValue);
  }

  /** The blue-ratio score is 0 at the clean ratio, 100 at the dirty one. */
  lemma BlueRatioEndpoints(rd: Readings, cal: FilterCalibration)
    requires cal.cleanBlueRatio != cal.dirtyBlueRatio
    ensures BlueFraction(rd.rgb) == cal.cleanBlueRatio ==> BlueRatioScore(rd, cal) == 0.0
    ensures BlueFraction(rd.rgb) == cal.dirtyBlueRatio ==> BlueRatioScore(rd, cal) == 100.0
    ensures 0.0 <= BlueRatioScore(rd, cal) <= 100.0
  {
  }

  /** With the dirty ratio below the clean one, a less blue sample never scores lower. */
  lemma BlueRatioMonotone(a: Readings, b: Readings, cal: FilterCalibration)
    requires cal.dirtyBlueRatio < cal.cleanBlueRatio
    requires BlueFraction(b.rgb) <= BlueFraction(a.rgb)
    ensures BlueRatioScore(a, cal) <= BlueRatioScore(b, cal)
  {
    var x, y := BlueFraction(a.rgb), BlueFraction(b.rgb);
    InvertedIsInterpolate(x, cal.cleanBlueRatio, cal.dirtyBlueRatio);
    InvertedIsInterpolate(y, cal.cleanBlueRatio, cal.dirtyBlueRatio);
    InterpolateFalling(x, y, cal.cleanBlueRatio, cal.dirtyBlueRatio);
  }

  /**
   The weighted mix is the constrained weighted sum of the five component strategies,
   each scored on the same readings and calibration.
   */
  lemma WeightedMixFormula(w: Weights, rd: Readings, cal: FilterCalibration)
    requires Nondegenerate(cal)
    ensures Calculate(WeightedMix, w, rd, cal) == Percent(WeightedSum(w,
              Calculate(Chroma, w, rd, cal), Calculate(Brightness, w, rd, cal), Calculate(BlueRatio, w, rd, cal),
              Calculate(HSVSaturation, w, rd, cal), Calculate(BrownScore, w, rd, cal)))
  {
  }

  /** A weight vector that selects one component makes the mix equal to that component. */
  lemma WeightedMixSelectsComponent(rd: Readings, cal: FilterCalibration)
    requires Nondegenerate(cal)
    ensures Calculate(WeightedMix, Weights(1.0, 0.0, 0.0, 0.0, 0.0), rd, cal) == ChromaScore(rd, cal)
    ensures Calculate(WeightedMix, Weights(0.0, 1.0, 0.0, 0.0, 0.0), rd, cal) == BrightnessScore(rd, cal)
    ensures Calculate(WeightedMix, Weights(0.0, 0.0, 1.0, 0.0, 0.0), rd, cal) == BlueRatioScore(rd, cal)
    ensures Calculate(WeightedMix, Weights(0.0, 0.0, 0.0, 1.0, 0.0), rd, cal) == HSVSaturationScore(rd, cal)
    ensures Calculate(WeightedMix, Weights(0.0, 0.0, 0.0, 0.0, 1.0), rd, cal) == BrownScoreOf(rd.rgb)
  {
    var c, v, b, h, s := ChromaScore(rd, cal), BrightnessScore(rd, cal), BlueRatioScore(rd, cal),
                         HSVSaturationScore(rd, cal), BrownScoreOf(rd.rgb);
    assert WeightedSum(Weights(1.0, 0.0, 0.0, 0.0, 0.0), c, v, b, h, s) == c;
    assert WeightedSum(Weights(0.0, 1.0, 0.0, 0.0, 0.0), c, v, b, h, s) == v;
    assert WeightedSum(Weights(0.0, 0.0, 1.0, 0.0, 0.0), c, v, b, h, s) == b;
    assert WeightedSum(Weights(0.0, 0.0, 0.0, 1.0, 0.0), c, v, b, h, s) == h;
    assert WeightedSum(Weights(0.0, 0.0, 0.0, 0.0, 1.0), c, v, b, h, s) == s;
  }

  lemma ScaledUpper(weight: real, score: real)
    requires 0.0 <= weight
    requires score <= 100.0
    ensures score * weight <= 100.0 * weight
  {
  }

  lemma ScaledLower(weight: real, score: real)
    requires 0.0 <= weight
    requires 0.0 <= score
    ensures 0.0 <= score * weight
  {
  }

  /** Non-negative weights of scores at most 100 sum to at most 100 times the total weight. */
  lemma WeightedSumUpper(w: Weights, c: real, v: real, b: real, h: real, s: real)
    requires NonNegative(w)
    requires c <= 100.0 && v <= 100.0 && b <= 100.0 && h <= 100.0 && s <= 100.0
    ensures WeightedSum(w, c, v, b, h, s)
            <= 100.0 * w.chroma + 100.0 * w.brightness + 100.0 * w.blueRatio + 100.0 * w.hsvSat + 100.0 * w.brown
  {
    ScaledUpper(w.chroma, c);
    ScaledUpper(w.brightness, v);
    ScaledUpper(w.blueRatio, b);
    ScaledUpper(w.hsvSat, h);
    ScaledUpper(w.brown, s);
  }

  /** Non-negative weights of non-negative scores give a non-negative sum. */
  lemma WeightedSumLower(w: Weights, c: real, v: real, b: real, h: real, s: real)
    requires NonNegative(w)
    requires 0.0 <= c && 0.0 <= v && 0.0 <= b && 0.0 <= h && 0.0 <= s
    ensures 0.0 <= WeightedSum(w, c, v, b, h, s)
  {
    ScaledLower(w.chroma, c);
    ScaledLower(w.brightness, v);
    ScaledLower(w.blueRatio, b);
    ScaledLower(w.hsvSat, h);
    ScaledLower(w.brown, s);
  }

  /** Convex weights keep a weighted sum of percentages inside [0, 100]. */
  lemma WeightedSumBounds(w: Weights, c: real, v: real, b: real, h: real, s: real)
    requires Convex(w)
    requires 0.0 <= c <= 100.0 && 0.0 <= v <= 100.0 && 0.0 <= b <= 100.0
    requires 0.0 <= h <= 100.0 && 0.0 <= s <= 100.0
    ensures 0.0 <= WeightedSum(w, c, v, b, h, s) <= 100.0
  {
    WeightedSumUpper(w, c, v, b, h, s);
    WeightedSumLower(w, c, v, b, h, s);
  }

  /**
   With non-negative weights summing to 1 (the defaults among them) the weighted
   sum already lies in [0, 100], so the final constraint never changes it.
   */
  lemma WeightedMixConvex(w: Weights, rd: Readings, cal: FilterCalibration)
    requires Nondegenerate(cal)
    requires Convex(w)
    ensures Calculate(WeightedMix, w, rd, cal) == WeightedSum(w,
              Calculate(Chroma, w, rd, cal), Calculate(Brightness, w, rd, cal), Calculate(BlueRatio, w, rd, cal),
              Calculate(HSVSaturation, w, rd, cal), Calculate(BrownScore, w, rd, cal))
  {
    WeightedSumBounds(w, Calculate(Chroma, w, rd, cal), Calculate(Brightness, w, rd, cal), Calculate(BlueRatio, w, rd, cal),
                      Calculate(HSVSaturation, w, rd, cal), Calculate(BrownScore, w, rd, cal));
    WeightedMixFormula(w, rd, cal);
  }

  /**
   `setWeights` changes only the weighted mix: every other strategy scores exactly as
   before, and the mix follows the new weights alone.
   */
  lemma SetWeightsOnlyAffectsMix(w: Weights, chromaW: real, brightnessW: real, blueRatioW: real, hsvSatW: real, brownW: real,
                                 s: Strategy, rd: Readings, cal: FilterCalibration)
    requires Defined(s, cal)
    ensures s != WeightedMix ==>
      Calculate(s, SetWeights(chromaW, brightnessW, blueRatioW, hsvSatW, brownW), rd, cal) == Calculate(s, w, rd, cal)
    ensures s == WeightedMix ==>
      Calculate(s, SetWeights(chromaW, brightnessW, blueRatioW, hsvSatW, brownW), rd, cal) == Percent(WeightedSum(
        Weights(chromaW, brightnessW, blueRatioW, hsvSatW, brownW),
        Calculate(Chroma, w, rd, cal), Calculate(Brightness, w, rd, cal), Calculate(BlueRatio, w, rd, cal),
        Calculate(HSVSaturation, w, rd, cal), Calculate(BrownScore, w, rd, cal)))
  {
  }
}
