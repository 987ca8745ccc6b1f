/**
 The records shared by all strategies: one raw colour sample with the metrics the
 TCS3200 library derives from it, and the two-point calibration profile.
 */
module SensorReadings {

  /** One raw sample from the colour sensor; channel intensities are non-negative integers. */
  datatype RGB = RGB(red: nat, green: nat, blue: nat)

  datatype HSV = HSV(hue: real, saturation: real, value: real)

  /**
   The TCS3200 library's `calculate_hsv` and `calculate_chroma`. Their code is not
   part of this model, so they are parameters: the model only relies on their being
   functions of the sample.
   */
  datatype ColorLibrary = ColorLibrary(hsvOf: RGB -> HSV, chromaOf: RGB -> real)

  /** `SensorReadings`: a sample together with the metrics derived from it. */
  datatype Readings = Readings(rgb: RGB, hsv: HSV, chroma: real)

  /** The `SensorReadings(rgb)` constructor: derives HSV and chroma once, from `rgb` alone. */
  function MakeReadings(rgb: RGB, lib: ColorLibrary): (rd: Readings)
    ensures rd.rgb == rgb && rd.hsv == lib.hsvOf(rgb) && rd.chroma == lib.chromaOf(rgb)
  {
    Readings(rgb, lib.hsvOf(rgb), lib.chromaOf(rgb))
  }

  /** Sum of the three channels, as the firmware's `totalRGB`. */
  function Total(rgb: RGB): nat
  {
    rgb.red + rgb.green + rgb.blue
  }

  /**
   Fraction of the total intensity that is blue, `blue / (red + green + blue)`,
   or 0 for a black sample.
   */
  function BlueFraction(rgb: RGB): (r: real)
    ensures 0.0 <= r <= 1.0
    ensures Total(rgb) == 0 ==> r == 0.0
    ensures Total(rgb) > 0 ==> r * Total(rgb) as real == rgb.blue as real
    ensures r == 0.0 <==> rgb.blue == 0
    ensures r == 1.0 <==> rgb.blue > 0 && rgb.red == 0 && rgb.green == 0
  {
    var total := Total(rgb) as real;
    if total > 0.0 then
      assert rgb.blue as real <= total;
      rgb.blue as real / total
    else
      0.0
  }

  /** `FilterCalibration`: a clean and a dirty reference value for each of four metrics. */
  datatype FilterCalibration = FilterCalibration(
    cleanChroma: real,
    dirtyChroma: real,
    cleanValue: real,
    dirtyValue: real,
    cleanBlueRatio: real,
    dirtyBlueRatio: real,
    cleanHSVSat: real,
    dirtyHSVSat: real)

  /** Every clean/dirty pair differs, so no interpolation divides by zero. */
  predicate Nondegenerate(cal: FilterCalibration)
  {
    && cal.cleanChroma != cal.dirtyChroma
    && cal.cleanValue != cal.dirtyValue
    && cal.cleanBlueRatio != cal.dirtyBlueRatio
    && cal.cleanHSVSat != cal.dirtyHSVSat
  }

  /** Every clean/dirty pair is equal: all four interpolations would divide by zero. */
  predicate Collapsed(cal: FilterCalibration)
  {
    && cal.cleanChroma == cal.dirtyChroma
    && cal.cleanValue == cal.dirtyValue
    && cal.cleanBlueRatio == cal.dirtyBlueRatio
    && cal.cleanHSVSat == cal.dirtyHSVSat
  }
}
