/**
 Arduino's `constrain` macro and the linear two-point interpolation that every
 calibrated strategy builds on it.
 */
module Constrain {

  /** Arduino `constrain(amt, low, high)`: `low` below the range, `high` above it, `amt` inside. */
  function Constrain(amt: real, low: real, high: real): (r: real)
    requires low <= high
    ensures low <= r <= high
    ensures low <= amt <= high ==> r == amt
    ensures amt <= low ==> r == low
    ensures high <= amt ==> r == high
  {
    if amt < low then low else if amt > high then high else amt
  }

  /** Every score is constrained to the percentage range [0, 100]. */
  function Percent(x: real): (r: real)
    ensures 0.0 <= r <= 100.0
    ensures 0.0 <= x <= 100.0 ==> r == x
    ensures x <= 0.0 ==> r == 0.0
    ensures 100.0 <= x ==> r == 100.0
  {
    Constrain(x, 0.0, 100.0)
  }

  lemma PercentMonotone(x: real, y: real)
    requires x <= y
    ensures Percent(x) <= Percent(y)
  {
  }

  /**
   Position of `x` on the line from `clean` (0%) to `dirty` (100%), constrained to
   [0, 100]: the form `(x - clean) / (dirty - clean) * 100` used for HSV saturation
   and chroma. The firmware divides without checking the denominator, so the
   model requires the two endpoints to differ.
   */
  function Interpolate(x: real, clean: real, dirty: real): (r: real)
    requires clean != dirty
    ensures 0.0 <= r <= 100.0
    ensures x == clean ==> r == 0.0
    ensures x == dirty ==> r == 100.0
  {
    assert 0.0 / (dirty - clean) == 0.0;
    assert (dirty - clean) / (dirty - clean) == 1.0;
    Percent((x - clean) / (dirty - clean) * 100.0)
  }

  /**
   The "inverted" form `(clean - x) / (clean - dirty) * 100` used for brightness
   and blue ratio, constrained to [0, 100].
   */
  function InvertedInterpolate(x: real, clean: real, dirty: real): (r: real)
    requires clean != dirty
    ensures 0.0 <= r <= 100.0
    ensures x == clean ==> r == 0.0
    ensures x == dirty ==> r == 100.0
  {
    assert 0.0 / (clean - dirty) == 0.0;
    assert (clean - dirty) / (clean - dirty) == 1.0;
    Percent((clean - x) / (clean - dirty) * 100.0)
  }

  /** Negating numerator and denominator changes nothing: both forms are one interpolation. */
  lemma InvertedIsInterpolate(x: real, clean: real, dirty: real)
    requires clean != dirty
    ensures InvertedInterpolate(x, clean, dirty) == Interpolate(x, clean, dirty)
  {
    var d := dirty - clean;
    assert (clean - x) / (clean - dirty) == (x - clean) / d by {
      assert clean - x == -(x - clean);
      assert clean - dirty == -d;
    }
  }

  /** Moving the metric toward a dirty endpoint that lies above the clean one never lowers the score. */
  lemma InterpolateRising(x: real, y: real, clean: real, dirty: real)
    requires clean < dirty
    requires x <= y
    ensures Interpolate(x, clean, dirty) <= Interpolate(y, clean, dirty)
  {
    var d := dirty - clean;
    DivideMonotone(x - clean, y - clean, d);
    PercentMonotone((x - clean) / d * 100.0, (y - clean) / d * 100.0);
  }

  /** Moving the metric toward a dirty endpoint that lies below the clean one never lowers the score. */
  lemma InterpolateFalling(x: real, y: real, clean: real, dirty: real)
    requires dirty < clean
    requires y <= x
    ensures Interpolate(x, clean, dirty) <= Interpolate(y, clean, dirty)
  {
    InvertedIsInterpolate(x, clean, dirty);
    InvertedIsInterpolate(y, clean, dirty);
    var d := clean - dirty;
    DivideMonotone(clean - x, clean - y, d);
    PercentMonotone((clean - x) / d * 100.0, (clean - y) / d * 100.0);
  }

  /** `x` lies at `clean` or beyond it, on the side away from `dirty`. */
  predicate CleanSide(x: real, clean: real, dirty: real)
  {
    if clean < dirty then x <= clean else clean <= x
  }

  /** `x` lies at `dirty` or beyond it, on the side away from `clean`. */
  predicate DirtySide(x: real, clean: real, dirty: real)
  {
    if clean < dirty then dirty <= x else x <= dirty
  }

  /**
   The constraint bites exactly at the ends: the score is 0 precisely for a metric
   at or beyond the clean endpoint, and 100 precisely for one at or beyond the
   dirty endpoint, in either orientation. Strictly between them it is strictly
   between 0 and 100.
   */
  lemma InterpolateSaturates(x: real, clean: real, dirty: real)
    requires clean != dirty
    ensures Interpolate(x, clean, dirty) == 0.0 <==> CleanSide(x, clean, dirty)
    ensures Interpolate(x, clean, dirty) == 100.0 <==> DirtySide(x, clean, dirty)
  {
    var d := dirty - clean;
    var q := (x - clean) / d;
    QuotientBounds(x - clean, d);
    assert Interpolate(x, clean, dirty) == Percent(q * 100.0);
    assert q * 100.0 <= 0.0 <==> q <= 0.0;
    assert q * 100.0 >= 100.0 <==> q >= 1.0;
  }

  /** Where a quotient stands relative to 0 and 1, read off its numerator and denominator. */
  lemma QuotientBounds(a: real, d: real)
    requires d != 0.0
    ensures a / d <= 0.0 <==> (if 0.0 < d then a <= 0.0 else 0.0 <= a)
    ensures a / d >= 1.0 <==> (if 0.0 < d then d <= a else a <= d)
  {
    var q := a / d;
    assert q * d == a;
    if 0.0 < d {
      assert q <= 0.0 <==> q * d <= 0.0;
      assert q >= 1.0 <==> q * d >= d;
    } else {
      assert q <= 0.0 <==> q * d >= 0.0;
      assert q >= 1.0 <==> q * d <= d;
    }
  }

  lemma DivideMonotone(a: real, b: real, d: real)
    requires a <= b
    requires 0.0 < d
    ensures a / d * 100.0 <= b / d * 100.0
  {
    assert a / d <= b / d by {
      assert (b - a) / d >= 0.0;
      assert b / d - a / d == (b - a) / d;
    }
  }
}
