/** Small concrete comparisons worked out against the model. */
module Scenarios {
  import opened JavaInt
  import opened Image
  import opened ImageCompare

  /** An opaque red pixel, `0xFFFF0000` as a Java `int`. */
  const OpaqueRed: Argb := -0x1_0000
  /** An opaque green pixel, `0xFF00FF00` as a Java `int`. */
  const OpaqueGreen: Argb := -0xFF_0100
  /** An opaque black pixel, `0xFF000000` as a Java `int`. */
  const OpaqueBlack: Argb := -0x100_0000
  /** A fully transparent black pixel. */
  const TransparentBlack: Argb := 0

  /** One red pixel against one green pixel: two of three channels differ
      completely, so both per-channel modes score 1/3. */
  lemma RedAgainstGreenPerChannel()
    ensures var e, a := Raster(1, 1, [[OpaqueRed]]), Raster(1, 1, [[OpaqueGreen]]);
      && Similarity(e, a, true, true) == Finite(1.0 / 3.0)
      && Similarity(e, a, true, false) == Finite(1.0 / 3.0)
  {
    var e, a := Raster(1, 1, [[OpaqueRed]]), Raster(1, 1, [[OpaqueGreen]]);
    assert e.At(0, 0) == OpaqueRed && a.At(0, 0) == OpaqueGreen;
    RedGreenContributions();
    OnePixelSimilarity(e, a, true, true);
    OnePixelSimilarity(e, a, true, false);
    Fractions();
  }

  /** The same two pixels compared as packed values: they are not an exact
      match, the packed count scores 0, and the packed distance measures the
      gap between the two 24-bit values. */
  lemma RedAgainstGreenPacked()
    ensures var e, a := Raster(1, 1, [[OpaqueRed]]), Raster(1, 1, [[OpaqueGreen]]);
      && !ExactMatch(e, a)
      && Similarity(e, a, false, false) == Finite(0.0)
      && Similarity(e, a, false, true) == Finite(1.0 - 16646400.0 / 16777215.0)
  {
    var e, a := Raster(1, 1, [[OpaqueRed]]), Raster(1, 1, [[OpaqueGreen]]);
    assert e.At(0, 0) == OpaqueRed && a.At(0, 0) == OpaqueGreen;
    RedGreenContributions();
    OnePixelSimilarity(e, a, false, false);
    OnePixelSimilarity(e, a, false, true);
    Fractions();
  }

  /** A transparent black pixel against an opaque black one: the packed
      distance sees the alpha byte and exceeds 2^24 - 1, so the score drops
      below 0, while the per-channel distance ignores alpha and scores 1. */
  lemma AlphaBreaksPackedDistanceBound()
    ensures var e, a := Raster(1, 1, [[TransparentBlack]]), Raster(1, 1, [[OpaqueBlack]]);
      && Similarity(e, a, false, true) == Finite(1.0 - 16777216.0 / 16777215.0)
      && Similarity(e, a, false, true).value < 0.0
      && Similarity(e, a, true, true) == Finite(1.0)
  {
    var e, a := Raster(1, 1, [[TransparentBlack]]), Raster(1, 1, [[OpaqueBlack]]);
    assert e.At(0, 0) == TransparentBlack && a.At(0, 0) == OpaqueBlack;
    BlackContributions();
    OnePixelSimilarity(e, a, false, true);
    OnePixelSimilarity(e, a, true, true);
    Fractions();
  }

  /** A transparent black pixel against `Integer.MIN_VALUE` (`0x80000000`):
      `Math.abs(0 - MIN_VALUE)` wraps back to `MIN_VALUE`, so the packed
      distance adds a negative amount and the score rises above 1. */
  lemma MinValueScoresAboveOne()
    ensures var e, a := Raster(1, 1, [[TransparentBlack]]), Raster(1, 1, [[IntMin]]);
      && Similarity(e, a, false, true) == Finite(1.0 + 2147483648.0 / 16777215.0)
      && Similarity(e, a, false, true).value > 1.0
  {
    var e, a := Raster(1, 1, [[TransparentBlack]]), Raster(1, 1, [[IntMin]]);
    assert e.At(0, 0) == TransparentBlack && a.At(0, 0) == IntMin;
    assert Contribution(TransparentBlack, IntMin, false, true) == IntMin;
    OnePixelSimilarity(e, a, false, true);
    MinValueFraction();
  }

  /** Three pixels whose packed distances cancel: the first adds `MIN_VALUE`
      as above and the other two add 2^30 each, so the packed distance scores
      exactly 1 although the images are no exact match. */
  lemma PackedDistanceCancels()
    ensures var e, a := Raster(3, 1, [[0, 0x4000_0000, 0x4000_0000]]), Raster(3, 1, [[IntMin, 0, 0]]);
      && !ExactMatch(e, a)
      && Similarity(e, a, false, true) == Finite(1.0)
  {
    var e, a := Raster(3, 1, [[0, 0x4000_0000, 0x4000_0000]]), Raster(3, 1, [[IntMin, 0, 0]]);
    assert e.At(0, 0) == 0 && a.At(0, 0) == IntMin;
    assert e.At(1, 0) == 0x4000_0000 && a.At(1, 0) == 0;
    assert e.At(2, 0) == 0x4000_0000 && a.At(2, 0) == 0;
    assert Contribution(0, IntMin, false, true) == IntMin;
    assert Contribution(0x4000_0000, 0, false, true) == 0x4000_0000;
    assert RowSum(e, a, 0, 1, false, true) == -0x8000_0000;
    assert RowSum(e, a, 0, 2, false, true) == -0x4000_0000;
    assert RowSum(e, a, 0, 3, false, true) == 0;
    assert Difference(e, a, false, true) == GridSum(e, a, 1, false, true) == 0;
    assert Denominator(3, 1, false, true) == 50331645;
  }

  lemma RedGreenContributions()
    ensures Contribution(OpaqueRed, OpaqueGreen, true, true) == 510
    ensures Contribution(OpaqueRed, OpaqueGreen, true, false) == 2
    ensures Contribution(OpaqueRed, OpaqueGreen, false, false) == 1
    ensures Contribution(OpaqueRed, OpaqueGreen, false, true) == 16646400
  {
    assert Red(OpaqueRed) == 255 && Green(OpaqueRed) == 0 && Blue(OpaqueRed) == 0;
    assert Red(OpaqueGreen) == 0 && Green(OpaqueGreen) == 255 && Blue(OpaqueGreen) == 0;
  }

  lemma BlackContributions()
    ensures Contribution(TransparentBlack, OpaqueBlack, false, true) == 16777216
    ensures Contribution(TransparentBlack, OpaqueBlack, true, true) == 0
  {
    assert Red(OpaqueBlack) == 0 && Green(OpaqueBlack) == 0 && Blue(OpaqueBlack) == 0;
  }

  /** The constant fractions of the scenarios above. */
  lemma Fractions()
    ensures 1.0 - 510 as real / 765 as real == 1.0 / 3.0
    ensures 1.0 - 2 as real / 3 as real == 1.0 / 3.0
    ensures 1.0 - 1 as real / 1 as real == 0.0
    ensures 1.0 - 0 as real / 765 as real == 1.0
    ensures 16646400 as real / 16777215 as real == 16646400.0 / 16777215.0
    ensures 16777216 as real / 16777215 as real == 16777216.0 / 16777215.0
    ensures 1.0 - 16777216.0 / 16777215.0 < 0.0
  {
  }

  /** The constant fraction of `MinValueScoresAboveOne`. */
  lemma MinValueFraction()
    ensures 1.0 - (-2147483648) as real / 16777215 as real == 1.0 + 2147483648.0 / 16777215.0
    ensures 1.0 + 2147483648.0 / 16777215.0 > 1.0
  {
  }

  /** Two one-pixel images score one minus that pixel's contribution over the
      most it could contribute. */
  lemma OnePixelSimilarity(e: Raster, a: Raster, fullRgb: bool, isDistance: bool)
    requires e.Valid() && a.Valid() && e.width == 1 && e.height == 1 && SameSize(e, a)
    ensures Similarity(e, a, fullRgb, isDistance)
            == Finite(1.0 - Contribution(e.At(0, 0), a.At(0, 0), fullRgb, isDistance) as real
                            / (if fullRgb then 3 * Scale(fullRgb, isDistance) else Scale(fullRgb, isDistance)) as real)
  {
    assert GridSum(e, a, 1, fullRgb, isDistance) == RowSum(e, a, 0, 1, fullRgb, isDistance);
    assert Difference(e, a, fullRgb, isDistance) == Contribution(e.At(0, 0), a.At(0, 0), fullRgb, isDistance);
    assert Total(1, 1, fullRgb) == if fullRgb then 3 else 1;
  }
}
