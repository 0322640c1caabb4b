/** What the two comparison routines promise, proved about their closed forms. */
module ImageCompareProperties {
  import opened JavaInt
  import opened Image
  import opened ImageCompare

  // ---------------------------------------------------------------------------
  // Exact match

  /** A size mismatch is never a match, whatever the pixels. */
  lemma ExactMatchNeedsSameSize(expected: Raster, actual: Raster)
    requires expected.Valid() && actual.Valid()
    requires expected.width != actual.width || expected.height != actual.height
    ensures !ExactMatch(expected, actual)
  {
  }

  /** Every image matches itself. */
  lemma ExactMatchReflexive(image: Raster)
    requires image.Valid()
    ensures ExactMatch(image, image)
  {
  }

  /** Exact match does not depend on which image is the expected one. */
  lemma ExactMatchSymmetric(expected: Raster, actual: Raster)
    requires expected.Valid() && actual.Valid()
    ensures ExactMatch(expected, actual) == ExactMatch(actual, expected)
  {
  }

  // ---------------------------------------------------------------------------
  // One pixel

  /** Both images carry the same alpha byte at every coordinate. Only then is
      the packed difference a difference of 24-bit colours. */
  predicate AlphaAgrees(expected: Raster, actual: Raster)
    requires expected.Valid() && actual.Valid()
  {
    SameSize(expected, actual) &&
    forall y, x :: 0 <= y < expected.height && 0 <= x < expected.width ==>
      Alpha(expected.At(x, y)) == Alpha(actual.At(x, y))
  }

  /** The mode keeps every contribution inside its stated per-pixel maximum:
      every mode but the packed distance does, and that one when alpha agrees. */
  predicate Bounded(expected: Raster, actual: Raster, fullRgb: bool, isDistance: bool)
    requires expected.Valid() && actual.Valid()
  {
    fullRgb || !isDistance || AlphaAgrees(expected, actual)
  }

  /** The largest contribution of one pixel: 3 * 255, 3, 2^24 - 1 or 1. */
  function PixelMax(fullRgb: bool, isDistance: bool): nat {
    (if fullRgb then 3 else 1) * Scale(fullRgb, isDistance)
  }

  /** The pixels agree as far as the mode looks: the three colour bytes when
      channels are compared (alpha is ignored), the whole packed value otherwise. */
  predicate PixelAgrees(rgbExpected: Argb, rgbActual: Argb, fullRgb: bool) {
    if fullRgb then
      Red(rgbExpected) == Red(rgbActual) && Green(rgbExpected) == Green(rgbActual)
      && Blue(rgbExpected) == Blue(rgbActual)
    else rgbExpected == rgbActual
  }

  /** Two pixels with the same alpha byte differ by less than 2^24. */
  lemma SameAlphaIsClose(p: Argb, q: Argb)
    requires Alpha(p) == Alpha(q)
    ensures -0x100_0000 < p - q < 0x100_0000
  {
    SplitTopByte(p, p / 0x100_0000, p % 0x100_0000);
    SplitTopByte(q, q / 0x100_0000, q % 0x100_0000);
    assert p / 0x100_0000 == q / 0x100_0000;
  }

  /** Each channel is a byte, so one pixel adds at most 3 * 255 to the
      per-channel distance and between 0 and 3 to the per-channel count; the
      packed count adds 0 or 1, and the packed distance at most 2^24 - 1 when
      the alpha bytes agree. */
  lemma ContributionBounds(rgbExpected: Argb, rgbActual: Argb, fullRgb: bool, isDistance: bool)
    requires fullRgb || !isDistance || Alpha(rgbExpected) == Alpha(rgbActual)
    ensures 0 <= Contribution(rgbExpected, rgbActual, fullRgb, isDistance) <= PixelMax(fullRgb, isDistance)
  {
    if !fullRgb && isDistance {
      SameAlphaIsClose(rgbExpected, rgbActual);
    }
  }

  /** A pixel contributes nothing exactly when it agrees in the mode's sense. */
  lemma ContributionZeroIff(rgbExpected: Argb, rgbActual: Argb, fullRgb: bool, isDistance: bool)
    ensures Contribution(rgbExpected, rgbActual, fullRgb, isDistance) == 0
            <==> PixelAgrees(rgbExpected, rgbActual, fullRgb)
  {
    if !fullRgb && isDistance {
      var d := rgbExpected as int - rgbActual as int;
      if Wrap(d) == 0 {
        assert d % 0x1_0000_0000 == 0;
      }
    }
  }

  /** Every contribution is an absolute difference or an inequality test, so
      swapping the pixels changes nothing, even where the packed difference wraps. */
  lemma ContributionSymmetric(rgbExpected: Argb, rgbActual: Argb, fullRgb: bool, isDistance: bool)
    ensures Contribution(rgbExpected, rgbActual, fullRgb, isDistance)
            == Contribution(rgbActual, rgbExpected, fullRgb, isDistance)
  {
    if fullRgb {
      ChannelAbsSymmetric(Red(rgbExpected), Red(rgbActual));
      ChannelAbsSymmetric(Green(rgbExpected), Green(rgbActual));
      ChannelAbsSymmetric(Blue(rgbExpected), Blue(rgbActual));
    } else if isDistance {
      var d := rgbExpected as int - rgbActual as int;
      AbsWrapAntisymmetric(d);
      assert rgbActual as int - rgbExpected as int == -d;
    }
  }

  lemma ChannelAbsSymmetric(c: int, k: int)
    requires 0 <= c < 0x100 && 0 <= k < 0x100
    ensures Abs(c - k) == Abs(k - c)
  {
  }

  // ---------------------------------------------------------------------------
  // Whole images

  /** The images agree at every coordinate in the mode's sense. */
  predicate Agrees(expected: Raster, actual: Raster, fullRgb: bool)
    requires expected.Valid() && actual.Valid()
  {
    SameSize(expected, actual) &&
    forall y, x :: 0 <= y < expected.height && 0 <= x < expected.width ==>
      PixelAgrees(expected.At(x, y), actual.At(x, y), fullRgb)
  }

  lemma {:induction false} RowSumBounds(expected: Raster, actual: Raster, y: nat, n: nat, fullRgb: bool, isDistance: bool)
    requires expected.Valid() && actual.Valid() && SameSize(expected, actual)
    requires y < expected.height && n <= expected.width
    requires Bounded(expected, actual, fullRgb, isDistance)
    ensures 0 <= RowSum(expected, actual, y, n, fullRgb, isDistance) <= n * PixelMax(fullRgb, isDistance)
  {
    if n > 0 {
      RowSumBounds(expected, actual, y, n - 1, fullRgb, isDistance);
      ContributionBounds(expected.At(n - 1, y), actual.At(n - 1, y), fullRgb, isDistance);
      assert (n - 1) * PixelMax(fullRgb, isDistance) + PixelMax(fullRgb, isDistance) == n * PixelMax(fullRgb, isDistance);
    }
  }

  lemma {:induction false} GridSumBounds(expected: Raster, actual: Raster, m: nat, fullRgb: bool, isDistance: bool)
    requires expected.Valid() && actual.Valid() && SameSize(expected, actual)
    requires m <= expected.height
    requires Bounded(expected, actual, fullRgb, isDistance)
    ensures 0 <= GridSum(expected, actual, m, fullRgb, isDistance) <= m * (expected.width * PixelMax(fullRgb, isDistance))
  {
    if m > 0 {
      var row := expected.width * PixelMax(fullRgb, isDistance);
      GridSumBounds(expected, actual, m - 1, fullRgb, isDistance);
      RowSumBounds(expected, actual, m - 1, expected.width, fullRgb, isDistance);
      assert (m - 1) * row + row == m * row;
    }
  }

  /** The accumulated difference never exceeds the normalisation `N`. */
  lemma DifferenceBounds(expected: Raster, actual: Raster, fullRgb: bool, isDistance: bool)
    requires expected.Valid() && actual.Valid() && SameSize(expected, actual)
    requires Bounded(expected, actual, fullRgb, isDistance)
    ensures 0 <= Difference(expected, actual, fullRgb, isDistance)
              <= Denominator(expected.width, expected.height, fullRgb, isDistance)
  {
    var w, h := expected.width, expected.height;
    GridSumBounds(expected, actual, h, fullRgb, isDistance);
    DenominatorIsPixelsTimesMax(w, h, fullRgb, isDistance);
  }

  /** `N` is the number of pixels times what one pixel can contribute at most. */
  lemma DenominatorIsPixelsTimesMax(width: nat, height: nat, fullRgb: bool, isDistance: bool)
    ensures Denominator(width, height, fullRgb, isDistance) == height * (width * PixelMax(fullRgb, isDistance))
  {
    var s := Scale(fullRgb, isDistance);
    var c := if fullRgb then 3 else 1;
    assert Total(width, height, fullRgb) == (width * height) * c;
    assert (width * height) * c * s == height * (width * (c * s));
  }

  /** The four normalisations, written out. */
  lemma ModeDenominators(width: nat, height: nat)
    ensures Denominator(width, height, true, true) == width * height * 3 * 255
    ensures Denominator(width, height, true, false) == width * height * 3
    ensures Denominator(width, height, false, true) == width * height * 16777215
    ensures Denominator(width, height, false, false) == width * height
  {
  }

  /** A difference between 0 and a positive normalisation gives a ratio in [0, 1]. */
  lemma RatioInUnitInterval(d: int, n: int)
    requires 0 <= d <= n && n > 0
    ensures 0.0 <= d as real / n as real <= 1.0
  {
  }

  /** Images of different size score exactly 0 in every mode. */
  lemma SizeMismatchScoresZero(expected: Raster, actual: Raster, fullRgb: bool, isDistance: bool)
    requires expected.Valid() && actual.Valid() && !SameSize(expected, actual)
    ensures Similarity(expected, actual, fullRgb, isDistance) == Finite(0.0)
  {
  }

  /** Equal-size images without pixels give `0.0 / 0.0`, and only they. */
  lemma NaNExactlyForEmptyImages(expected: Raster, actual: Raster, fullRgb: bool, isDistance: bool)
    requires expected.Valid() && actual.Valid() && SameSize(expected, actual)
    ensures Similarity(expected, actual, fullRgb, isDistance) == NaN <==> expected.width * expected.height == 0
  {
    DenominatorVanishes(expected.width, expected.height, fullRgb, isDistance);
  }

  /** The score lies in [0, 1] in every mode, for the packed distance provided
      the alpha bytes agree. */
  lemma SimilarityInUnitInterval(expected: Raster, actual: Raster, fullRgb: bool, isDistance: bool)
    requires expected.Valid() && actual.Valid()
    requires SameSize(expected, actual) ==> Bounded(expected, actual, fullRgb, isDistance)
    ensures Similarity(expected, actual, fullRgb, isDistance).Finite? ==>
              0.0 <= Similarity(expected, actual, fullRgb, isDistance).value <= 1.0
  {
    if SameSize(expected, actual) {
      var n := Denominator(expected.width, expected.height, fullRgb, isDistance);
      if n != 0 {
        DifferenceBounds(expected, actual, fullRgb, isDistance);
        RatioInUnitInterval(Difference(expected, actual, fullRgb, isDistance), n);
      }
    }
  }

  lemma {:induction false} RowSumSymmetric(expected: Raster, actual: Raster, y: nat, n: nat, fullRgb: bool, isDistance: bool)
    requires expected.Valid() && actual.Valid() && SameSize(expected, actual)
    requires y < expected.height && n <= expected.width
    ensures RowSum(expected, actual, y, n, fullRgb, isDistance) == RowSum(actual, expected, y, n, fullRgb, isDistance)
  {
    if n > 0 {
      RowSumSymmetric(expected, actual, y, n - 1, fullRgb, isDistance);
      ContributionSymmetric(expected.At(n - 1, y), actual.At(n - 1, y), fullRgb, isDistance);
    }
  }

  lemma {:induction false} GridSumSymmetric(expected: Raster, actual: Raster, m: nat, fullRgb: bool, isDistance: bool)
    requires expected.Valid() && actual.Valid() && SameSize(expected, actual)
    requires m <= expected.height
    ensures GridSum(expected, actual, m, fullRgb, isDistance) == GridSum(actual, expected, m, fullRgb, isDistance)
  {
    if m > 0 {
      GridSumSymmetric(expected, actual, m - 1, fullRgb, isDistance);
      RowSumSymmetric(expected, actual, m - 1, expected.width, fullRgb, isDistance);
    }
  }

  /** The score does not depend on which image is the expected one. */
  lemma SimilaritySymmetric(expected: Raster, actual: Raster, fullRgb: bool, isDistance: bool)
    requires expected.Valid() && actual.Valid()
    ensures Similarity(expected, actual, fullRgb, isDistance) == Similarity(actual, expected, fullRgb, isDistance)
  {
    if SameSize(expected, actual) {
      GridSumSymmetric(expected, actual, expected.height, fullRgb, isDistance);
    }
  }

  lemma {:induction false} RowSumOfAgreement(expected: Raster, actual: Raster, y: nat, n: nat, fullRgb: bool, isDistance: bool)
    requires expected.Valid() && actual.Valid() && SameSize(expected, actual)
    requires y < expected.height && n <= expected.width
    requires forall i :: 0 <= i < n ==> PixelAgrees(expected.At(i, y), actual.At(i, y), fullRgb)
    ensures RowSum(expected, actual, y, n, fullRgb, isDistance) == 0
  {
    if n > 0 {
      RowSumOfAgreement(expected, actual, y, n - 1, fullRgb, isDistance);
      ContributionZeroIff(expected.At(n - 1, y), actual.At(n - 1, y), fullRgb, isDistance);
    }
  }

  lemma {:induction false} GridSumOfAgreement(expected: Raster, actual: Raster, m: nat, fullRgb: bool, isDistance: bool)
    requires expected.Valid() && actual.Valid() && Agrees(expected, actual, fullRgb)
    requires m <= expected.height
    ensures GridSum(expected, actual, m, fullRgb, isDistance) == 0
  {
    if m > 0 {
      GridSumOfAgreement(expected, actual, m - 1, fullRgb, isDistance);
      RowSumOfAgreement(expected, actual, m - 1, expected.width, fullRgb, isDistance);
    }
  }

  lemma {:induction false} RowSumZeroOnlyIfAgreement(expected: Raster, actual: Raster, y: nat, n: nat, fullRgb: bool, isDistance: bool)
    requires expected.Valid() && actual.Valid() && SameSize(expected, actual)
    requires y < expected.height && n <= expected.width
    requires Bounded(expected, actual, fullRgb, isDistance)
    requires RowSum(expected, actual, y, n, fullRgb, isDistance) == 0
    ensures forall i :: 0 <= i < n ==> PixelAgrees(expected.At(i, y), actual.At(i, y), fullRgb)
  {
    if n > 0 {
      RowSumBounds(expected, actual, y, n - 1, fullRgb, isDistance);
      ContributionBounds(expected.At(n - 1, y), actual.At(n - 1, y), fullRgb, isDistance);
      ContributionZeroIff(expected.At(n - 1, y), actual.At(n - 1, y), fullRgb, isDistance);
      RowSumZeroOnlyIfAgreement(expected, actual, y, n - 1, fullRgb, isDistance);
    }
  }

  lemma {:induction false} GridSumZeroOnlyIfAgreement(expected: Raster, actual: Raster, m: nat, fullRgb: bool, isDistance: bool)
    requires expected.Valid() && actual.Valid() && SameSize(expected, actual)
    requires m <= expected.height
    requires Bounded(expected, actual, fullRgb, isDistance)
    requires GridSum(expected, actual, m, fullRgb, isDistance) == 0
    ensures forall y, x :: 0 <= y < m && 0 <= x < expected.width ==>
              PixelAgrees(expected.At(x, y), actual.At(x, y), fullRgb)
  {
    if m > 0 {
      GridSumBounds(expected, actual, m - 1, fullRgb, isDistance);
      RowSumBounds(expected, actual, m - 1, expected.width, fullRgb, isDistance);
      GridSumZeroOnlyIfAgreement(expected, actual, m - 1, fullRgb, isDistance);
      RowSumZeroOnlyIfAgreement(expected, actual, m - 1, expected.width, fullRgb, isDistance);
    }
  }

  /** Images that agree everywhere in the mode's sense score exactly 1. */
  lemma AgreementScoresOne(expected: Raster, actual: Raster, fullRgb: bool, isDistance: bool)
    requires expected.Valid() && actual.Valid() && Agrees(expected, actual, fullRgb)
    requires expected.width * expected.height > 0
    ensures Similarity(expected, actual, fullRgb, isDistance) == Finite(1.0)
  {
    var w, h := expected.width, expected.height;
    GridSumOfAgreement(expected, actual, h, fullRgb, isDistance);
    assert Total(w, h, fullRgb) == if fullRgb then (w * h) * 3 else w * h;
    DenominatorVanishes(w, h, fullRgb, isDistance);
    var n := Denominator(w, h, fullRgb, isDistance);
    assert n != 0;
    assert Difference(expected, actual, fullRgb, isDistance) as real / n as real == 0.0;
  }

  /** Only images that agree everywhere in the mode's sense score exactly 1;
      for the packed distance this needs the alpha bytes to agree. */
  lemma ScoreOneOnlyIfAgreement(expected: Raster, actual: Raster, fullRgb: bool, isDistance: bool)
    requires expected.Valid() && actual.Valid()
    requires SameSize(expected, actual) ==> Bounded(expected, actual, fullRgb, isDistance)
    requires Similarity(expected, actual, fullRgb, isDistance) == Finite(1.0)
    ensures Agrees(expected, actual, fullRgb)
  {
    var n := Denominator(expected.width, expected.height, fullRgb, isDistance);
    var d := Difference(expected, actual, fullRgb, isDistance);
    assert d as real / n as real == 0.0;
    assert d == 0;
    GridSumZeroOnlyIfAgreement(expected, actual, expected.height, fullRgb, isDistance);
  }

  /** When the packed values are compared, a score of exactly 1 means an exact
      match and nothing else. */
  lemma PackedScoreOneIffExactMatch(expected: Raster, actual: Raster, isDistance: bool)
    requires expected.Valid() && actual.Valid() && expected.width * expected.height > 0
    requires SameSize(expected, actual) ==> Bounded(expected, actual, false, isDistance)
    ensures Similarity(expected, actual, false, isDistance) == Finite(1.0) <==> ExactMatch(expected, actual)
  {
    if ExactMatch(expected, actual) {
      AgreementScoresOne(expected, actual, false, isDistance);
    }
    if Similarity(expected, actual, false, isDistance) == Finite(1.0) {
      ScoreOneOnlyIfAgreement(expected, actual, false, isDistance);
    }
  }

  /** When channels are compared, a score of exactly 1 means equal red, green
      and blue bytes everywhere; alpha plays no part. */
  lemma ChannelScoreOneIffColoursAgree(expected: Raster, actual: Raster, isDistance: bool)
    requires expected.Valid() && actual.Valid() && expected.width * expected.height > 0
    ensures Similarity(expected, actual, true, isDistance) == Finite(1.0) <==> Agrees(expected, actual, true)
  {
    if Agrees(expected, actual, true) {
      AgreementScoresOne(expected, actual, true, isDistance);
    }
    if Similarity(expected, actual, true, isDistance) == Finite(1.0) {
      ScoreOneOnlyIfAgreement(expected, actual, true, isDistance);
    }
  }

  /** Images that pass the exact match score exactly 1 in every mode. */
  lemma ExactMatchScoresOne(expected: Raster, actual: Raster, fullRgb: bool, isDistance: bool)
    requires expected.Valid() && actual.Valid() && ExactMatch(expected, actual)
    requires expected.width * expected.height > 0
    ensures Similarity(expected, actual, fullRgb, isDistance) == Finite(1.0)
  {
    AgreementScoresOne(expected, actual, fullRgb, isDistance);
  }

  /** An image compared with itself scores exactly 1 in every mode. */
  lemma IdenticalScoresOne(image: Raster, fullRgb: bool, isDistance: bool)
    requires image.Valid() && image.width * image.height > 0
    ensures Similarity(image, image, fullRgb, isDistance) == Finite(1.0)
  {
    ExactMatchScoresOne(image, image, fullRgb, isDistance);
  }
}
