/** The two comparison routines of `ImageCompare`: exact pixel equality and the
    similarity ratio under the four difference modes. */
module ImageCompare {
  import opened JavaInt
  import opened Image

  /** Both images have the same width and the same height. */
  predicate SameSize(expected: Raster, actual: Raster) {
    expected.width == actual.width && expected.height == actual.height
  }

  /** Every coordinate holds the same packed value in both images. */
  predicate PixelsEqual(expected: Raster, actual: Raster)
    requires expected.Valid() && actual.Valid() && SameSize(expected, actual)
  {
    forall y, x :: 0 <= y < expected.height && 0 <= x < expected.width ==>
      expected.At(x, y) == actual.At(x, y)
  }

  /** What `imagesAreExactMatches` decides: equal size and equal pixels. */
  predicate ExactMatch(expected: Raster, actual: Raster)
    requires expected.Valid() && actual.Valid()
  {
    SameSize(expected, actual) && PixelsEqual(expected, actual)
  }

  /** `imagesAreExactMatches`: a row-by-row scan that stops at the first
      coordinate whose packed values differ. */
  method ImagesAreExactMatches(expectedImage: Raster, actualImage: Raster) returns (matches: bool)
    requires expectedImage.Valid() && actualImage.Valid()
    ensures matches == ExactMatch(expectedImage, actualImage)
  {
    var width := expectedImage.width;
    var height := expectedImage.height;
    if width != actualImage.width || height != actualImage.height {
      return false;
    }
    for y := 0 to height
      invariant forall j, i :: 0 <= j < y && 0 <= i < width ==>
        expectedImage.At(i, j) == actualImage.At(i, j)
    {
      for x := 0 to width
        invariant forall j, i :: 0 <= j < y && 0 <= i < width ==>
          expectedImage.At(i, j) == actualImage.At(i, j)
        invariant forall i :: 0 <= i < x ==> expectedImage.At(i, y) == actualImage.At(i, y)
      {
        if expectedImage.At(x, y) != actualImage.At(x, y) {
          return false;
        }
      }
    }
    return true;
  }

  /** What one pixel adds to `theDifferentOnes`. With `fullRgb` the red, green
      and blue bytes are compared one by one, otherwise the packed `int` as a
      whole; with `isDistance` the absolute differences are added, otherwise
      the differing parts are counted. The packed difference is Java `int`
      subtraction and `Math.abs`, both of which wrap around. */
  function Contribution(rgbExpected: Argb, rgbActual: Argb, fullRgb: bool, isDistance: bool): (c: int)
    ensures rgbExpected == rgbActual ==> c == 0
    ensures fullRgb || !isDistance ==> c >= 0
  {
    if fullRgb then
      var dr, dg, db := Red(rgbExpected) - Red(rgbActual),
                        Green(rgbExpected) - Green(rgbActual),
                        Blue(rgbExpected) - Blue(rgbActual);
      if isDistance then Abs(dr) + Abs(dg) + Abs(db)
      else (if Abs(dr) > 0 then 1 else 0) + (if Abs(dg) > 0 then 1 else 0) + (if Abs(db) > 0 then 1 else 0)
    else if isDistance then Abs(Wrap(rgbExpected as int - rgbActual as int))
    else if rgbExpected != rgbActual then 1 else 0
  }

  /** The contributions of the first `n` pixels of row `y`. */
  function RowSum(expected: Raster, actual: Raster, y: nat, n: nat, fullRgb: bool, isDistance: bool): int
    requires expected.Valid() && actual.Valid() && SameSize(expected, actual)
    requires y < expected.height && n <= expected.width
  {
    if n == 0 then 0
    else RowSum(expected, actual, y, n - 1, fullRgb, isDistance)
         + Contribution(expected.At(n - 1, y), actual.At(n - 1, y), fullRgb, isDistance)
  }

  /** The contributions of all pixels of the first `m` rows. */
  function GridSum(expected: Raster, actual: Raster, m: nat, fullRgb: bool, isDistance: bool): int
    requires expected.Valid() && actual.Valid() && SameSize(expected, actual)
    requires m <= expected.height
  {
    if m == 0 then 0
    else GridSum(expected, actual, m - 1, fullRgb, isDistance)
         + RowSum(expected, actual, m - 1, expected.width, fullRgb, isDistance)
  }

  /** The accumulated difference `D` over the whole image. */
  function Difference(expected: Raster, actual: Raster, fullRgb: bool, isDistance: bool): int
    requires expected.Valid() && actual.Valid() && SameSize(expected, actual)
  {
    GridSum(expected, actual, expected.height, fullRgb, isDistance)
  }

  /** `theTotal`: the image surface, times three when channels are compared. */
  function Total(width: nat, height: nat, fullRgb: bool): (t: nat)
    ensures t == 0 <==> width == 0 || height == 0
  {
    if fullRgb then width * height * 3 else width * height
  }

  /** The extra divisor of the distance modes: the largest 8-bit value for a
      channel, the largest 24-bit value for a packed pixel. */
  function Scale(fullRgb: bool, isDistance: bool): nat {
    if !isDistance then 1 else if fullRgb then 255 else 16777215
  }

  /** The normalisation `N` that the accumulated difference is divided by. */
  function Denominator(width: nat, height: nat, fullRgb: bool, isDistance: bool): nat {
    Total(width, height, fullRgb) * Scale(fullRgb, isDistance)
  }

  /** The `double` the routine returns. Every value it can produce is an exact
      rational, except the `0.0 / 0.0` of an empty image, which is NaN. */
  datatype Score = Finite(value: real) | NaN

  /** The closed form of the similarity ratio: `0` for images of different
      size, otherwise `1 - D / N`. */
  function Similarity(expected: Raster, actual: Raster, fullRgb: bool, isDistance: bool): Score
    requires expected.Valid() && actual.Valid()
  {
    if !SameSize(expected, actual) then Finite(0.0)
    else
      var n := Denominator(expected.width, expected.height, fullRgb, isDistance);
      if n == 0 then NaN
      else Finite(1.0 - Difference(expected, actual, fullRgb, isDistance) as real / n as real)
  }

  /** `imagesPixelIdenticalRatio`: accumulate the per-pixel differences, divide
      by the total, scale the distance modes down, and return one minus the result. */
  method ImagesPixelIdenticalRatio(expectedImage: Raster, actualImage: Raster, fullRgb: bool, isDistance: bool)
    returns (ratio: Score)
    requires expectedImage.Valid() && actualImage.Valid()
    ensures ratio == Similarity(expectedImage, actualImage, fullRgb, isDistance)
  {
    var width := expectedImage.width;
    var height := expectedImage.height;
    if width != actualImage.width || height != actualImage.height {
      return Finite(0.0);
    }
    var theDifferentOnes := AccumulateDifferences(expectedImage, actualImage, fullRgb, isDistance);

    var theTotal: int;
    if fullRgb {
      theTotal := width * height * 3;
    } else {
      theTotal := width * height;
    }
    assert theTotal == Total(width, height, fullRgb);
    DenominatorVanishes(width, height, fullRgb, isDistance);
    if theTotal == 0 {
      // no pixel was visited, so this is 0.0 / 0.0
      return NaN;
    }
    var avgDiffPixels := theDifferentOnes as real / theTotal as real;

    var percDiff := 0.0;
    if fullRgb {
      if isDistance {
        percDiff := avgDiffPixels / 255.0;
      } else {
        percDiff := avgDiffPixels;
      }
    } else {
      if isDistance {
        percDiff := avgDiffPixels / 16777215.0;
      } else {
        percDiff := avgDiffPixels;
      }
    }
    ScaledDown(avgDiffPixels, percDiff, fullRgb, isDistance);
    NormaliseInTwoSteps(theDifferentOnes, theTotal, Scale(fullRgb, isDistance));
    return Finite(1.0 - percDiff);
  }

  /** The nested scan of `imagesPixelIdenticalRatio` that adds every pixel's
      difference to `theDifferentOnes`, row by row. */
  method AccumulateDifferences(expectedImage: Raster, actualImage: Raster, fullRgb: bool, isDistance: bool)
    returns (theDifferentOnes: int)
    requires expectedImage.Valid() && actualImage.Valid() && SameSize(expectedImage, actualImage)
    ensures theDifferentOnes == Difference(expectedImage, actualImage, fullRgb, isDistance)
  {
    theDifferentOnes := 0;
    for y := 0 to expectedImage.height
      invariant theDifferentOnes == GridSum(expectedImage, actualImage, y, fullRgb, isDistance)
    {
      for x := 0 to expectedImage.width
        invariant theDifferentOnes == GridSum(expectedImage, actualImage, y, fullRgb, isDistance)
                                      + RowSum(expectedImage, actualImage, y, x, fullRgb, isDistance)
      {
        ghost var before := theDifferentOnes;
        var rgbExpected := expectedImage.At(x, y);
        var rgbActual := actualImage.At(x, y);
        if fullRgb {
          var redExpected, greenExpected, blueExpected := Red(rgbExpected), Green(rgbExpected), Blue(rgbExpected);
          var redActual, greenActual, blueActual := Red(rgbActual), Green(rgbActual), Blue(rgbActual);
          if isDistance {
            theDifferentOnes := theDifferentOnes + Abs(redExpected - redActual);
            theDifferentOnes := theDifferentOnes + Abs(greenExpected - greenActual);
            theDifferentOnes := theDifferentOnes + Abs(blueExpected - blueActual);
          } else {
            if Abs(redExpected - redActual) > 0 {
              theDifferentOnes := theDifferentOnes + 1;
            }
            if Abs(greenExpected - greenActual) > 0 {
              theDifferentOnes := theDifferentOnes + 1;
            }
            if Abs(blueExpected - blueActual) > 0 {
              theDifferentOnes := theDifferentOnes + 1;
            }
          }
        } else {
          if isDistance {
            theDifferentOnes := theDifferentOnes + Abs(Wrap(rgbExpected as int - rgbActual as int));
          } else {
            if rgbExpected != rgbActual {
              theDifferentOnes := theDifferentOnes + 1;
            }
          }
        }
        assert theDifferentOnes == before + Contribution(rgbExpected, rgbActual, fullRgb, isDistance);
      }
    }
  }

  /** The normalisation vanishes exactly when the total does. */
  lemma DenominatorVanishes(width: nat, height: nat, fullRgb: bool, isDistance: bool)
    ensures Denominator(width, height, fullRgb, isDistance) == 0 <==> Total(width, height, fullRgb) == 0
  {
    var t := Total(width, height, fullRgb);
    if !isDistance {
      assert Denominator(width, height, fullRgb, isDistance) == t * 1;
    } else if fullRgb {
      assert Denominator(width, height, fullRgb, isDistance) == t * 255;
    } else {
      assert Denominator(width, height, fullRgb, isDistance) == t * 16777215;
    }
  }

  /** The branches on the two flags divide the average by the mode's scale. */
  lemma ScaledDown(avgDiffPixels: real, percDiff: real, fullRgb: bool, isDistance: bool)
    requires percDiff == if fullRgb then (if isDistance then avgDiffPixels / 255.0 else avgDiffPixels)
                         else (if isDistance then avgDiffPixels / 16777215.0 else avgDiffPixels)
    ensures percDiff == avgDiffPixels / Scale(fullRgb, isDistance) as real
  {
  }

  /** Dividing by the total and then by the scale is dividing once by their product. */
  lemma NormaliseInTwoSteps(d: int, total: int, scale: int)
    requires total > 0 && scale > 0
    ensures (d as real / total as real) / scale as real == d as real / (total * scale) as real
  {
  }
}
