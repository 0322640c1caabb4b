# ImageCompare in Dafny

A model of the `ImageCompare` helper of a Java test-utilities library. It
compares two raster images pixel by pixel, the way a test assertion checks a
rendered image against a known-good baseline. It has two routines:

- `imagesAreExactMatches` returns `false` when the widths or heights differ.
  Otherwise it scans the rows, then the columns, and returns `false` at the
  first coordinate whose `getRGB` values differ. If no pixel differs it
  returns `true`.
- `imagesPixelIdenticalRatio` returns `0` when the sizes differ. Otherwise it
  adds up a per-pixel difference. There are four modes, chosen by two flags:
  - `fullRgb` compares the red, green and blue bytes one by one instead of
    the packed value as a whole.
  - `isDistance` adds absolute differences instead of counting mismatches.

  The sum is divided by the surface (times three in per-channel mode), then
  by 255 or 16777215 in the distance modes. The routine returns one minus
  the result.

## How the model is built

- `java_int.dfy` (module `JavaInt`): Java `int` values and the two operations
  the routines use from Java `int` arithmetic. These are wrap-around
  subtraction and `Math.abs`, where `Math.abs(Integer.MIN_VALUE)` is negative.
- `image.dfy` (module `Image`): the read-only `Raster` (width, height and
  rows of pixels). It stands in for `BufferedImage`; `At(x, y)` stands in
  for `getRGB(x, y)`. A pixel is the 32-bit ARGB `int` that `getRGB` returns.
  Channel extraction `(p >> k) & 0xff` is written as floor division by 2^k
  followed by the non-negative remainder mod 256. `Pack` and the two
  round-trip lemmas show that this reads back the byte layout.
- `image_compare.dfy` (module `ImageCompare`). Both routines are methods
  whose nested `for` loops follow the source. Each is proved equal to a
  function of the images:
  - `ExactMatch` is equal size and equal pixels everywhere.
  - `Contribution` is what one pixel adds to `theDifferentOnes`.
  - `RowSum` and `GridSum` add the contributions of the rows and columns
    scanned so far. They are the loop invariants of `AccumulateDifferences`.
  - `Similarity` is the closed form: `0` for a size mismatch, otherwise
    `1 - D/N`. `D` is the accumulated difference. `N` is `Total * Scale`:
    `w*h*3*255`, `w*h*3`, `w*h*16777215` or `w*h`.
- `image_compare_properties.dfy` (module `ImageCompareProperties`): what the
  routines promise, proved about the closed forms.
- `scenarios.dfy` (module `Scenarios`): one-pixel comparisons worked out
  exactly.
- `total_overflow.dfy` (module `TotalOverflow`): the `int` overflow of
  `theTotal`; see Findings.

The accumulator `theDifferentOnes` is a `double` in the source but only ever
holds integers, so it is an `int` here. The score is an exact `real`. The
result type `Score` is either `Finite(value)` or `NaN`.

Two consequences of the code's own arithmetic:

- Two images of equal size with no pixels give `0.0 / 0.0`
  (ImageCompare.java:171-180). That is NaN, and the model returns `NaN`.
- The packed distance of one pixel can exceed 16777215 when the alpha bytes
  differ, because `getRGB` includes alpha
  (`Scenarios.AlphaBreaksPackedDistanceBound`).

## Model

| member | source | states |
|---|---|---|
| `JavaInt.Wrap` | ImageCompare.java:153 | Java `int` subtraction: the unique `int` congruent to the exact result modulo 2^32, and the exact result itself when that fits |
| `JavaInt.Abs` | ImageCompare.java:136-153 | `Math.abs` on `int`: the magnitude of its argument, except that `MIN_VALUE` maps to itself |
| `JavaInt.AbsWrapAntisymmetric` | ImageCompare.java:153 | `Math.abs(a - b) == Math.abs(b - a)` under `int` wrap-around, including the `MIN_VALUE` case |
| `Image.Red` | ImageCompare.java:126 | `(p >> 16) & 0xff` is a byte in [0, 255] |
| `Image.Green` | ImageCompare.java:127 | `(p >> 8) & 0xff` is a byte in [0, 255] |
| `Image.Blue` | ImageCompare.java:128 | `p & 0xff` is a byte in [0, 255] |
| `Image.UnpackPack` | ImageCompare.java:126-132 | extracting the channels of a pixel packed from four bytes gives back those bytes |
| `Image.PackUnpack` | ImageCompare.java:126-132 | every `int` pixel is the packing of its extracted alpha, red, green and blue bytes, so extraction loses nothing |
| `Image.Raster.At` | ImageCompare.java:121-122 | `getRGB(x, y)`: the packed pixel at column `x` of row `y`, defined only inside the raster |
| `ImageCompare.Contribution` | ImageCompare.java:124-158 | what one pixel adds to `theDifferentOnes` in each of the four modes; equal pixels add nothing, and every mode but the packed distance adds a non-negative amount |
| `ImageCompare.Total` | ImageCompare.java:170-174 | `theTotal`, the surface times three per channel or the surface alone; it is 0 exactly when the width or the height is 0 |
| `ImageCompare.Similarity` | ImageCompare.java:106-205 | the closed form of the returned score, `0`, NaN or `1 - D/N`, that `ImagesPixelIdenticalRatio` is proved equal to; its properties are the `ImageCompareProperties` lemmas |
| `ImageCompare.ImagesAreExactMatches` | ImageCompare.java:38-54 | the early-exit scan returns true exactly when the sizes agree and every coordinate holds equal packed values |
| `ImageCompare.ImagesPixelIdenticalRatio` | ImageCompare.java:86-206 | the result is 0 for a size mismatch, NaN for an empty image, and otherwise exactly `1 - D/N` for the mode's `N` |
| `ImageCompare.AccumulateDifferences` | ImageCompare.java:117-161 | after the nested scan, `theDifferentOnes` is the sum of every pixel's contribution under the two flags |
| `ImageCompare.DenominatorVanishes` | ImageCompare.java:170-180 | the normalisation is zero exactly when the surface total is |
| `ImageCompare.ScaledDown` | ImageCompare.java:189-203 | the flag branches divide the average by 255, 16777215 or 1 |
| `ImageCompare.NormaliseInTwoSteps` | ImageCompare.java:180-199 | dividing by the total and then by the scale is dividing once by their product |
| `ImageCompareProperties.ExactMatchNeedsSameSize` | ImageCompare.java:42-43 | differing width or height is never an exact match, whatever the pixels |
| `ImageCompareProperties.ExactMatchReflexive` | ImageCompare.java:45-51 | every image matches itself |
| `ImageCompareProperties.ExactMatchSymmetric` | ImageCompare.java:47 | exact match does not depend on the order of the images |
| `ImageCompareProperties.SameAlphaIsClose` | ImageCompare.java:153 | two pixels with equal alpha bytes differ by less than 2^24, so their subtraction cannot wrap |
| `ImageCompareProperties.ContributionBounds` | ImageCompare.java:126-158 | one pixel adds 0..765 to the per-channel distance, 0..3 to the per-channel count, 0..1 to the packed count and, with equal alpha, 0..16777215 to the packed distance |
| `ImageCompareProperties.ContributionZeroIff` | ImageCompare.java:134-158 | a pixel adds nothing exactly when its colour bytes agree (per-channel) or its packed values agree (packed), in both directions |
| `ImageCompareProperties.ContributionSymmetric` | ImageCompare.java:136-156 | swapping the two pixels leaves the contribution unchanged in all four modes |
| `ImageCompareProperties.RowSumBounds` | ImageCompare.java:118-160 | the contributions of a partial row lie between 0 and the pixel count times the per-pixel maximum |
| `ImageCompareProperties.GridSumBounds` | ImageCompare.java:117-161 | the contributions of the first rows lie between 0 and their pixel count times the per-pixel maximum |
| `ImageCompareProperties.DifferenceBounds` | ImageCompare.java:117-174 | the accumulated difference lies between 0 and the normalisation `N` |
| `ImageCompareProperties.DenominatorIsPixelsTimesMax` | ImageCompare.java:170-199 | `N` is the pixel count times the largest contribution of one pixel |
| `ImageCompareProperties.ModeDenominators` | ImageCompare.java:170-203 | the four normalisations are `w*h*3*255`, `w*h*3`, `w*h*16777215` and `w*h` |
| `ImageCompareProperties.SizeMismatchScoresZero` | ImageCompare.java:106-107 | differing sizes score exactly 0 in every mode |
| `ImageCompareProperties.NaNExactlyForEmptyImages` | ImageCompare.java:170-180 | equal-size images give NaN exactly when they have no pixels |
| `ImageCompareProperties.SimilarityInUnitInterval` | ImageCompare.java:170-205 | every finite score lies in [0, 1]; in the packed distance mode this needs equal alpha bytes |
| `ImageCompareProperties.RowSumSymmetric` | ImageCompare.java:118-160 | a partial row sum does not depend on the order of the images |
| `ImageCompareProperties.GridSumSymmetric` | ImageCompare.java:117-161 | the accumulated difference does not depend on the order of the images |
| `ImageCompareProperties.SimilaritySymmetric` | ImageCompare.java:136-156 | the score does not depend on which image is the expected one, in every mode |
| `ImageCompareProperties.RowSumOfAgreement` | ImageCompare.java:118-160 | a row whose pixels agree in the mode's sense sums to 0 |
| `ImageCompareProperties.GridSumOfAgreement` | ImageCompare.java:117-161 | images that agree everywhere accumulate no difference |
| `ImageCompareProperties.RowSumZeroOnlyIfAgreement` | ImageCompare.java:118-160 | a row that sums to 0 agrees at every pixel |
| `ImageCompareProperties.GridSumZeroOnlyIfAgreement` | ImageCompare.java:117-161 | a zero accumulated difference means agreement at every scanned pixel |
| `ImageCompareProperties.AgreementScoresOne` | ImageCompare.java:134-205 | images that agree everywhere in the mode's sense score exactly 1 |
| `ImageCompareProperties.ScoreOneOnlyIfAgreement` | ImageCompare.java:134-205 | a score of exactly 1 means equal size and agreement everywhere, for the packed distance given equal alpha |
| `ImageCompareProperties.PackedScoreOneIffExactMatch` | ImageCompare.java:151-158 | in the packed modes a non-empty comparison scores 1 exactly when the images are exact matches, for the packed distance given equal alpha bytes |
| `ImageCompareProperties.ChannelScoreOneIffColoursAgree` | ImageCompare.java:124-150 | in the per-channel modes a non-empty comparison scores 1 exactly when all red, green and blue bytes agree; alpha is ignored |
| `ImageCompareProperties.ExactMatchScoresOne` | ImageCompare.java:134-205 | images that pass the exact match score exactly 1 in every mode |
| `ImageCompareProperties.IdenticalScoresOne` | ImageCompare.java:134-205 | an image compared with itself scores exactly 1 in every mode |
| `Scenarios.RedAgainstGreenPerChannel` | ImageCompare.java:124-150 | one opaque red pixel against one opaque green pixel scores 1/3 in both per-channel modes |
| `Scenarios.RedAgainstGreenPacked` | ImageCompare.java:151-158 | the same pixels are no exact match, score 0 in packed count and `1 - 16646400/16777215` in packed distance |
| `Scenarios.AlphaBreaksPackedDistanceBound` | ImageCompare.java:153 | transparent against opaque black scores below 0 in packed distance and exactly 1 per channel |
| `Scenarios.MinValueScoresAboveOne` | ImageCompare.java:153 | a pixel `0` against `MIN_VALUE` adds `Math.abs(MIN_VALUE) = MIN_VALUE`, so the packed distance scores above 1 |
| `Scenarios.PackedDistanceCancels` | ImageCompare.java:151-158 | three pixels whose wrapped packed distances sum to 0 score exactly 1 in packed distance, although the images are no exact match |
| `TotalOverflow.TotalAsWritten` | ImageCompare.java:170-174 | `theTotal` as written, with the Java `int` products `width * height * 3` and `width * height` that wrap around |
| `TotalOverflow.TotalAsWrittenCongruent` | ImageCompare.java:170-174 | the total as written agrees with the exact total modulo 2^32 |
| `TotalOverflow.TotalAsWrittenExactBelowOverflow` | ImageCompare.java:170-174 | while `w*h*3` fits in an `int`, the total as written equals the exact total |
| `TotalOverflow.TotalOverflowsAt26755` | ImageCompare.java:171 | for a 26755 by 26755 image the per-channel total as written is -2147477221 instead of 2147490075 |
| `TotalOverflow.OverflowedScoreAboveOne` | ImageCompare.java:171-194 | with that overflowed total, any difference drives the per-channel count score above 1 |

## Findings

| source | as written | input that shows it | evidently intended | confidence | as-written member | corrected member |
|---|---|---|---|---|---|---|
| ImageCompare.java:171 | `theTotal = width * height * 3` multiplies Java `int`s, which wrap before the result is widened to `double` | a 26755 by 26755 pair of images in per-channel mode: the total is -2147477221, so any difference gives a score above 1 | the surface times three as an exact number, so that the score stays in [0, 1] | medium, not executed | `TotalOverflow.TotalOverflowsAt26755` (over `TotalOverflow.TotalAsWritten`) | `ImageCompareProperties.SimilarityInUnitInterval` (over the exact `ImageCompare.Total`) |

## Left out

- The `System.out.println` diagnostics (ImageCompare.java:163, 176, 182-184). They are console output and do not change the result.
- `BufferedImage`, its colour models and the unused `DataBufferByte` import (ImageCompare.java:18-19). They belong to a foreign image library. The raster is an in-memory grid of the values `getRGB` would return.
- IEEE-754 rounding. The accumulator is an exact integer and the score an exact rational. A `double` can lose precision once the sum passes 2^53. Only NaN, from `0.0 / 0.0`, is kept.
- Null images, which make the source throw `NullPointerException`. A `Raster` is a value and cannot be absent.
- The unreachable trailing `return 0` (ImageCompare.java:210).
- ImageCompare.ImagesPixelIdenticalRatio: computes `theTotal` as the exact product, not as an `int` product that wraps. The overflowing version is `TotalOverflow.TotalAsWritten` (see Findings). The two agree whenever `width * height * 3` fits in an `int`.
- ImageCompareProperties.SimilarityInUnitInterval: in the packed distance mode the bound is proved only for pixels that agree in alpha. With differing alpha the packed difference of one pixel can exceed 16777215 or, through `Math.abs(MIN_VALUE)`, be negative. The score can then drop below 0 (`Scenarios.AlphaBreaksPackedDistanceBound`), rise above 1 (`Scenarios.MinValueScoresAboveOne`), or be exactly 1 without an exact match (`Scenarios.PackedDistanceCancels`).
