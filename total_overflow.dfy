/** `theTotal` as the source computes it: `width * height * 3` and
    `width * height` are Java `int` products, which wrap around once the
    surface times three passes 2^31 - 1. The rest of the model uses the
    exact product `ImageCompare.Total`. */
module TotalOverflow {
  import opened JavaInt
  import ImageCompare

  /** `theTotal` with Java's left-to-right `int` multiplication. */
  function TotalAsWritten(width: nat, height: nat, fullRgb: bool): Int32 {
    if fullRgb then Wrap(Wrap(width * height) * 3) else Wrap(width * height)
  }

  /** The written total is the exact one modulo 2^32, as two's-complement
      multiplication promises. */
  lemma TotalAsWrittenCongruent(width: nat, height: nat, fullRgb: bool)
    ensures (TotalAsWritten(width, height, fullRgb) - ImageCompare.Total(width, height, fullRgb)) % 0x1_0000_0000 == 0
  {
    var s := Wrap(width * height);
    var k := (width * height - s) / 0x1_0000_0000;
    assert width * height == s + k * 0x1_0000_0000;
    if fullRgb {
      var t := Wrap(s as int * 3);
      var j := (s as int * 3 - t) / 0x1_0000_0000;
      assert s as int * 3 == t + j * 0x1_0000_0000;
      assert width * height * 3 - t == (3 * k + j) * 0x1_0000_0000;
    }
  }

  /** Below the overflow the written total is the exact one. */
  lemma TotalAsWrittenExactBelowOverflow(width: nat, height: nat, fullRgb: bool)
    requires width * height * 3 < 0x8000_0000
    ensures TotalAsWritten(width, height, fullRgb) == ImageCompare.Total(width, height, fullRgb)
  {
  }

  /** A 26755 by 26755 image is the smallest square whose per-channel total
      overflows: the written total is negative. */
  lemma TotalOverflowsAt26755()
    ensures ImageCompare.Total(26755, 26755, true) == 2147490075
    ensures TotalAsWritten(26755, 26755, true) == -2147477221
  {
    assert 26755 * 26755 == 715830025;
  }

  /** With that negative total, any difference at all drives the per-channel
      count score above 1 instead of below it. */
  lemma OverflowedScoreAboveOne(theDifferentOnes: nat)
    requires theDifferentOnes > 0
    ensures 1.0 - theDifferentOnes as real / TotalAsWritten(26755, 26755, true) as real > 1.0
  {
    TotalOverflowsAt26755();
  }
}
