/** The raster that the comparison reads: a read-only grid of packed pixels,
    standing in for a `BufferedImage` seen through `getRGB`. */
module Image {
  import opened JavaInt

  /** A pixel as `getRGB` returns it: alpha, red, green and blue in the four
      bytes of an `int`, from the high byte to the low one. */
  type Argb = Int32

  // On a two's-complement `int`, `p >> k` is floor division by 2^k (Dafny's `/`
  // with a positive divisor), and `& 0xff` keeps the low byte (Dafny's `%`,
  // which is never negative).

  /** `(p >> 24) & 0xff` */
  function Alpha(p: Argb): (c: int)
    ensures 0 <= c < 0x100
  {
    (p / 0x100_0000) % 0x100
  }

  /** `(p >> 16) & 0xff` */
  function Red(p: Argb): (c: int)
    ensures 0 <= c < 0x100
  {
    (p / 0x1_0000) % 0x100
  }

  /** `(p >> 8) & 0xff` */
  function Green(p: Argb): (c: int)
    ensures 0 <= c < 0x100
  {
    (p / 0x100) % 0x100
  }

  /** `p & 0xff` */
  function Blue(p: Argb): (c: int)
    ensures 0 <= c < 0x100
  {
    p % 0x100
  }

  /** The pixel with the given four 8-bit channels. */
  function Pack(alpha: int, red: int, green: int, blue: int): Argb
    requires 0 <= alpha < 0x100 && 0 <= red < 0x100 && 0 <= green < 0x100 && 0 <= blue < 0x100
  {
    Wrap(alpha * 0x100_0000 + red * 0x1_0000 + green * 0x100 + blue)
  }

  /** Channel extraction reads back exactly the channels a pixel was packed from. */
  lemma UnpackPack(alpha: int, red: int, green: int, blue: int)
    requires 0 <= alpha < 0x100 && 0 <= red < 0x100 && 0 <= green < 0x100 && 0 <= blue < 0x100
    ensures var p := Pack(alpha, red, green, blue);
      Alpha(p) == alpha && Red(p) == red && Green(p) == green && Blue(p) == blue
  {
    var u := alpha * 0x100_0000 + red * 0x1_0000 + green * 0x100 + blue;
    var p := Pack(alpha, red, green, blue);
    // p is u, or u shifted down by 2^32 when the alpha byte has its top bit set
    assert p == u || p == u - 0x1_0000_0000;
    var k: int := if p == u then 0 else -0x100;
    assert p == (k + alpha) * 0x100_0000 + red * 0x1_0000 + green * 0x100 + blue;
    assert p / 0x100_0000 == k + alpha;
    assert p / 0x1_0000 == (k + alpha) * 0x100 + red;
    assert p / 0x100 == ((k + alpha) * 0x100 + red) * 0x100 + green;
  }

  /** Every pixel is the packing of its four channels: extraction loses nothing. */
  lemma PackUnpack(p: Argb)
    ensures Pack(Alpha(p), Red(p), Green(p), Blue(p)) == p
  {
    var q, rest := p / 0x100_0000, p % 0x100_0000;
    SplitTopByte(p, q, rest);
    var v := Alpha(p) * 0x100_0000 + rest;
    assert v == p || v == p + 0x1_0000_0000;
  }

  /** With `p` split into its top byte `q` (signed) and its low 24 bits `rest`,
      the three low channels are the bytes of `rest` and the alpha byte is `q`
      read as unsigned. */
  lemma SplitTopByte(p: Argb, q: int, rest: int)
    requires q == p / 0x100_0000 && rest == p % 0x100_0000
    ensures -0x80 <= q < 0x80
    ensures Alpha(p) == (if q < 0 then q + 0x100 else q)
    ensures rest == Red(p) * 0x1_0000 + Green(p) * 0x100 + Blue(p)
  {
    var hi, m := rest / 0x1_0000, rest % 0x1_0000;
    var mid, lo := m / 0x100, m % 0x100;
    assert 0 <= hi < 0x100;
    Split16(p, q * 0x100 + hi, m);
    Split8(p / 0x1_0000, q, hi);
    Split8(p, (q * 0x100 + hi) * 0x100 + mid, lo);
    Split8(p / 0x100, q * 0x100 + hi, mid);
    if q < 0 { Split8(q, -1, q + 0x100); } else { Split8(q, 0, q); }
  }

  lemma Split8(x: int, q: int, r: int)
    requires x == q * 0x100 + r && 0 <= r < 0x100
    ensures x / 0x100 == q && x % 0x100 == r
  {
  }

  lemma Split16(x: int, q: int, r: int)
    requires x == q * 0x1_0000 + r && 0 <= r < 0x1_0000
    ensures x / 0x1_0000 == q && x % 0x1_0000 == r
  {
  }

  /** A `width` by `height` image; `rows[y][x]` is the pixel at column `x` of row `y`. */
  datatype Raster = Raster(width: nat, height: nat, rows: seq<seq<Argb>>)
  {
    /** Every row holds exactly `width` pixels and there are `height` rows. */
    predicate Valid() {
      |rows| == height && forall y :: 0 <= y < |rows| ==> |rows[y]| == width
    }

    /** `getRGB(x, y)` */
    function At(x: nat, y: nat): Argb
      requires Valid() && x < width && y < height
    {
      rows[y][x]
    }
  }
}
