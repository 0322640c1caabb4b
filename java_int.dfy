/** Java's 32-bit `int` arithmetic, as far as the comparison routines use it. */
module JavaInt {

  /** A value of Java's `int` type. */
  type Int32 = x: int | -0x8000_0000 <= x < 0x8000_0000

  const IntMin: Int32 := -0x8000_0000

  /** The two's-complement wrap-around that Java applies to the mathematical
      result of `+`, `-` and `*` on `int` operands. */
  function Wrap(x: int): (r: Int32)
    ensures (x - r) % 0x1_0000_0000 == 0
    ensures -0x8000_0000 <= x < 0x8000_0000 ==> r == x
  {
    (x + 0x8000_0000) % 0x1_0000_0000 - 0x8000_0000
  }

  /** `Math.abs(int)`: the negation of `Integer.MIN_VALUE` wraps back to itself. */
  function Abs(x: Int32): (r: Int32)
    ensures x != IntMin ==> r >= 0 && (r == x || r == -x)
    ensures x == IntMin ==> r == IntMin
  {
    if x < 0 then Wrap(-(x as int)) else x
  }

  /** Numbers that agree modulo 2^32 wrap to the same `int`. */
  lemma WrapCongruent(x: int, y: int)
    requires (x - y) % 0x1_0000_0000 == 0
    ensures Wrap(x) == Wrap(y)
  {
    var k := (x - y) / 0x1_0000_0000;
    assert x + 0x8000_0000 == (y + 0x8000_0000) + k * 0x1_0000_0000;
  }

  /** `Math.abs` of a wrapped difference does not depend on the order of the
      operands: both orders give the same magnitude, or both give `MIN_VALUE`. */
  lemma AbsWrapAntisymmetric(d: int)
    ensures Abs(Wrap(-d)) == Abs(Wrap(d))
  {
    var w := Wrap(d);
    if w == IntMin {
      WrapCongruent(-d, IntMin);
    } else {
      WrapCongruent(-d, -(w as int));
    }
  }
}
