/**
 * The C# `int` of the bucket's fields and of the requested count: a signed
 * 32-bit integer whose arithmetic wraps around (C#'s default unchecked context).
 */
module Int32 {

  const MIN: int := -0x8000_0000
  const MAX: int := 0x7fff_ffff

  newtype int32 = x: int | -0x8000_0000 <= x < 0x8000_0000

  /** The value C# stores when an `int` expression evaluates to the mathematical value `x`. */
  function Wrap(x: int): (r: int32)
    ensures MIN <= x <= MAX ==> r as int == x
    ensures MAX < x <= MAX + 0x1_0000_0000 ==> r as int == x - 0x1_0000_0000
    ensures (x - r as int) % 0x1_0000_0000 == 0
  {
    var m := (x - MIN) % 0x1_0000_0000;
    (m + MIN) as int32
  }
}
