/** Shared vocabulary: bytes, optional values, 64-bit integers. */
module Prelude {
  newtype byte = x: int | 0 <= x < 256

  datatype Option<+T> = None | Some(value: T)

  const TWO_63: int := 0x8000_0000_0000_0000

  /** The values of a 64-bit signed integer. */
  predicate IsInt64(n: int) {
    -TWO_63 <= n < TWO_63
  }

  /** What a 64-bit signed register holds after an operation whose exact result is n. */
  function Wrap64(n: int): (r: int)
    ensures IsInt64(r)
    ensures IsInt64(n) ==> r == n
  {
    (n + TWO_63) % (2 * TWO_63) - TWO_63
  }

  /** The remainder operator of the source language: it takes the sign of the dividend. */
  function TruncRem(a: int, b: int): (r: int)
    requires b > 0
    ensures -b < r < b
    ensures a >= 0 ==> 0 <= r
    ensures a <= 0 ==> r <= 0
  {
    if a >= 0 then a % b else -((-a) % b)
  }

  lemma MulMonotone(a: int, b: int, w: nat)
    requires a <= b
    ensures a * w <= b * w
  {
    assert (b - a) * w >= 0;
  }
}
