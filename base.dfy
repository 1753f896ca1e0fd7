/** Value types shared by every component: optional values, integer points,
    bytes and row-major grid indexing. */
module Base {

  datatype Option<+T> = None | Some(value: T)

  /** An integer point (x, y), the `(i32, i32)` pairs the programs pass around. */
  type Point = (int, int)

  /** An unsigned 8-bit value. */
  type Byte = b: int | 0 <= b < 256

  /** Index of column `x` of row `y` in a row-major grid `width` cells wide. */
  function GridIndex(x: int, y: int, width: int): int
  {
    y * width + x
  }

  lemma MulNonNegative(a: int, b: int)
    requires 0 <= a && 0 <= b
    ensures 0 <= a * b
  {
  }

  lemma MulMonotone(a: int, b: int, c: int)
    requires a <= b && 0 <= c
    ensures a * c <= b * c
  {
    assert b * c - a * c == (b - a) * c;
    MulNonNegative(b - a, c);
  }
}
