/** Small value types shared by every script of the conversion pipeline. */
module Base {

  /** Python's `None`-or-value results. */
  datatype Option<T> = None | Some(value: T)

  /** A raised exception (its message), or a value. */
  datatype Result<T> = Ok(value: T) | Err(message: string)

  /** A `uint8` value. */
  type Byte = b: int | 0 <= b < 256

  function Min(a: int, b: int): (r: int)
    ensures r <= a && r <= b && (r == a || r == b)
  {
    if a <= b then a else b
  }

  function Max(a: int, b: int): (r: int)
    ensures r >= a && r >= b && (r == a || r == b)
  {
    if a >= b then a else b
  }

  /** Python's `max` of two floats. */
  function MaxReal(a: real, b: real): (r: real)
    ensures r >= a && r >= b && (r == a || r == b)
  {
    if a >= b then a else b
  }
}
