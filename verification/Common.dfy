/** Result types and the few arithmetic helpers the other modules share. */
module Common {
  datatype Option<+T> = None | Some(value: T)

  datatype Result<+T, +E> = Ok(value: T) | Err(error: E)

  function Min(a: int, b: int): int {
    if a <= b then a else b
  }

  function Max(a: int, b: int): int {
    if a >= b then a else b
  }

  /** `Math.round`: the nearest integer, halves upwards. */
  function Round(x: real): int {
    (x + 0.5).Floor
  }
}
