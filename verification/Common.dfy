/** Small shared datatypes. Row ids are opaque in the source (uuids); only their equality matters. */
module Common {
  type Id = nat

  datatype Option<+T> = None | Some(value: T)

  datatype Result<+T, +E> = Ok(value: T) | Err(error: E)

  function Max(a: real, b: real): real {
    if a < b then b else a
  }

  /** Math.round: ties go up. */
  function Round(x: real): int {
    (x + 0.5).Floor
  }

  /** Math.ceil(a / b) */
  function CeilDiv(a: int, b: int): int
    requires b > 0
  {
    -((-a) / b)
  }
}
