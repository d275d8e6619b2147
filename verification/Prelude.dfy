/** Vocabulary shared by every module of the project. */
module Prelude {

  /** A Swift optional. */
  datatype Option<+T> = None | Some(value: T)

  /** The value of a call that may throw. */
  datatype Result<+T, +E> = Ok(value: T) | Err(error: E)

  /** An opaque identifier; only equality matters, except where a module says it is ordered. */
  type Uuid = int

  /** A point in time, in seconds. */
  type Date = real

  function Min(a: real, b: real): real {
    if a <= b then a else b
  }

  function Max(a: real, b: real): real {
    if a >= b then a else b
  }
}
