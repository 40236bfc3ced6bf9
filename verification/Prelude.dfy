/** Types every other module shares. */
module Prelude {
  datatype Option<+T> = None | Some(value: T)

  datatype Result<+T, +E> = Ok(value: T) | Err(error: E)

  /** Identifiers and names are opaque text; only equality matters. */
  type Id = string
}
