/** Outcome types shared by the model's modules. */
module Wrappers {
  datatype Option<+T> = None | Some(value: T)

  /** A returned value or a thrown error. */
  datatype Result<+T, +E> = Ok(value: T) | Err(error: E)
}
