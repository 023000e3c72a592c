/** Option and Result values shared by the modules of this model. */
module Outcomes {

  /** A value that may be absent (JavaScript `undefined`/`null`). */
  datatype Option<+T> = None | Some(value: T)

  /** The `{ data, error }` pair returned by a store call: either data or an error. */
  datatype Result<+T, +E> = Ok(value: T) | Err(error: E)
}
