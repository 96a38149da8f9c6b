/** Option and Result values: `null` returns and thrown errors of the modelled code. */
module Wrappers {

  /** A value that may be absent (a `null` return). */
  datatype Option<+T> = None | Some(value: T)

  /** A value or an error (a resolved or a rejected promise, a return or a throw). */
  datatype Result<+T, +E> = Ok(value: T) | Err(error: E)
}
