/** Option and Result values for absent inputs and error returns. */
module Wrappers {

  /** A value that may be missing (an absent JSON key, an unset form field). */
  datatype Option<+T> = None | Some(value: T)

  /** Either a value or the error the source reports instead of it. */
  datatype Result<+T, +E> = Ok(value: T) | Err(error: E)
}
