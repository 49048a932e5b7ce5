/** Option and Result values used where the source either has a value or fails. */
module Wrappers {

  /** A value that may be absent, like a React context read outside its provider. */
  datatype Option<T> = None | Some(value: T)

  /** Either a value or the error the source would throw instead of returning it. */
  datatype Result<T, E> = Ok(value: T) | Err(error: E)
}
