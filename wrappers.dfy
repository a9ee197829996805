/** Optional values and error-carrying results shared by the model's modules. */
module Wrappers {

  /** A value that may be missing: Go's nil pointers, comma-ok lookups and failed decodes. */
  datatype Option<T> = None | Some(value: T)

  /** A value or an error: Go's `(T, error)` pair when exactly one side is meaningful. */
  datatype Result<T, E> = Ok(value: T) | Err(error: E)
}
