/** Small failure-carrying datatypes shared by the survey modules. */
module Outcomes {

  /** A value that may be missing (JavaScript `undefined` from a lookup). */
  datatype Option<+T> = None | Some(value: T)

  /** Either a computed value or the error that stopped the computation. */
  datatype Result<+T, +E> = Ok(value: T) | Err(error: E)
}
