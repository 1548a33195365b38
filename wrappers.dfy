/** Small failure-carrying datatypes shared by the other modules. */
module Wrappers {

  datatype Option<+T> = None | Some(value: T)

  /** The outcome of an operation that either completes or raises an error message. */
  datatype Outcome = Pass | Fail(error: string)

  datatype Result<+T> = Ok(value: T) | Err(error: string)
}
