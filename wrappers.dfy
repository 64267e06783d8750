/** Failure-carrying results used across the engine. */
module Wrappers {

  /** `None` stands for a value the source reports as Infinity or NaN. */
  datatype Option<+T> = None | Some(value: T)

  /** The outcome of an operation that the source aborts with an alert or a thrown error. */
  datatype Result<+T, +E> = Ok(value: T) | Err(error: E)
}
