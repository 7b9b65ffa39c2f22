/** Outcomes of operations that may be absent or may raise. */
module Wrappers {

  datatype Option<+T> = None | Some(value: T)

  /** `Failure` stands for an exception of the original program, tagged with its reason. */
  datatype Result<+R, +E> = Success(value: R) | Failure(error: E)
}
