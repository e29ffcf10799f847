/** Failure-carrying datatypes shared by the clause builder: `Option` for a
    predicate slot that may be empty, `Result` for the builder that can throw. */
module Wrappers {

  /** A value that may be absent. */
  datatype Option<+T> = None | Some(value: T)

  /** Either a computed value or the error a JavaScript caller would see thrown. */
  datatype Result<+R, +E> = Success(value: R) | Failure(error: E)
}
