/** The two failure kinds a vector raises, as values instead of exception classes. */
module Errors {

  /** `Range`: an index or block outside the live elements; `Size`: popping an empty vector. */
  datatype Error = Range | Size

  /** The result of an element access or of pop_back. */
  datatype Result<T> = Ok(value: T) | Err(error: Error)

  /** The result of a modifier that returns nothing when it succeeds. */
  datatype Outcome = Pass | Fail(error: Error)
}
