/** The result type shared by the pipeline modules. */
module Wrappers {

  /** Either a computed value or the error the dashboard script would raise. */
  datatype Result<+T, +E> = Success(value: T) | Failure(error: E)
}
