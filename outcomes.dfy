/** Success/failure results, standing in for the exceptions and process exits of the program. */
module Outcomes {

  datatype Result<+T, +E> = Success(value: T) | Failure(error: E)
}
