/** Small failure-carrying datatypes shared by the other modules. */
module Common {

  /** A value that may be absent, as a missing key of a JSON object is. */
  datatype Option<+T> = None | Some(value: T)

  /** Either a value or the error that stopped the computation. */
  datatype Result<+T, +E> = Success(value: T) | Failure(error: E)
}
