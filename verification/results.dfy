/** Failure-carrying return values: the model's stand-in for a thrown `Error`
    and for a lookup that may find nothing. */
module Results {

  /** A value that may be absent, as a store lookup returns. */
  datatype Option<+T> = None | Some(value: T)

  /** Either a value or the error that the original code would throw. */
  datatype Result<+R, +E> = Success(value: R) | Failure(error: E)
}
