/** Option and Result datatypes for the exceptions the source throws. */
module Results {

  datatype Option<+T> = None | Some(value: T)

  /** A call that either returns a value or throws the exception `error`. */
  datatype Result<+R, +E> = Success(value: R) | Failure(error: E)
}
