/** Failure-carrying values used in place of the Python exceptions and of
    the `None` results of the shutter value generator. */
module Results {

  /** A value that may be absent. */
  datatype Option<T> = None | Some(value: T)

  /** A computed value, or the error that stopped the computation. */
  datatype Result<T, E> = Success(value: T) | Failure(error: E)

  /** A check that either passes or reports why it failed. */
  datatype Outcome<E> = Pass | Fail(error: E)
}
