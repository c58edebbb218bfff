/** Option and Result: a missing value and an operation that either returns or throws. */
module Results {

  datatype Option<+T> = None | Some(value: T)

  /** `Failure(e)` stands for a promise rejected with `e` (a thrown error). */
  datatype Result<+T, +E> = Success(value: T) | Failure(error: E)
}
