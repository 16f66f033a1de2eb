/** Failure-carrying datatypes shared by the wagering model. */
module Results {

  /** A value that may be absent: a row that was not found, a number that parsed to NaN. */
  datatype Option<+T> = None | Some(value: T)

  /** Either a computed value or the reason the computation threw. */
  datatype Result<+T, +E> = Success(value: T) | Failure(error: E)
}
