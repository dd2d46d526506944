/** Failure-carrying datatypes used throughout the model: `Option` for a
    lookup that may find nothing, `Result` for a construction that may raise. */
module Results {

  datatype Option<+T> = None | Some(value: T)

  datatype Result<+R, +E> = Success(value: R) | Failure(error: E)
}
