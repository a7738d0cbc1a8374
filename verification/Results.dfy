// Shared result types.
module Results {

  datatype Option<+T> = None | Some(value: T)

  // The outcome of an operation that may raise.
  datatype Result<+T, +E> = Ok(value: T) | Raised(error: E)
}
