/** Outcomes of operations that may refuse. The source reports refusals as Go
    error values; the model keeps the sentinel that a caller can test for. */
module Results {

  datatype Option<+T> = None | Some(value: T)

  datatype Result<+T, +E> = Ok(value: T) | Err(error: E)

  // What becomes of a write: nothing is durable, the content is durable although the writer got an error, or
  // it is durable and acknowledged.
  datatype Fate = NotWritten | Stray | Written
}
