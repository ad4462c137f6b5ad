/** The exceptions the genetic-algorithm core raises on its own, and the
    wrappers that carry a value or such an exception. */
module Results {
  /** Python exceptions raised by the operators themselves. */
  datatype Error =
    | ValueError  // random.randint on an empty range; max() or min() of an empty list
    | IndexError  // random.choice on an empty list

  /** The outcome of an operation that may raise. */
  datatype Result<T> = Ok(value: T) | Err(error: Error)

  datatype Option<T> = None | Some(value: T)
}
