/** Failure-carrying values standing in for Go's `(value, error)` pairs and nil pointers. */
module Results {

  /** A value that may be absent (a Go pointer or interface that may be nil). */
  datatype Option<T> = None | Some(value: T)

  /** The outcome of a call that returns a value or a non-nil `error`. */
  datatype Result<T> = Ok(value: T) | Err(cause: string)

  /** The outcome of a call that returns only an `error`. */
  datatype Status = Done | Failed(cause: string)
}
