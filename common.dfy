/** Failure-carrying values shared by the other modules. */
module Common {

  /** A value that may be absent: JavaScript's `null` / `undefined` for one slot. */
  datatype Option<+T> = None | Some(value: T)

  /** Either a value or an error value. */
  datatype Result<+R, +E> = Success(value: R) | Failure(error: E)
}
