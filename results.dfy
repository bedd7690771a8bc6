/** Failure-carrying values used across the model: `null`-able values, thrown errors. */
module Results {

  /** A value that may be absent (`T | null` / `T | undefined` in the source). */
  datatype Option<+T> = None | Some(value: T) {
    predicate IsFailure() { None? }

    function PropagateFailure<U>(): Option<U>
      requires None?
    {
      None
    }

    function Extract(): T
      requires Some?
    {
      value
    }
  }

  /** A call that either returns a value or throws an error. */
  datatype Result<+T, +E> = Ok(value: T) | Err(error: E)

  /** A call that returns nothing (`Promise<void>`) or throws an error. */
  datatype Status<+E> = Done | Failed(error: E)
}
