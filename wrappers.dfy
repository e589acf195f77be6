/** Optional values and results with an error, used for the null-tolerant
    union and for the routines that throw on bad arguments. */
module Wrappers {

  /** An optional box: `None` stands for a null reference. */
  datatype Option<+T> = None | Some(value: T)

  /** The outcome of a routine that either returns a value or throws. */
  datatype Result<+T, +E> = Ok(value: T) | Err(error: E)
}
