/** Outcome types shared by every component. */
module Wrappers {

  datatype Option<+T> = None | Some(value: T)

  datatype Result<+T, +E> = Ok(value: T) | Err(error: E)

  /** What polling a future once may answer. */
  datatype Poll<+T> = Pending | Ready(value: T)
}
