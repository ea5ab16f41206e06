/** Results of fallible operations, shaped after Rust's `io::Result`. */
module Wrappers {

  /** The `io::ErrorKind` of a failure. This layer only ever raises
      `InvalidInput`; `Other` stands for every other kind. */
  datatype ErrorKind = InvalidInput | Other

  /** `Ok(value)` or `Err(kind)`. The message text of the error is not modelled. */
  datatype Result<+T> = Ok(value: T) | Err(error: ErrorKind)

  /** The conventional optional value. */
  datatype Option<+T> = None | Some(value: T)
}
