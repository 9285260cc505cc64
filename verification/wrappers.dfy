/** Failure-carrying values shared by every component of the installer model. */
module Wrappers {

  /** An optional value, standing for Rust's `Option`. */
  datatype Option<+T> = None | Some(value: T)

  /** A value or an error message, standing for Rust's `Result<T, String>`:
      every fallible step of the installer reports its failure as a string. */
  datatype Result<+T> = Ok(value: T) | Err(error: string)
}
