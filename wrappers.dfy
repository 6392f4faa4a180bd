/** Failure-compatible return types of the library's public operations. */
module Wrappers {

  /** `Option<T>` of the checked accessors. */
  datatype Option<+T> = None | Some(value: T)

  /** `Result<Self, String>` of the constructors. */
  datatype Result<+T> = Ok(value: T) | Err(error: string)
}
