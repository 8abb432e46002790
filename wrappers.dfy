/** Failure-carrying values shared by every stage of the pipeline. */
module Wrappers {

  /** A value that may be absent; stands for a nullable C pointer. */
  datatype Option<+T> = None | Some(value: T)

  /** A value or an owned diagnostic message. */
  datatype Result<+T> = Ok(value: T) | Err(error: string)
}
