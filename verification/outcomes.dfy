/** Rust's `Option` and `Result`, as used by the probes and the code-path driver. */
module Outcomes {

  datatype Option<+T> = None | Some(value: T)

  /** `Ok(value)` is success, `Err(error)` a failure carrying an error value. */
  datatype Result<+T, +E> = Ok(value: T) | Err(error: E)
}
