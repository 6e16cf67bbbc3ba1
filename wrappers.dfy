/** Small failure-compatible wrapper used across the model. */
module Wrappers {
  /** Python's `None` / a value. */
  datatype Option<+T> = None | Some(value: T)
}
