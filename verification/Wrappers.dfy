/** A pointer that may be NULL, or a result that may be missing. */
module Wrappers {
  datatype Option<+T> = None | Some(value: T)
}
