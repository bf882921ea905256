/** The optional value used for Rust's `Option` and for operations that can panic. */
module Wrappers {
  datatype Option<+T> = None | Some(value: T)
}
