/** Option, the optional value used for Rust's `Option<T>` throughout the model. */
module Wrappers {

  datatype Option<+T> = None | Some(value: T)
}
