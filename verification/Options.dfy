/** A value or nothing: Rust's `Option`, Ruby's `nil`. */
module Options {
  datatype Option<T> = None | Some(value: T)
}
