/** The optional value that Rust's `Option<T>` carries. */
module Options {

  datatype Option<+T> = None | Some(value: T)
}
