// The two-way answer that Rust spells Option: a value, or nothing.
module Options {
  datatype Option<+T> = None | Some(value: T)
}
