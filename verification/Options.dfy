/** An optional value, for Go's `value, ok` pairs. */
module Options {
  datatype Option<+T> = None | Some(value: T)
}
