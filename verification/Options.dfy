/** An optional value, for pointers that may be null and operations that may not find anything. */
module Options {
  datatype Option<+T> = None | Some(value: T)
}
