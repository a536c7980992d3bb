// A result that may be missing, as a NULL return value.
module Options {
  datatype Option<T> = None | Some(value: T)
}
