/** The optional value used for Python's `None` results and fields. */
module Options {
  datatype Option<T> = None | Some(value: T)
}
