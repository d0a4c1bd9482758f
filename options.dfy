/** The optional value used wherever the extension tests a value for truthiness or
    a host call may return nothing. */
module Options {
  datatype Option<T> = None | Some(value: T)
}
