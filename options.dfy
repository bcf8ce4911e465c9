/** A value that JavaScript would represent as `null` when absent. */
module Options {
  datatype Option<T> = None | Some(value: T)
}
