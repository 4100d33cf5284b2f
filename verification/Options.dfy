/** Results of code that can run into an index error. */
module Options {
  datatype Option<T> = None | Some(value: T)
}
