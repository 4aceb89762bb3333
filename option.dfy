/** Java's nullable references returned by the queries become an Option. */
module Options {
  datatype Option<T> = None | Some(value: T)
}
