/** The optional value used where the source returns `Option`. */
module Options {
  datatype Option<T> = None | Some(value: T)
}
