// An optional value, used by both games for "not found" and "no move".

module Options {
  datatype Option<T> = None | Some(value: T)
}
