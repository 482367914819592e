/** An optional value: a dictionary key that may be absent, a call that may fail. */
module Options {

  datatype Option<T> = None | Some(value: T)
}
