/** A value that may be absent, shared by all the models. */
module Options {

  datatype Option<T> = None | Some(value: T)
}
