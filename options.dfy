/** The optional value used throughout the model: JavaScript's `undefined` versus a value. */
module Options {

  datatype Option<T> = None | Some(value: T)
}
