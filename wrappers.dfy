/** The optional value used throughout the model for Python's `None`. */
module Wrappers {

  datatype Option<T> = None | Some(value: T)
}
