/** The optional-value datatype used throughout the model. */
module Wrappers {

  /** A value that may be absent: a pin coordinate after `fx = null`, an id that does not parse. */
  datatype Option<T> = None | Some(value: T)
}
