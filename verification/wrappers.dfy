/** The optional value used throughout the model for fields that JavaScript
    leaves `null` or `undefined`. */
module Wrappers {

  datatype Option<+T> = None | Some(value: T)
}
