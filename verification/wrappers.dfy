/** Small value wrappers shared by the model. */
module Wrappers {

  /** A JavaScript value that may be `undefined`. */
  datatype Option<+T> = None | Some(value: T)

  /** How a JavaScript evaluation ended: with a value, or by throwing (a TypeError
      from dereferencing `undefined` or `null`). */
  datatype Completion<+T> = Normal(value: T) | Thrown
}
