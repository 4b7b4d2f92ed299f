/** The optional-value type shared by the model. */
module Wrappers {

  /** A value that may be absent: a dictionary lookup that can miss. */
  datatype Option<+T> = None | Some(value: T)
}
