/** The optional-value type shared by the modules of this model. */
module Wrappers {

  /** A value that may be absent: JavaScript's `undefined` / a missing property. */
  datatype Option<+T> = None | Some(value: T)
}
