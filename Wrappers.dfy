/** The optional-value datatype shared by the other modules. */
module Wrappers {

  /** A value that may be absent; PHP's FALSE or NULL return in the modelled code. */
  datatype Option<+T> = None | Some(value: T)
}
