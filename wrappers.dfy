/** The Option type shared by the toolbar and scaffolding models. */
module Wrappers {

  /** A value that may be absent: the model's stand-in for a nullable C pointer. */
  datatype Option<+T> = None | Some(value: T)
}
