/** The optional-value datatype shared by the modules of this model. */
module Wrappers {

  /** A value that may be absent: a nullable pointer or an optional AST node. */
  datatype Option<+T> = None | Some(value: T)
}
