/** The optional-value type used for a regular-expression match that may
    fail and for the remembered listing choice that may still be unset. */
module Wrappers {
  datatype Option<+T> = None | Some(value: T)
}
