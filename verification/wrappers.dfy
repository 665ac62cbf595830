/** The optional-value datatype used where the source tests a value for
    presence: a rule that may have no cleanup class, an element lookup that
    may find nothing. */
module Wrappers {

  datatype Option<+T> = None | Some(value: T)
}
