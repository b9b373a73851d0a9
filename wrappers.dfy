/** The optional value used where the source has `undefined`, a missing element or a failed search. */
module Wrappers {

  datatype Option<+T> = None | Some(value: T)
}
