/** The optional value used where the source has `undefined`: a validator that
    was not found, or the first element of an empty list. */
module Wrappers {

  datatype Option<+T> = None | Some(value: T)
}
