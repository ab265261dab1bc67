/** The optional value used for data that may be absent: a field missing from a
    stored record, or the signed-out `user`. */
module Wrappers {

  datatype Option<+T> = None | Some(value: T)
}
