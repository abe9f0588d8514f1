/** A value that may be missing: a storage key that holds nothing, an unset
    option, a cancelled timer. */
module Wrappers {

  datatype Option<+T> = None | Some(value: T)
}
