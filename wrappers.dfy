/** The optional value used for arguments and lookups that may be absent (Python's None). */
module Wrappers {

  datatype Option<T> = None | Some(value: T)
}
