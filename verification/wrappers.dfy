/** The optional value used for a lookup that may find nothing and for a
    caller that may not be authenticated. */
module Wrappers {

  datatype Option<+T> = None | Some(value: T)
}
