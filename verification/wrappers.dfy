/** The optional value used where the whiteboard script returns `null`. */
module Wrappers {

  datatype Option<+T> = None | Some(value: T)

}
