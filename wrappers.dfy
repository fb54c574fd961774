/** The optional value used for rendering steps that can fail. */
module Wrappers {

  datatype Option<+T> = None | Some(value: T)
}
