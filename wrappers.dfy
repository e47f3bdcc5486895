/** The optional value used wherever the JavaScript source uses `null`. */
module Wrappers {

  datatype Option<+T> = None | Some(value: T)

}
