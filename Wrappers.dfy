/** The optional value used where the program reports "nothing". */
module Wrappers {

  datatype Option<+T> = None | Some(value: T)
}
