/** The optional value used where the program either finds something or does not. */
module Wrappers {

  datatype Option<+T> = None | Some(value: T)
}
