/** The optional value used where the sample app either produces something or nothing. */
module Wrappers {

  datatype Option<+T> = None | Some(value: T)
}
