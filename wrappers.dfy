/** The optional value used for fields a stored document may lack. */
module Wrappers {

  datatype Option<+T> = None | Some(value: T)
}
