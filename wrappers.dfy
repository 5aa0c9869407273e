/** The optional value used for the source's optional fields and `undefined` results. */
module Wrappers {

  datatype Option<+T> = None | Some(value: T)
}
