/** The optional value used for every operation of the model that can trap at run time
    (a failed conversion, an out-of-range subscript, a duplicate dictionary key). */
module Wrappers {

  datatype Option<+T> = None | Some(value: T)
}
