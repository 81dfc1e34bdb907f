/** The optional value used for the source's failure paths (a thrown
    exception, an out-of-range lookup). */
module Wrappers {

  datatype Option<T> = None | Some(value: T)
}
