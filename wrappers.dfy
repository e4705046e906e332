/** The optional value used for a coordinate slot or text field that may be
    empty, and for a search that may find nothing. */
module Wrappers {

  datatype Option<T> = None | Some(value: T)
}
