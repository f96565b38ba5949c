/** The optional value used for the unset fields of a query and for a summary line that is not printed. */
module Wrappers {

  datatype Option<+T> = None | Some(value: T)
}
