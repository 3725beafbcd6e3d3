/** The optional value used for nullable references and optional clauses. */
module Wrappers {
  datatype Option<T> = None | Some(value: T)
}
