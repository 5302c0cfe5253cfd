/** The option datatype shared by the other modules: C's "pointer or NULL". */
module Common {
  datatype Option<+T> = None | Some(value: T)
}
