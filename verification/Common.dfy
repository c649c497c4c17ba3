/** The optional value used for Go's comma-ok results and nil pointers. */
module Common {
  datatype Option<+T> = None | Some(value: T)
}
