/** A value that may be absent: SQL NULLs, Go's ok-returns and nil pointers. */
module Options {
  datatype Option<+T> = None | Some(value: T)
}
