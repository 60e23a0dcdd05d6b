// The absent-or-present value that the SQL NULLs and JavaScript nulls become.
module Options {
  datatype Option<+T> = None | Some(value: T)
}
