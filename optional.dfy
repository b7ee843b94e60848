/** The optional value used wherever a cell or a computation may yield nothing. */
module Optional {
  datatype Option<T> = None | Some(value: T)
}
