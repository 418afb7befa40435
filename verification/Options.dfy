/** The optional value shared by every module: a Go pointer, error or comma-ok result that may be absent. */
module Options {

  datatype Option<+T> = None | Some(value: T)
}
