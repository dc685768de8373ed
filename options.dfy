/** The optional value used where JavaScript has `undefined`, `null` or "not found". */
module Options {

  datatype Option<+T> = None | Some(value: T)
}
