/** The optional value used for SQL NULL, Python None and absent dictionary keys. */
module Options {

  datatype Option<+T> = None | Some(value: T)
}
