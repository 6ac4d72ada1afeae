/** The optional value used for the source's "result or None" returns. */
module Options {

  datatype Option<+T> = None | Some(value: T)

}
