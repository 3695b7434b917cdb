/** The one helper datatype shared by the other modules. */
module Options {

  /** A value that may be missing: `undefined` in the modelled code. */
  datatype Option<+T> = None | Some(value: T)
}
