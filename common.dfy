/** Small shared datatypes. */
module Common {

  /** A value that may be absent (a PHP `null` or an unmatched pattern). */
  datatype Option<+T> = None | Some(value: T)
}
