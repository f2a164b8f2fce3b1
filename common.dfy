/** Small shared definitions. */
module Common {

  /** A value that may be missing: a JSON field that is absent or null. */
  datatype Option<+T> = None | Some(value: T)
}
