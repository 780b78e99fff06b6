/** The optional value used for lookups and for the scanner's error report. */
module Options {
  datatype Option<T> = None | Some(value: T)
}
