/** An optional value: a result that may be absent, a missing key, a request without a cursor. */
module Options {
  datatype Option<+T> = None | Some(value: T)
}
