/** Shared helper datatype: a value that may be missing (JavaScript's `undefined`/`null`). */
module Common {
  datatype Option<+T> = None | Some(value: T)
}
