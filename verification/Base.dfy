/** Values shared by every module: optional values and failures. */
module Base {

  datatype Option<+T> = None | Some(value: T)

  datatype Result<+T, +E> = Ok(value: T) | Err(error: E)

  /** Python's `a or b` on optional strings: `None` and the empty string are both falsy. */
  function Or(a: Option<string>, b: Option<string>): Option<string> {
    if a.Some? && a.value != "" then a else b
  }

  /** Python's `a or ""`. */
  function OrEmpty(a: Option<string>): string {
    if a.Some? then a.value else ""
  }
}
