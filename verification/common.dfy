/** Small shared vocabulary: optional values and JavaScript truthiness. */
module Common {

  /** A value that may be absent (`undefined` or `null` in the source). */
  datatype Option<+T> = None | Some(value: T)

  /** Outcome of an operation that can fail with an error of type `E`. */
  datatype Result<+T, +E> = Ok(value: T) | Err(error: E)

  /** A numeric field is truthy in JavaScript when it is present and not 0. */
  predicate NumTruthy(x: Option<int>) {
    x.Some? && x.value != 0
  }

  /** A string field is truthy in JavaScript when it is present and not empty. */
  predicate StrTruthy(x: Option<string>) {
    x.Some? && x.value != ""
  }

  /** `a || b` on strings: the first operand unless it is empty. */
  function OrDefault(s: string, default: string): (r: string)
    ensures r != "" || default == ""
    ensures s != "" ==> r == s
  {
    if s != "" then s else default
  }
}
