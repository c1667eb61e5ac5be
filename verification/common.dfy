/** Option and Result values shared by every module of the model. */
module Common {

  /** A value that may be absent: JavaScript's `undefined`/`null` for optional data. */
  datatype Option<+T> = None | Some(value: T)

  /** The outcome of an operation that may throw: `Err` carries the error message. */
  datatype Result<+T> = Ok(value: T) | Err(msg: string)

  /**
   * A field of an object literal sent to the remote store: left out of the
   * object, present with the value `undefined`, or present with a value.
   */
  datatype Field<+T> = Missing | Undefined | Defined(value: T)

  /** JavaScript's `a || b` on strings: the first operand unless it is falsy (absent or ""). */
  function OrElse(a: Option<string>, b: string): string
  {
    if a.Some? && a.value != "" then a.value else b
  }

  /** True when a string value is present and non-empty (truthy in JavaScript). */
  predicate Truthy(a: Option<string>)
  {
    a.Some? && a.value != ""
  }
}
