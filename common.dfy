/** Small value types shared by the ledger, the session and the handlers. */
module Common {

  /** A value that may be absent (`undefined`, `null` or a missing field). */
  datatype Option<T> = None | Some(value: T)

  /** The result of one remote call: the reply, or the error it threw. */
  datatype Remote<T> = Ok(reply: T) | Fail

  /** Whether a store operation returned normally or threw. */
  datatype Outcome = Pass | Thrown

  /** JavaScript truthiness of an optional price: absent and 0 are falsy. */
  predicate Truthy(x: Option<real>) {
    x.Some? && x.value != 0.0
  }
}
