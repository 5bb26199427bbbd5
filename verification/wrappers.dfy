/** Failure-carrying values shared by the relay and the dashboard models. */
module Wrappers {

  /** A value that may be absent: JSON `null`, `undefined`, or JavaScript's `NaN`. */
  datatype Option<+T> = None | Some(value: T)

  /** The outcome of a call into a collaborator: a value, or the error it threw. */
  datatype Result<+T, +E> = Ok(value: T) | Err(error: E)

  /** The `code` property of a thrown JavaScript error. */
  datatype ErrorCode =
    | NumericCode(n: int)   // e.g. the wallet's 4001 "user rejected request"
    | TextCode(t: string)   // e.g. axios's "ERR_BAD_RESPONSE"
    | NoCode                // the property is absent

  /** A thrown JavaScript value, reduced to the two properties the code reads.
      `message` is None when the thrown value has no string message. */
  datatype JsError = JsError(code: ErrorCode, message: Option<string>)
}
