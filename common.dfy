/** Small value types shared by every module of the model. */
module Common {

  /** A value that may be absent (JavaScript `undefined`/`null`). */
  datatype Option<+T> = None | Some(value: T)

  /** The settled state of a promise: resolved with a value or rejected with an error message. */
  datatype Settled<+T> = Resolved(value: T) | Rejected(message: string)

  /** Raw file contents (a Node.js Buffer). */
  type Bytes = seq<bv8>
}
