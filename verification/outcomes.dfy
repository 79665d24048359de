/** Errors and the result shapes the installer's callbacks carry. */
module Outcomes {
  import opened JsStrings

  /** A JavaScript `Error` object, reduced to its message. Errors produced by
      the runtime (spawn, file system, HTTPS, gunzip) arrive as opaque
      messages. */
  datatype Fault = Fault(message: JsString)

  /** `String(err)` for an `Error`: the name `Error`, then `": "` and the
      message unless the message is empty. */
  function Describe(e: Fault): JsString
  {
    if e.message == [] then ErrorName else ErrorName + ColonSpace + e.message
  }

  const ErrorName := Text("Error")

  /** Pieces the error messages share. */
  const ColonSpace := Text(": ")
  const ColonCode := ColonSpace + Text("code ")

  /** A node-style callback without a value: `cb()` or `cb(err)`. */
  datatype Outcome = Pass | Fail(error: Fault)

  /** A node-style callback with a value: `cb(null, value)` or `cb(err)`; also
      the result of a function that may throw. */
  datatype Result<+T> = Ok(value: T) | Err(error: Fault)

  datatype Option<+T> = None | Some(value: T)

  /** The messages of a list of errors, as `Array.prototype.join` renders each. */
  function DescribeAll(errors: seq<Fault>): (r: seq<JsString>)
    ensures |r| == |errors|
    ensures forall i | 0 <= i < |errors| :: r[i] == Describe(errors[i])
  {
    if errors == [] then [] else [Describe(errors[0])] + DescribeAll(errors[1..])
  }
}
