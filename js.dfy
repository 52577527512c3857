/** JavaScript values as the proxy's decision logic sees them: the `unknown`
    inputs of the port checks, thrown values, and the outcome of a call into a
    collaborator that may throw (a settled promise). */
module Js {

  datatype Option<+T> = None | Some(value: T)

  /** One element of a `Uint8Array`. */
  type Byte = b: int | 0 <= b < 256

  /** An `unknown` value handed to a port check. A JavaScript number whose value
      is an integer is `Num`; NaN, the infinities and fractional numbers are
      `NonIntegerNum`; `undefined`, `null` and objects are `Absent`. */
  datatype Unknown = Num(n: int) | NonIntegerNum | Str(s: string) | Bool(b: bool) | Absent

  /** The classes an error can be an instance of, as far as `ignores` tells
      them apart: the four runtime error classes it names, the deadline error
      of the timer library, and every other class. */
  datatype ErrorKind = BadResource | BrokenPipe | ConnectionReset | Interrupted | Deadline | OtherKind

  /** An instance of `Error` (or of a subclass): its class, its `name`, its
      `message` and its optional `cause`. */
  datatype Error = Error(kind: ErrorKind, name: string, message: string, cause: Option<string>)

  /** A thrown value: an `Error` instance, or any other value, kept as the text
      `String(value)` gives for it. */
  datatype Thrown = Raised(err: Error) | NonError(shown: string)

  /** A settled promise, or a call that returned or threw. */
  datatype Result<+T> = Ok(value: T) | Err(error: Thrown)

  /** `new Error(message)` */
  function PlainError(message: string): Error {
    Error(OtherKind, "Error", message, None)
  }

  /** `new Error(message, { cause })` */
  function ErrorWithCause(message: string, cause: string): Error {
    Error(OtherKind, "Error", message, Some(cause))
  }

  /** `String(value)`: for an `Error`, `Error.prototype.toString`, which drops
      whichever of name and message is empty and otherwise joins them with ": ". */
  function Show(t: Thrown): string {
    match t
    case NonError(shown) => shown
    case Raised(e) =>
      if e.name == "" then e.message
      else if e.message == "" then e.name
      else e.name + ": " + e.message
  }
}
