/** Small result types shared by every module of the model. */
module Wrappers {

  /** A value that may be missing: `undefined`/`null` in the JavaScript code. */
  datatype Option<+T> = None | Some(value: T)

  /** What an HTTP handler answers: a success value, or a status code with a message. */
  datatype Reply<+T> = Ok(value: T) | Err(status: nat, message: string)

  /** A middleware either hands control to the next handler or answers itself. */
  datatype Gate<+T> = Next(value: T) | Stop(status: nat, message: string)
}
