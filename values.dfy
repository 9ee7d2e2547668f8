/** Values shared by the bridge's modules: optional values, results that
    carry the exception a call raises, and the dynamically typed arguments
    that the constructors and setters inspect before using them. */
module Values {

  datatype Option<T> = None | Some(value: T)

  /** The exceptions the core raises, by kind. */
  datatype Error =
    | TypeError            // an argument of the wrong type, or a non-positive broker port
    | ValueError           // a non-positive baud rate
    | AttributeError       // read of an attribute that was never assigned
    | NameError            // use of an undefined name

  /** The outcome of a call that either returns a value or raises. */
  datatype Result<T> = Ok(value: T) | Err(error: Error)

  /** An operation that returns nothing on success. */
  datatype Outcome = Pass | Fail(error: Error)

  /** Identity of a user-supplied function (the error callback). */
  type CallbackId = nat

  /** An argument as the caller passes it, before any type check:
      None, a string, an integer, something callable, or anything else. */
  datatype Arg =
    | NoneArg
    | Str(s: string)
    | Int(n: int)
    | Callable(f: CallbackId)
    | Other
}
