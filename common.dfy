/** Values shared by every part of the model: optional values, the Python
    exceptions the core can raise, results that carry them, and images. */
module Common {

  datatype Option<T> = None | Some(value: T) {
    function GetOr(default: T): T {
      match this
      case Some(v) => v
      case None => default
    }
  }

  /** The built-in Python exceptions the modelled code raises. */
  datatype Error =
    | IndexError
    | KeyError
    | ValueError(message: string)
    | ZeroDivisionError

  /** A value, or the exception that was raised instead of returning it. */
  datatype Result<T> = Ok(value: T) | Err(error: Error) {
    predicate IsFailure() {
      Err?
    }

    function PropagateFailure<U>(): Result<U>
      requires Err?
    {
      Err(error)
    }

    function Extract(): T
      requires Ok?
    {
      value
    }
  }

  /** The result of a check that either passes or raises. */
  datatype Outcome = Pass | Fail(error: Error)

  /** An 8-bit image as a numpy array holds it (height x width x channels);
      the pixels are opaque to the model. */
  datatype Image = Image(height: nat, width: nat, pixels: seq<int>)

  function Max0(n: int): nat {
    if n < 0 then 0 else n
  }
}
