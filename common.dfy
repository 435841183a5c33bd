/** Types shared by every module of the model: bytes, error kinds and the
    outcome of a fallible call. */
module Common {

  /** An octet, as Rust's `u8`. */
  type byte = x: int | 0 <= x < 256

  /** The kinds of `anyhow::Error` the modelled code can return. */
  datatype Failure =
    | Io                        // a file or the standard input could not be opened or read
    | BadLength                 // a slice did not convert to a fixed-size array (TryFromSliceError)
    | BadKey                    // ed25519 key bytes were rejected (SignatureError)
    | Invalid(message: string)  // a tag parser's error, with its message

  /** The outcome of a call: a value, a returned error, or a panic, which
      aborts the program instead of returning. Usable with `:-`; a panic
      propagates like an error, as an unwinding panic does. */
  datatype Result<+T> = Ok(value: T) | Err(error: Failure) | Panic(message: string) {

    predicate IsFailure() {
      !Ok?
    }

    function PropagateFailure<U>(): Result<U>
      requires !Ok?
    {
      if Err? then Err(error) else Panic(message)
    }

    function Extract(): T
      requires Ok?
    {
      value
    }
  }

  /** Rust's `Option`. */
  datatype Option<+T> = None | Some(value: T)

  /** `f()?; Ok(())`: keep the failure, drop the value. */
  function Discard<T>(r: Result<T>): (d: Result<()>)
    ensures d.Ok? <==> r.Ok?
    ensures r.Err? ==> d == Err(r.error)
    ensures r.Panic? ==> d == Panic(r.message)
  {
    if r.Ok? then Ok(()) else r.PropagateFailure()
  }
}
