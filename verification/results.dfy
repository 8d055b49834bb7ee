/** Failure-carrying results. A Rust panic (a failed `assert!` or an integer
    overflow that a debug build traps) is an `Err` carrying a `Panic`. */
module Results {

  datatype Option<+T> = None | Some(value: T)

  datatype Result<+T, +E> = Ok(value: T) | Err(error: E)

  datatype Panic =
    | AssertionFailed(message: string)
    | ArithmeticOverflow
}
