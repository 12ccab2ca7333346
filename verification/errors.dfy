/** The error and optional-value types shared by every sampler.
    The source turns every foreign error (I/O, parse, HTTP, JSON, netlink) into a
    `CliError` that only carries a message (src/error.rs), so the model keeps just
    the message. */
module Errors {

  /** A failure with its human-readable message. */
  datatype CliError = CliError(msg: string)

  datatype Option<+T> = None | Some(value: T) {

    /** The wrapped value, or `default` for `None` (Rust's `unwrap_or`). */
    function GetOr(default: T): T {
      match this
      case Some(v) => v
      case None => default
    }
  }

  /** Rust's `Result<T, CliError>`; usable with `:-`, which models the `?` operator. */
  datatype Result<+T> = Ok(value: T) | Err(error: CliError) {

    predicate IsFailure() {
      Err?
    }

    function PropagateFailure<U>(): Result<U>
      requires Err?
    {
      Err(error)
    }

    function Extract(): T
      requires Ok?
    {
      value
    }
  }
}
