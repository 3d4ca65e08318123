/** Option and Result, the two failure-compatible wrappers the model uses. */
module Wrappers {

  datatype Option<+T> = None | Some(value: T) {
    function GetOr(default: T): T {
      match this
      case Some(v) => v
      case None => default
    }
  }

  /** Rust's `Result<T, E>`; usable with `:-` like `?` in Rust. */
  datatype Result<+T, +E> = Ok(value: T) | Err(error: E) {
    predicate IsFailure() {
      Err?
    }

    function PropagateFailure<U>(): Result<U, E>
      requires Err?
    {
      Err(error)
    }

    function Extract(): T
      requires Ok?
    {
      value
    }
  }
}

/** The crate's error enum (src/error.rs), with the foreign error payloads made abstract. */
module Errors {
  import opened Wrappers

  /** The `zip` crate's error, reduced to the distinction the package reader makes. */
  datatype ZipError = FileNotFound | InvalidArchive(reason: string) | UnsupportedArchive(reason: string) | ZipIo

  /** The kinds of `std::io::Error` that reach the model. */
  datatype IoErrorKind = InvalidData | OtherIo

  datatype DocxError =
    | IO(kind: IoErrorKind)
    | Xml(message: string)
    | Zip(zip: ZipError)
    | DrawingMLCompatibility(message: string)

  type DocxResult<T> = Result<T, DocxError>
}
