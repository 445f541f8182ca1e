/**
 * Go `error` values as the two table utilities and their classifiers see them,
 * the classified results, and the way a utility's process ends.
 */
module ApiErrors {
  /**
   * A Go `error`. `ApiErr` is an error for which `errors.As` finds a `smithy.APIError`
   * (its `ErrorCode()` and `ErrorMessage()`); `text` is always what `err.Error()` returns,
   * which for a wrapped SDK error is longer than the message alone.
   */
  datatype Err =
    | NoErr
    | ApiErr(code: string, message: string, text: string)
    | OtherErr(text: string)

  /** A non-nil error. */
  type Failure = e: Err | !e.NoErr? witness OtherErr("")

  /** `err.Error()`; Go code only calls it on a non-nil error. */
  function ErrorText(e: Failure): string {
    e.text
  }

  /**
   * What a classifier returns: nil, a new error made by `fmt.Errorf(prefix + "%s", message)`,
   * a new error with a fixed text, or the error it was given.
   */
  datatype Outcome =
    | Ok
    | Wrapped(prefix: string, message: string)
    | Fixed(fixedText: string)
    | Raw(err: Failure)

  /** The error a classifier leaves alone: nil stays nil, anything else is returned as it is. */
  function Passthrough(e: Err): Outcome {
    if e.NoErr? then Ok else Raw(e)
  }

  /**
   * The Go error value an outcome stands for. Errors made by `fmt.Errorf` without `%w`
   * do not wrap anything, so they are no longer API errors.
   */
  function AsError(o: Outcome): Err {
    match o
    case Ok => NoErr
    case Wrapped(prefix, message) => OtherErr(prefix + message)
    case Fixed(t) => OtherErr(t)
    case Raw(e) => e
  }

  /** How a command-line utility ends: its exit status and the last line it writes. */
  datatype Exit = Exit(code: nat, message: string)

  /** `log.Fatalf` ends the process with status 1. */
  function Fatal(message: string): Exit {
    Exit(1, message)
  }
}
