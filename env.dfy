/** What the surrounding Python runtime hands the dashboard: an absent value, the outcome of a
    call that may raise, and the outcome of running an external command. */
module Env {

  /** Python's `X | None`. */
  datatype Option<+T> = None | Some(value: T)

  /** A call that either returns a value or lets an exception escape to its caller. */
  datatype Outcome<+T> = Returned(value: T) | Raised

  /** What `subprocess.run` gives back: a finished process (exit code and decoded standard
      output), or one of the exceptions it raises itself (`FileNotFoundError` when the program
      is missing, `TimeoutExpired` when a timeout elapsed, any other failure such as a
      permission or decoding error). */
  datatype ProcOutcome =
    | Completed(code: int, stdout: string)
    | NotFound
    | TimedOut
    | Failed
}
