/** Optional values, for the C pointers and strings that libudev may leave null, the outcome
    of the daemon's blocking waits, and how the daemon ends. */
module Wrappers {

  datatype Option<+T> = None | Some(value: T)

  /** How a blocking `pselect` finally returns: interrupted by a signal (EINTR), which ends the
      loop normally, or failed with any other error, which raises "select". */
  datatype WaitEnd = Interrupted | WaitFailed

  /** How `main` or the light show ends: with an exit code, or by throwing an exception whose
      message is `what`. */
  datatype Outcome = Exit(code: int) | Raised(what: string)
}
