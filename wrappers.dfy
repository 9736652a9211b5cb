/** Failure-compatible result types and the error taxonomy of the session package. */
module Wrappers {

  datatype Option<+T> = None | Some(value: T)

  datatype Result<+T, +E> = Success(value: T) | Failure(error: E)

  datatype Outcome<+E> = Pass | Fail(error: E)

  /** Everything that can go wrong in the package. The Go code signals the first
      three with panic; a store failure is an ordinary `error` value. */
  datatype Error =
    | EmptyCookieName          // WithCookieName("")
    | RandomSourceFailed       // crypto/rand could not fill the 32 id bytes
    | SessionNotInContext      // no *Session bound under "session" in the request context
    | StoreFailure(message: string)
  {
    /** Fatal errors abort; only store failures are handed back to the caller. */
    predicate IsFatal() {
      !StoreFailure?
    }
  }
}
