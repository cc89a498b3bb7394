/** The parts of pkg/errors/errors.go that the recovery code looks at. */
module Errors {

  /** `hasMetadata` tells whether the error carries a context whose metadata map exists.
      Errors of the package's constructors and variables often do not. */
  datatype EnhancedError = EnhancedError(
    code: int,
    category: string,
    message: string,
    severity: string,
    errorID: string,
    retryable: bool,
    hasMetadata: bool)

  datatype Error =
    | Enhanced(e: EnhancedError)
    | Plain(message: string)
    | ContextDone  // what ctx.Err() returns

  /** What one run of a caller's function returns. */
  datatype Outcome = Ok | Fail(err: Error)
}
