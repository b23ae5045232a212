/** Failure-carrying values shared by the client ports and the Java module. */
module Outcomes {

  /** A value that may be missing: a failed OS lookup, an unset option. */
  datatype Option<+T> = None | Some(value: T) {
    function GetOr(default: T): T {
      match this
      case Some(v) => v
      case None => default
    }
  }

  /** The result of an operation that either yields a value or terminates with an error. */
  datatype Result<+R, +E> = Success(value: R) | Failure(error: E)

  /** The result of an operation that yields nothing but may terminate with an error. */
  datatype Outcome<+E> = Pass | Fail(error: E)

  /**
   * The client's exit codes that the modelled code dies with (BAZEL_DIE).
   * Their numeric values live in exit_code.h, which is not part of this model.
   */
  datatype ExitCode = INTERNAL_ERROR | LOCAL_ENVIRONMENTAL_ERROR
}
