/** Option and Result values standing for JavaScript's `undefined`/`null`
    and for a fetch, scrape or parse that raised instead of returning. */
module Outcome {

  /** A value that may be absent (`undefined`, `null`, Python `None`). */
  datatype Option<+T> = None | Some(value: T) {

    /** The carried value, or `default` when absent. */
    function GetOr(default: T): T {
      match this
      case Some(v) => v
      case None => default
    }
  }

  /** The outcome of an operation that may raise: the exception's message is
      only ever logged by the system, so a failure carries no payload. */
  datatype Result<+T> = Success(value: T) | Failure {

    function ToOption(): Option<T> {
      match this
      case Success(v) => Some(v)
      case Failure => None
    }
  }
}
