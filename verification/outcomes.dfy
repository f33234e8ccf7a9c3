/** Failure-compatible result types shared by the composers.

The services of the training tracker report failure by raising `ValueError`
or `PermissionError`; here every such exception is an `Error` value, and an
operation that can fail returns a `Result`. Because an operation returns a
new state only on success, a failed operation leaves the caller's state as it
was: the model treats each service call as one atomic transition.
 */
module Outcomes {

  /** Python's `None` / value, for the optional fields of requests and records. */
  datatype Option<+T> = None | Some(value: T) {
    function GetOr(default: T): T {
      match this
      case Some(v) => v
      case None => default
    }

    /** This value when present, `other` otherwise: Python's "overwrite only when supplied". */
    function Or(other: Option<T>): Option<T> {
      if Some? then this else other
    }
  }

  /** One constructor per exception the core raises, named after its message. */
  datatype Error =
    | SessionNotFound            // "Session not found"
    | BlockNotFound              // "Block not found"
    | ExerciseNotFound           // "Exercise not found"
    | NotOwner                   // PermissionError "User does not have access to this session"
    | MissingSession             // "Exercise must belong to a session"
    | BlockSessionMismatch       // "Block does not belong to the same session"
    | GlobalPositionInBlock      // "Cannot specify global position for an exercise inside a block"
    | CannotLeaveBlock           // "Cannot move an exercise out of its block. ..."
    | InvalidBlockPosition       // "Invalid block position"
    | InvalidExercisePosition    // "Invalid exercise position"
    | InvalidPositionInBlock     // "Invalid position_in_block"
    | UnboundLocal               // Python's UnboundLocalError on a local read before assignment

  datatype Result<+T> = Ok(value: T) | Err(error: Error) {
    predicate IsFailure() {
      Err?
    }

    function PropagateFailure<U>(): Result<U>
      requires Err?
    {
      Err(error)
    }

    function Extract(): T
      requires Ok?
    {
      value
    }
  }

  /** The outcome of a guard that returns nothing on success (the ownership checks). */
  datatype Check = Pass | Fail(error: Error)
}
