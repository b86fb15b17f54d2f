/**
 * Results and errors shared by the instance model.
 *
 * Go returns `(value, error)` pairs and uses `nil` for "no error"; here an
 * operation that can fail returns a `Result`, and one that only reports an
 * error returns an `Option<Error>` (None playing the part of a nil error).
 */
module Outcomes {

  datatype Option<+T> = None | Some(value: T) {
    function GetOr(default: T): T {
      match this
      case Some(v) => v
      case None => default
    }
  }

  /** MySQL's error number for "Deadlock found when trying to get lock". */
  const ER_LOCK_DEADLOCK: int := 1213

  /** The kinds of error the core produces or passes through. */
  datatype Error =
    | ConnectFailed(message: string)          // the driver could not open a connection
    | ServerError(code: int, message: string) // a statement or query rejected by the server
    | NoRows                                  // database/sql's ErrNoRows
    | FlavorAlreadyDetected(instance: string, flavor: string)
    | TableNotEmpty(table: string)             // "table %s has at least one row"
  {
    /** The check that the drop logic makes on a failed DROP TABLE. */
    predicate IsDeadlock() {
      ServerError? && code == ER_LOCK_DEADLOCK
    }
  }

  datatype Result<+T> = Ok(value: T) | Err(error: Error) {
    function ToError(): Option<Error> {
      match this
      case Ok(_) => None
      case Err(e) => Some(e)
    }
  }
}
