// Absence, and the errors a request can end with.
module Wrappers {

  datatype Option<+T> = None | Some(value: T)

  datatype Error =
    | InvalidInput
    | NotFound
    | Unavailable
    | InvalidState
    | IdempotencyConflict
    | AlreadyProcessed
    | UniqueViolation
    | AllocationFailed
    | DatabaseError
    | Unauthorized
    | Forbidden
    | RefreshReplay

  datatype Result<+T> = Ok(value: T) | Err(error: Error)
}
