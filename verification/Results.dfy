/** Outcomes shared by the model: the error returns of the original, and optional values. */
module Results {
  datatype Option<+T> = None | Some(value: T)

  datatype Error =
    | InvalidDevice
    | CounterExhausted
    | InvalidClock
    | InvalidHash
    | EqualClock          // equal clock with different content
    | TooManyHeads
    | MetadataTooLarge
    | EmptyVersions
    | SequenceExhausted
    | ObjectsMissing
    | StaleReview
    | Unknown
    | RecoveryPending
    | ApplyFailed
    | InvalidPage
    | BadArchive
    | CursorBeyondSequence
    | TooManyResults
    | QueueFull
    | NotApproved
    | NotEnrolled
    | NotQueued
    | CommandReused
    | UnexpectedCommand
    | BlockOutOfRange
    | BlockMismatch
    | SizeUnderflow
    | FileTooLarge
    | AlreadyComplete

  datatype Result<+T> = Ok(value: T) | Err(error: Error) {
    predicate IsFailure() { Err? }
    function PropagateFailure<U>(): Result<U> requires Err? { Err(error) }
    function Extract(): T requires Ok? { value }
  }
}
