/**
 The cursor rules every connector runs under (`ConnectorService.sync`,
 src/nidaro/connectors/service.py): replay the stored cursor, persist the next one, keep it
 when a run names none, clear it when the source rejects it.
 */
module CursorRules {
  import opened Wrappers

  datatype SyncResult<+C, +R> = SyncResult(records: seq<R>, nextCursor: Option<C>)

  /** Why a run raised: the source rejected the cursor, or anything else. */
  datatype SyncError = StaleCursor | OtherFailure

  type Outcome<C, R> = Result<SyncResult<C, R>, SyncError>

  /** The stored cursor after a run that started from `stored`. */
  function CursorAfter<C, R>(stored: Option<C>, outcome: Outcome<C, R>): Option<C> {
    match outcome
    case Success(result) => if result.nextCursor.Some? then result.nextCursor else stored
    case Failure(StaleCursor) => None
    case Failure(OtherFailure) => stored
  }

  /** The records a run hands to the domain: none when it raised. */
  function Delivered<C, R>(outcome: Outcome<C, R>): seq<R> {
    match outcome
    case Success(result) => result.records
    case Failure(_) => []
  }
}
