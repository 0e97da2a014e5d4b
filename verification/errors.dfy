/** The error values the persistence layer passes around: the driver's
    sentinels, the storage package's sentinels, and the two ways other errors
    are built (an opaque message, or a message wrapping a cause). */
module Errors {

  datatype Error =
    // sentinels of the PostgreSQL driver and of database/sql
    | PgxNoRows
    | PgxTooManyRows
    | PgxTxClosed
    | PgxTxCommitRollback
    | SqlConnDone
    // sentinels of the storage package, which repositories hand to their callers
    | ImageNotFound
    | SensorNotFound
    | FlowerbedNotFound
    | TreeClusterNotFound
    | EntityNotFound
    | ToManyRows
    | TxClosed
    | TxCommitRollback
    | ConnectionClosed
    // `errors.Wrap(cause, message)`: a new error whose chain continues with `cause`
    | Wrapped(message: string, cause: Error)
    // any other error, known only by its message
    | Opaque(message: string)

  /** `errors.Is(err, target)`: `target` occurs somewhere on the unwrap chain
      of `err`. On an error that wraps nothing it is plain identity. */
  function Is(err: Error, target: Error): (r: bool)
    ensures err == target ==> r
    ensures !err.Wrapped? ==> (r <==> err == target)
    ensures err.Wrapped? ==> (r <==> err == target || Is(err.cause, target))
    decreases err
  {
    err == target || (err.Wrapped? && Is(err.cause, target))
  }

  /** The storage sentinels that mean "no such entity". */
  predicate IsNotFoundKind(err: Error) {
    err.ImageNotFound? || err.SensorNotFound? || err.FlowerbedNotFound? ||
    err.TreeClusterNotFound? || err.EntityNotFound?
  }

  /** `errors.Wrap(err, message)` on a non-nil error: a fresh error distinct from
      `err` that still answers `errors.Is` for everything `err` does. */
  function Wrap(err: Error, message: string): (r: Error)
    ensures r != err
    ensures !IsNotFoundKind(r)
    ensures forall t :: Is(err, t) ==> Is(r, t)
  {
    Wrapped(message, err)
  }
}
