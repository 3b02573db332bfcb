/** Errors a statement can end in, and what the callers read off them. */
module Database {
  import opened Buckets

  datatype Result<+T, +E> = Ok(value: T) | Err(error: E)

  /** The SQLSTATEs the code tells apart: `40001`, `40P01`, `23503`, `23505`,
      `42P04`, and all others. */
  datatype SqlState =
    | SerializationFailure
    | DeadlockDetected
    | ForeignKeyViolation
    | UniqueViolation
    | DuplicateDatabase
    | OtherState(code: string)

  /** A driver error. `Database` is a verdict the server returned, with its
      SQLSTATE and the constraint it names, if any. */
  datatype SqlxError =
    | RowNotFound
    | PoolTimedOut
    | PoolClosed
    | Tls
    | Io
    | Database(state: SqlState, violated: Option<string>)
    | Misc

  /** An application error; `Refusal` stands for every kind the conversion
      below does not produce. */
  datatype AppError =
    | NotFound
    | DbUnavailable
    | DbTimeout
    | Db(err: SqlxError)
    | Internal(message: string)
    | Refusal(kind: string)

  function FromSqlx(e: SqlxError): AppError {
    match e
    case RowNotFound => NotFound
    case PoolTimedOut | PoolClosed | Tls => DbUnavailable
    case Io => DbTimeout
    case _ => Db(e)
  }

  predicate HasState(e: SqlxError, state: SqlState) {
    e.Database? && e.state == state
  }

  function ViolatedUnique(e: SqlxError): Option<string> {
    if HasState(e, UniqueViolation) then e.violated else None
  }

  predicate IsDatabaseExists(e: SqlxError) {
    HasState(e, DuplicateDatabase) || ViolatedUnique(e) == Some("pg_database_datname_index")
  }

  predicate IsRetryableTx(e: SqlxError) {
    HasState(e, SerializationFailure) || HasState(e, DeadlockDetected)
  }

  predicate IsRetryable(e: SqlxError, cascade: bool) {
    IsRetryableTx(e) || (cascade && HasState(e, ForeignKeyViolation))
  }
}
