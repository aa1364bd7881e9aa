/** Small shared vocabulary: optional values and the outcomes of database transactions. */
module Prelude {

  datatype Option<+T> = None | Some(value: T)

  /** Why a transaction rolls back: a unique index refused a row, or the code threw. */
  datatype Failure = UniqueViolation | IllegalTransition | NotFound | Mismatch | Rejected

  /** A transaction as a value: it commits a new database with a result, or leaves none. */
  datatype TxResult<D, T> = Commit(db: D, value: T) | Rollback(reason: Failure)
  {
    /** The database everybody else sees afterwards. */
    function After(before: D): D {
      if Commit? then db else before
    }
  }

  /** The same outcome for a method that has already written its database in place. */
  datatype Attempted<+T> = Done(value: T) | Throw(reason: Failure)

  /** A method inside a transaction: on a throw, the caller is about to roll everything back. */
  ghost predicate Follows<D, T>(spec: TxResult<D, T>, db: D, r: Attempted<T>) {
    match spec
    case Commit(d, v) => d == db && r == Done(v)
    case Rollback(e) => r == Throw(e)
  }

  /** A method that is a whole transaction: on a throw the database is the one it started from. */
  ghost predicate Executes<D, T>(spec: TxResult<D, T>, before: D, after: D, r: Attempted<T>) {
    Follows(spec, after, r) && after == spec.After(before)
  }
}
