/**
 * `WithTransaction` (internal/utils/transaction.go): begin, run the body,
 * roll back if the body fails, commit otherwise.  The store is passed as a
 * value: the body maps the state at Begin to the state it leaves and the
 * error it returns, and rolling back is going back to the state at Begin.
 */
module Transaction {
  import opened Wrappers
  import opened Errors

  function WithTransaction<S>(db: S, beginError: Option<Error>, fn: S -> (S, Option<Error>), commitFails: bool): (r: (S, Option<Error>))
    // all or nothing: the state is the one at Begin or the one the body left
    ensures r.0 == db || r.0 == fn(db).0
    // a failed Begin is returned as it is, and the body never runs
    ensures beginError.Some? ==> r == (db, beginError)
    // success exactly when Begin, the body and Commit all succeed; then the body's changes are kept
    ensures r.1.None? <==> beginError.None? && fn(db).1.None? && !commitFails
    ensures r.1.None? ==> r.0 == fn(db).0
    // any error leaves the state as it was at Begin
    ensures r.1.Some? ==> r.0 == db
    // the body's own error is returned unchanged
    ensures beginError.None? && fn(db).1.Some? ==> r.1 == fn(db).1
    // a failed Commit has its own error
    ensures beginError.None? && fn(db).1.None? && commitFails ==> r.1 == Some(CommitTransactionFailed)
  {
    if beginError.Some? then (db, beginError)
    else
      var (after, err) := fn(db);
      if err.Some? then (db, err)
      else if commitFails then (db, Some(CommitTransactionFailed))
      else (after, None)
  }
}
