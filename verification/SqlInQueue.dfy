/** An SQL command as one step of the queue protocol. */
module SqlInQueue {
  import opened Prelude
  import opened QueueProtocol
  import opened QueueSafety
  import SqlCommand

  /** The transaction in which a runner's rows are locked; `lock` names the lock of a row. */
  ghost predicate Mirrors(s: State, r: nat, t: SqlCommand.Transaction, lock: Key -> string) {
    forall k | k in s.locks && s.locks[k] == ByRunner(r) :: lock(k) in t.locks
  }

  /** That the step RunEnds leaves locks and connection alone is what the command's savepoint is for:
      whatever SQL was run, and however it failed, the transaction goes on with the row locked. */
  lemma CommandKeepsRow(
    cfg: Config, s: State, r: nat, k: Key, lock: Key -> string,
    script: seq<SqlCommand.Statement>, t: SqlCommand.Transaction)
    requires LocksAgree(s) && r in s.runners && s.runners[r].connected && s.runners[r].phase == Executing(k)
    requires Mirrors(s, r, t, lock) && !t.failed && SqlCommand.KeepsToItself(script, t)
    ensures Enabled(cfg, s, Of(r, RunEnds))
    ensures var after := SqlCommand.Conversation(script, t);
            !after.bookkeepingFailed && !after.t.failed
            && Mirrors(Apply(cfg, s, Of(r, RunEnds)), r, after.t, lock) && lock(k) in after.t.locks
  {
    SqlCommand.AllOrNothing(script, t);
    assert Locked(s.runners[r]) == Some(k);
    assert Apply(cfg, s, Of(r, RunEnds)).locks == s.locks;
  }
}
