/**
 * An SQL command between savepoints: the transaction as PostgreSQL keeps it, the four commands that
 * `SqlQueueCmd::run_cmd` wraps around the user's SQL, and what is left of the transaction after them.
 */
module SqlCommand {
  import opened Prelude

  // ----- A transaction -----

  type Db = map<string, string>

  datatype Timing = NotDeferrable | InitiallyImmediate | InitiallyDeferred

  /** A queued constraint check or constraint trigger: when fired it raises (None), or passes and may
      itself have written. */
  datatype Check = Check(timing: Timing, fire: Db -> Option<Db>)

  /** What SET CONSTRAINTS ALL has last said in this transaction, if anything. */
  datatype Mode = AsDeclared | AllImmediate | AllDeferred

  datatype Savepoint = Savepoint(name: string, db: Db, pending: seq<Check>, mode: Mode, locks: set<string>)

  datatype Transaction = Transaction(
    failed: bool,
    db: Db,
    pending: seq<Check>,
    mode: Mode,
    locks: set<string>,
    savepoints: seq<Savepoint>)

  datatype ExecStatus = EmptyQuery | CommandOk | TuplesOk | CopyOut | CopyIn | BadResponse | NonfatalError | FatalError

  /** The user's SQL is a sequence of these: anything short of ending the transaction. */
  datatype Statement =
    | Perform(effect: Db -> Option<Db>, checks: seq<Check>, takes: set<string>, reports: ExecStatus)
    | SetConstraints(mode: Mode)
    | SetSavepoint(name: string)
    | Release(name: string)
    | RollbackTo(name: string)

  predicate Waits(check: Check, mode: Mode) {
    match check.timing
    case NotDeferrable => false
    case InitiallyImmediate => mode.AllDeferred?
    case InitiallyDeferred => !mode.AllImmediate?
  }

  function Waiting(checks: seq<Check>, mode: Mode, waits: bool): seq<Check> {
    if checks == [] then []
    else (if Waits(checks[0], mode) == waits then [checks[0]] else []) + Waiting(checks[1..], mode, waits)
  }

  function Fire(checks: seq<Check>, db: Db): Option<Db> {
    if checks == [] then Some(db)
    else
      match checks[0].fire(db)
      case None => None
      case Some(after) => Fire(checks[1..], after)
  }

  /** Index of the innermost savepoint of that name, or -1. */
  function Innermost(savepoints: seq<Savepoint>, name: string): int {
    if savepoints == [] then -1
    else if savepoints[|savepoints| - 1].name == name then |savepoints| - 1
    else Innermost(savepoints[..|savepoints| - 1], name)
  }

  lemma {:induction false} InnermostFound(savepoints: seq<Savepoint>, name: string)
    ensures var i := Innermost(savepoints, name);
            -1 <= i < |savepoints| && (i >= 0 ==> savepoints[i].name == name)
            && (forall k | i < k < |savepoints| :: savepoints[k].name != name)
  {
    if savepoints != [] { InnermostFound(savepoints[..|savepoints| - 1], name); }
  }

  function Error(t: Transaction): Transaction {
    t.(failed := true)
  }

  function Snapshot(name: string, t: Transaction): Savepoint {
    Savepoint(name, t.db, t.pending, t.mode, t.locks)
  }

  function Restore(t: Transaction, i: nat): Transaction
    requires i < |t.savepoints|
  {
    var s := t.savepoints[i];
    Transaction(false, s.db, s.pending, s.mode, s.locks, t.savepoints[..i + 1])
  }

  /** One statement. In a failed transaction nothing but a rollback to a savepoint gets anywhere, and
      whatever raises leaves the transaction failed. */
  function Do(statement: Statement, t: Transaction): Transaction {
    if statement.RollbackTo? then
      var i := Innermost(t.savepoints, statement.name);
      InnermostFound(t.savepoints, statement.name);
      if i < 0 then Error(t) else Restore(t, i)
    else if t.failed then t
    else
      match statement
      case Perform(effect, checks, takes, _) => PerformOn(t, effect(t.db), checks, takes)
      case SetConstraints(mode) =>
        if !mode.AllImmediate? then t.(mode := mode) else FirePending(t)
      case SetSavepoint(name) => t.(savepoints := t.savepoints + [Snapshot(name, t)])
      case Release(name) =>
        var i := Innermost(t.savepoints, name);
        InnermostFound(t.savepoints, name);
        if i < 0 then Error(t) else t.(savepoints := t.savepoints[..i])
  }

  function PerformOn(t: Transaction, written: Option<Db>, checks: seq<Check>, takes: set<string>): Transaction {
    if written.None? then Error(t)
    else
      match Fire(Waiting(checks, t.mode, false), written.value)
      case None => Error(t)
      case Some(db) => t.(db := db, pending := t.pending + Waiting(checks, t.mode, true), locks := t.locks + takes)
  }

  function FirePending(t: Transaction): Transaction {
    match Fire(t.pending, t.db)
    case None => Error(t)
    case Some(db) => t.(db := db, pending := [], mode := AllImmediate)
  }

  /** Statements sent in one string: the first to raise is the last to be looked at. */
  function Run(script: seq<Statement>, t: Transaction): Transaction {
    if script == [] then t
    else
      var next := Do(script[0], t);
      if next.failed then next else Run(script[1..], next)
  }

  function Reported(script: seq<Statement>, t: Transaction): ExecStatus {
    if script == [] then EmptyQuery
    else if Run(script, t).failed then FatalError
    else
      match script[|script| - 1]
      case Perform(_, _, _, reports) => reports
      case _ => CommandOk
  }

  predicate Fine(status: ExecStatus) {
    status.TuplesOk? || status.CommandOk?
  }

  const PRE_RUN_CMD := "pre_run_cmd"

  // ----- The command -----

  type ErrorFields = map<char, Option<string>>

  /** SQL sent, and the status that came back. */
  datatype Exchange = Exchange(script: seq<Statement>, status: ExecStatus)

  /** A connection: its open transaction, or None once it is lost. It can be lost at any moment, and
      the transaction with it. */
  class Connection {
    var tx: Option<Transaction>
    ghost var sent: seq<Exchange>

    constructor (t: Transaction)
      ensures tx == Some(t) && sent == []
    {
      tx, sent := Some(t), [];
    }

    method Exec(script: seq<Statement>) returns (status: ExecStatus, error: ErrorFields)
      modifies this
      ensures tx.Some? ==> old(tx).Some? && tx.value == Run(script, old(tx).value)
                           && status == Reported(script, old(tx).value)
      ensures tx.None? ==> !Fine(status)
      ensures sent == old(sent) + [Exchange(script, status)]
    {
      error := *;
      if * {
        tx := None;
      }
      if tx.None? {
        status := *;
        if Fine(status) {
          status := FatalError;
        }
      } else {
        status := Reported(script, tx.value);
        tx := Some(Run(script, tx.value));
      }
      sent := sent + [Exchange(script, status)];
    }

    /** One statement of the wrapper's own. */
    method Command(statement: Statement) returns (status: ExecStatus, error: ErrorFields)
      requires !statement.Perform?
      modifies this
      ensures tx.Some? ==> old(tx).Some? && tx.value == Do(statement, old(tx).value)
                           && status == if tx.value.failed then FatalError else CommandOk
      ensures tx.None? ==> !Fine(status)
      ensures sent == old(sent) + [Exchange([statement], status)]
    {
      hide Do, Run, Reported;
      Single(statement);
      status, error := Exec([statement]);
    }
  }

  /** How it ends when the connection holds. */
  datatype Ending = Ending(t: Transaction, status: ExecStatus, fatal: bool, itselfFailed: bool, bookkeepingFailed: bool)

  /** The conversation of `run_cmd` with a connection that holds. */
  function Conversation(script: seq<Statement>, t: Transaction): Ending {
    var saved := Do(SetSavepoint(PRE_RUN_CMD), t);
    if saved.failed then Ending(saved, FatalError, true, false, true)
    else
      var ran := Run(script, saved);
      var status := Reported(script, saved);
      var fired := if Fine(status) then Do(SetConstraints(AllImmediate), ran) else ran;
      if !Fine(status) || fired.failed then
        var back := Do(RollbackTo(PRE_RUN_CMD), fired);
        Ending(back, if Fine(status) then FatalError else status, true, true, back.failed)
      else
        var released := Do(Release(PRE_RUN_CMD), fired);
        Ending(released, status, false, false, released.failed)
  }

  ghost predicate Goes(e: Exchange, s: Statement) {
    e.script == [s]
  }

  /** What `run_cmd` sends, given what comes back, and what it concludes, whether or not the connection
      holds: the savepoint, the SQL, the constraints unless the SQL failed, and the way back or on. */
  ghost predicate Dialogue(sent: seq<Exchange>, script: seq<Statement>, status: ExecStatus, fatal: bool,
                     itselfFailed: bool, bookkeepingFailed: bool)
  {
    && sent != [] && Goes(sent[0], SetSavepoint("pre_run_cmd"))
    && if sent[0].status != CommandOk then
         |sent| == 1 && status == sent[0].status && fatal && !itselfFailed && bookkeepingFailed
       else
         && |sent| > 2 && sent[1].script == script
         && if sent[1].status != TuplesOk && sent[1].status != CommandOk then
              && |sent| == 3 && Goes(sent[2], RollbackTo("pre_run_cmd"))
              && status == sent[1].status && fatal && itselfFailed && bookkeepingFailed == (sent[2].status != CommandOk)
            else
              && |sent| == 4 && Goes(sent[2], SetConstraints(AllImmediate))
              && itselfFailed == (sent[2].status != CommandOk) && fatal == itselfFailed
              && status == (if itselfFailed then sent[2].status else sent[1].status)
              && Goes(sent[3], if itselfFailed then RollbackTo("pre_run_cmd") else Release("pre_run_cmd"))
              && bookkeepingFailed == (sent[3].status != CommandOk)
  }

  /** A command read from the queue; each row read makes a new one. */
  class SqlQueueCmd {
    const sql: seq<Statement>
    var resultStatus: Option<ExecStatus>
    var fatalError: Option<ErrorFields>

    constructor (sql: seq<Statement>)
      ensures this.sql == sql && fatalError.None? && resultStatus.None?
    {
      this.sql := sql;
      fatalError := None;
      resultStatus := None;
    }

    method RunCmd(conn: Connection)
      returns (itselfFailed: bool, bookkeepingFailed: bool, ghost sent: seq<Exchange>)
      requires fatalError.None?
      modifies this, conn
      ensures conn.tx.None? ==> bookkeepingFailed
      ensures conn.tx.Some? ==>
                old(conn.tx).Some?
                && Ending(conn.tx.value, if resultStatus.Some? then resultStatus.value else FatalError,
                          fatalError.Some?,
                          itselfFailed, bookkeepingFailed) == Conversation(sql, old(conn.tx).value)
      ensures resultStatus.Some? && conn.sent == old(conn.sent) + sent
      ensures Dialogue(sent, sql, resultStatus.value, fatalError.Some?, itselfFailed, bookkeepingFailed)
      ensures !bookkeepingFailed ==> (fatalError.Some? <==> itselfFailed)
      ensures conn.tx.Some? && !old(conn.tx).value.failed && KeepsToItself(sql, old(conn.tx).value) ==>
                TakesEffectOrNot(
                  sql, old(conn.tx).value,
                  Ending(conn.tx.value, resultStatus.value, fatalError.Some?, itselfFailed, bookkeepingFailed))
    {
      hide Do, Run, Reported, TakesEffectOrNot, KeepsToItself;
      ghost var before := conn.tx;
      itselfFailed, bookkeepingFailed := false, false;
      var status, error := conn.Command(SetSavepoint(PRE_RUN_CMD));
      sent := [Exchange([SetSavepoint(PRE_RUN_CMD)], status)];
      if status != CommandOk {
        bookkeepingFailed := true;
        resultStatus := Some(status);
        fatalError := Some(error);
      }
      if !bookkeepingFailed {
        status, error := conn.Exec(sql);
        sent := sent + [Exchange(sql, status)];
        resultStatus := Some(status);
        if status.TuplesOk? {
        } else if status.CommandOk? {
        } else {
          itselfFailed := true;
          fatalError := Some(error);
        }
      }
      if fatalError.None? {
        status, error := conn.Command(SetConstraints(AllImmediate));
        sent := sent + [Exchange([SetConstraints(AllImmediate)], status)];
        if status != CommandOk {
          itselfFailed := true;
          resultStatus := Some(status);
          fatalError := Some(error);
        }
      }
      if !bookkeepingFailed {
        ghost var last;
        bookkeepingFailed, last := Conclude(conn, itselfFailed);
        sent := sent + [last];
      }
      if conn.tx.Some? && !before.value.failed && KeepsToItself(sql, before.value) {
        EffectIff(sql, before.value);
      }
    }

    /** Back to the savepoint, or on without it. */
    method Conclude(conn: Connection, itselfFailed: bool) returns (bookkeepingFailed: bool, ghost last: Exchange)
      modifies conn
      ensures last.script == [Closing(itselfFailed)] && bookkeepingFailed == (last.status != CommandOk)
      ensures conn.sent == old(conn.sent) + [last]
      ensures conn.tx.Some? ==>
                old(conn.tx).Some? && conn.tx.value == Do(Closing(itselfFailed), old(conn.tx).value)
                && bookkeepingFailed == conn.tx.value.failed
      ensures conn.tx.None? ==> bookkeepingFailed
    {
      hide Do;
      bookkeepingFailed := false;
      var status, error;
      if itselfFailed {
        status, error := conn.Command(RollbackTo(PRE_RUN_CMD));
        if status != CommandOk {
          bookkeepingFailed := true;
        }
      } else {
        status, error := conn.Command(Release(PRE_RUN_CMD));
        if status != CommandOk {
          bookkeepingFailed := true;
        }
      }
      last := Exchange([Closing(itselfFailed)], status);
    }
  }

  function Closing(itselfFailed: bool): Statement {
    if itselfFailed then RollbackTo(PRE_RUN_CMD) else Release(PRE_RUN_CMD)
  }

  lemma Single(s: Statement)
    requires !s.Perform?
    ensures forall t :: Run([s], t) == Do(s, t)
    ensures forall t :: Reported([s], t) == if Do(s, t).failed then FatalError else CommandOk
  {
    forall t ensures Run([s], t) == Do(s, t) {
      var next := Do(s, t);
      if !next.failed { assert [s][1..] == []; assert Run([s][1..], next) == next; }
    }
  }

  // ----- The command's own savepoints stay inside -----

  function NamesOf(stack: seq<Savepoint>): set<string> {
    set k | 0 <= k < |stack| :: stack[k].name
  }

  predicate Silent(s: Statement, names: set<string>) {
    s.SetSavepoint? || s.Release? || s.RollbackTo? ==> s.name !in names
  }

  /** SQL that speaks of none of these savepoints. */
  predicate Discreet(script: seq<Statement>, names: set<string>) {
    forall i | 0 <= i < |script| :: Silent(script[i], names)
  }

  /** The same transaction, inside a stack of outer savepoints. */
  function Under(base: seq<Savepoint>, t: Transaction): Transaction {
    t.(savepoints := base + t.savepoints)
  }

  lemma InnermostUnder(base: seq<Savepoint>, inner: seq<Savepoint>, name: string)
    requires name !in NamesOf(base)
    ensures Innermost(base + inner, name) == if Innermost(inner, name) < 0 then -1 else |base| + Innermost(inner, name)
  {
    InnermostFound(base + inner, name);
    InnermostFound(inner, name);
    var i, j := Innermost(base + inner, name), Innermost(inner, name);
    assert forall k | 0 <= k < |base| :: (base + inner)[k].name in NamesOf(base);
    if i >= 0 { assert inner[i - |base|].name == name; }
    if j >= 0 { assert (base + inner)[|base| + j].name == name; }
  }

  lemma DoUnder(s: Statement, base: seq<Savepoint>, t: Transaction)
    requires Silent(s, NamesOf(base))
    ensures Do(s, Under(base, t)) == Under(base, Do(s, t))
  {
    hide NamesOf, Innermost, Fire, Waiting;
    var u := Under(base, t);
    if s.RollbackTo? || s.Release? {
      InnermostUnder(base, t.savepoints, s.name);
      InnermostFound(t.savepoints, s.name);
      var i := Innermost(t.savepoints, s.name);
      if i >= 0 {
        assert u.savepoints[..|base| + i + 1] == base + t.savepoints[..i + 1];
        assert u.savepoints[..|base| + i] == base + t.savepoints[..i];
      }
    } else if s.SetSavepoint? {
      assert base + (t.savepoints + [Snapshot(s.name, t)]) == u.savepoints + [Snapshot(s.name, u)];
    }
  }

  /** SQL that is silent about the outer savepoints runs the same with them and without. */
  lemma {:induction false} RunUnder(script: seq<Statement>, base: seq<Savepoint>, t: Transaction)
    requires Discreet(script, NamesOf(base))
    ensures Run(script, Under(base, t)) == Under(base, Run(script, t))
  {
    if script != [] {
      hide Do, NamesOf, Silent;
      assert Silent(script[0], NamesOf(base));
      DoUnder(script[0], base, t);
      RunUnder(script[1..], base, Do(script[0], t));
    }
  }

  /** No savepoint gets a name that no statement speaks of, and nothing held at the start is let go. */
  predicate Keeps(t: Transaction, name: string, locks: set<string>) {
    name !in NamesOf(t.savepoints) && locks <= t.locks
    && forall k | 0 <= k < |t.savepoints| :: locks <= t.savepoints[k].locks
  }

  lemma DoKeeps(s: Statement, t: Transaction, name: string, locks: set<string>)
    requires Keeps(t, name, locks) && Silent(s, {name})
    ensures Keeps(Do(s, t), name, locks)
  {
    hide Innermost, Fire, Waiting;
    if s.RollbackTo? || s.Release? { InnermostFound(t.savepoints, s.name); }
  }

  lemma {:induction false} RunKeeps(script: seq<Statement>, t: Transaction, name: string, locks: set<string>)
    requires Keeps(t, name, locks)
    requires Discreet(script, {name})
    ensures Keeps(Run(script, t), name, locks)
  {
    if script != [] {
      hide Do, Keeps, Silent;
      assert Silent(script[0], {name});
      DoKeeps(script[0], t, name, locks);
      RunKeeps(script[1..], Do(script[0], t), name, locks);
    }
  }

  // ----- Atomicity -----

  /** The command by itself: no savepoint around it, its deferred constraints fired at its end. */
  function Alone(script: seq<Statement>, t: Transaction): Transaction {
    var ran := Run(script, t.(savepoints := []));
    if !ran.failed && Fine(Reported(script, t.(savepoints := []))) then FirePending(ran) else Error(ran)
  }

  /** What a caller can check of the SQL beforehand: it speaks of no savepoint already there, nor of the
      wrapper's own. */
  predicate KeepsToItself(script: seq<Statement>, t: Transaction) {
    Discreet(script, NamesOf(t.savepoints) + {PRE_RUN_CMD})
  }

  lemma Narrowed(script: seq<Statement>, names: set<string>, fewer: set<string>)
    requires Discreet(script, names) && fewer <= names
    ensures Discreet(script, fewer)
  {
    forall i | 0 <= i < |script| ensures Silent(script[i], fewer) { assert Silent(script[i], names); }
  }

  lemma NamesOfMore(stack: seq<Savepoint>, s: Savepoint)
    ensures NamesOf(stack + [s]) == NamesOf(stack) + {s.name}
  {
    var more := stack + [s];
    forall k | 0 <= k < |stack| ensures stack[k].name in NamesOf(more) { assert more[k] == stack[k]; }
    assert more[|stack|] == s;
  }

  /** The wrapper's savepoint is the one it finds again, whatever savepoints lie above it. */
  lemma OwnSavepointFound(base: seq<Savepoint>, t: Transaction, inner: seq<Savepoint>)
    requires PRE_RUN_CMD !in NamesOf(inner)
    ensures Innermost(base + [Snapshot(PRE_RUN_CMD, t)] + inner, PRE_RUN_CMD) == |base|
  {
    var stack := base + [Snapshot(PRE_RUN_CMD, t)] + inner;
    var i := Innermost(stack, PRE_RUN_CMD);
    InnermostFound(stack, PRE_RUN_CMD);
    assert stack[|base|].name == PRE_RUN_CMD;
    forall k | |base| < k < |stack| ensures stack[k].name != PRE_RUN_CMD {
      assert inner[k - |base| - 1] == stack[k];
    }
  }

  /** What the user's SQL amounts to inside the savepoint. */
  lemma Inside(script: seq<Statement>, t: Transaction)
    requires !t.failed && KeepsToItself(script, t)
    ensures var saved := Do(SetSavepoint(PRE_RUN_CMD), t);
            var ran := Run(script, t.(savepoints := []));
            !saved.failed && saved.savepoints == t.savepoints + [Snapshot(PRE_RUN_CMD, t)]
            && Run(script, saved) == Under(saved.savepoints, ran)
            && Reported(script, saved) == Reported(script, t.(savepoints := []))
            && PRE_RUN_CMD !in NamesOf(ran.savepoints) && t.locks <= ran.locks
  {
    var saved := Do(SetSavepoint(PRE_RUN_CMD), t);
    var alone := t.(savepoints := []);
    assert saved == Under(saved.savepoints, alone);
    NamesOfMore(t.savepoints, Snapshot(PRE_RUN_CMD, t));
    RunUnder(script, saved.savepoints, alone);
    Narrowed(script, NamesOf(t.savepoints) + {PRE_RUN_CMD}, {PRE_RUN_CMD});
    RunKeeps(script, alone, PRE_RUN_CMD, t.locks);
  }

  lemma Fired(base: seq<Savepoint>, t: Transaction)
    requires !t.failed
    ensures Do(SetConstraints(AllImmediate), Under(base, t)) == Under(base, FirePending(t))
    ensures FirePending(t).savepoints == t.savepoints && FirePending(t).locks == t.locks
    ensures !FirePending(t).failed ==> FirePending(t).pending == []
  {
  }

  lemma RolledBack(base: seq<Savepoint>, before: Transaction, t: Transaction)
    requires !before.failed && PRE_RUN_CMD !in NamesOf(t.savepoints)
    ensures var own := [Snapshot(PRE_RUN_CMD, before)];
            Do(RollbackTo(PRE_RUN_CMD), Under(base + own, t)) == before.(savepoints := base + own)
  {
    var stack := Under(base + [Snapshot(PRE_RUN_CMD, before)], t).savepoints;
    OwnSavepointFound(base, before, t.savepoints);
    assert stack[..|base| + 1] == base + [Snapshot(PRE_RUN_CMD, before)];
  }

  lemma Released(base: seq<Savepoint>, before: Transaction, t: Transaction)
    requires !t.failed && PRE_RUN_CMD !in NamesOf(t.savepoints)
    ensures Do(Release(PRE_RUN_CMD), Under(base + [Snapshot(PRE_RUN_CMD, before)], t)) == t.(savepoints := base)
  {
    var stack := Under(base + [Snapshot(PRE_RUN_CMD, before)], t).savepoints;
    OwnSavepointFound(base, before, t.savepoints);
    assert stack[..|base|] == base;
  }

  /** All or nothing, by reference to the command run by itself. When that fails, or leaves a
      constraint broken, everything is as before but for the savepoint, which a rollback to it does not
      remove; when it does not, its effect stands, no check is left pending, and the savepoints are as
      before. The transaction is never left failed, a fatal error is recorded exactly in the first
      case, and locks held before are held after. */
  ghost predicate Atomic(script: seq<Statement>, t: Transaction) {
    var end := Conversation(script, t);
    var alone := Alone(script, t);
    && !end.bookkeepingFailed && !end.t.failed
    && (end.fatal <==> alone.failed) && (end.itselfFailed <==> alone.failed)
    && (alone.failed ==> end.t == t.(savepoints := t.savepoints + [Snapshot(PRE_RUN_CMD, t)]))
    && (!alone.failed ==> end.t == alone.(savepoints := t.savepoints) && end.t.pending == [])
    && t.locks <= end.t.locks
  }

  /** The status of SQL that runs through: of its last statement, or that there was none. */
  function LastStatus(script: seq<Statement>): ExecStatus {
    if script == [] then EmptyQuery
    else if script[|script| - 1].Perform? then script[|script| - 1].reports
    else CommandOk
  }

  /** A command takes effect, with no fatal error, if and only if its statements run through, the last
      one returns rows or completes without any, and the checks then pending pass.  The status recorded
      is that of the SQL, but for the server's error where a statement or a check raises. */
  ghost predicate TakesEffectOrNot(script: seq<Statement>, t: Transaction, end: Ending) {
    var ran := Run(script, t.(savepoints := []));
    var status := LastStatus(script);
    if !ran.failed && (status == TuplesOk || status == CommandOk) && Fire(ran.pending, ran.db).Some? then
      end == Ending(
        ran.(db := Fire(ran.pending, ran.db).value, pending := [], mode := AllImmediate, savepoints := t.savepoints),
        status, false, false, false)
    else
      end == Ending(
        t.(savepoints := t.savepoints + [Savepoint("pre_run_cmd", t.db, t.pending, t.mode, t.locks)]),
        if ran.failed || status == TuplesOk || status == CommandOk then FatalError else status, true, true, false)
  }

  lemma EffectIff(script: seq<Statement>, t: Transaction)
    requires !t.failed && KeepsToItself(script, t)
    ensures TakesEffectOrNot(script, t, Conversation(script, t))
  {
    hide Run, Do, Fire;
    AllOrNothing(script, t);
    ReportedIs(script, t.(savepoints := []));
    StatusIs(script, t);
  }

  lemma ReportedIs(script: seq<Statement>, t: Transaction)
    requires !t.failed
    ensures Reported(script, t) == if Run(script, t).failed then FatalError else LastStatus(script)
    ensures script == [] ==> !Run(script, t).failed
  {
  }

  lemma StatusIs(script: seq<Statement>, t: Transaction)
    requires !t.failed && KeepsToItself(script, t)
    ensures Conversation(script, t).status
         == if Fine(Reported(script, t.(savepoints := []))) && Alone(script, t).failed then FatalError
            else Reported(script, t.(savepoints := []))
  {
    hide Run, Reported, FirePending, Do;
    Inside(script, t);
    var base := t.savepoints + [Snapshot(PRE_RUN_CMD, t)];
    var ran := Run(script, t.(savepoints := []));
    var saved := Do(SetSavepoint(PRE_RUN_CMD), t);
    FailedReports(script, saved);
    if Fine(Reported(script, saved)) { Fired(base, ran); }
  }

  /** SQL that keeps to itself is run all or nothing, whatever it does and wherever it fails. */
  lemma AllOrNothing(script: seq<Statement>, t: Transaction)
    requires !t.failed && KeepsToItself(script, t)
    ensures Atomic(script, t)
  {
    hide Run, Reported, FirePending, Do;
    Inside(script, t);
    var base := t.savepoints + [Snapshot(PRE_RUN_CMD, t)];
    var ran := Run(script, t.(savepoints := []));
    var saved := Do(SetSavepoint(PRE_RUN_CMD), t);
    FailedReports(script, saved);
    RolledBack(t.savepoints, t, ran);
    if Fine(Reported(script, saved)) {
      Fired(base, ran);
      RolledBack(t.savepoints, t, FirePending(ran));
      if !FirePending(ran).failed { Released(t.savepoints, t, FirePending(ran)); }
    }
  }

  lemma FailedReports(script: seq<Statement>, t: Transaction)
    requires !t.failed
    ensures Fine(Reported(script, t)) ==> !Run(script, t).failed
  {
  }

  /** Over a connection that holds, the bookkeeping fails exactly when the transaction had already
      failed before. */
  lemma BookkeepingFailsIff(script: seq<Statement>, t: Transaction)
    requires KeepsToItself(script, t)
    ensures Conversation(script, t).bookkeepingFailed <==> t.failed
  {
    if !t.failed { AllOrNothing(script, t); }
  }

  // ----- SQL that does not keep to itself -----

  function Insert(key: string): Statement {
    Perform((db: Db) => Some(db[key := ""]), [], {}, CommandOk)
  }

  const RAISE := Perform((db: Db) => None, [], {}, CommandOk)

  /** A command with a savepoint of the wrapper's name: it fails with a fatal error recorded and the
      bookkeeping in order, and what it wrote before its savepoint stays. */
  lemma OwnNameDefeatsRollback()
    ensures var t := Transaction(false, map[], [], AsDeclared, {}, []);
            var end := Conversation([Insert("a"), SetSavepoint(PRE_RUN_CMD), RAISE], t);
            end.fatal && !end.bookkeepingFailed && "a" in end.t.db && "a" !in t.db
  {
    var t := Transaction(false, map[], [], AsDeclared, {}, []);
    var saved := Do(SetSavepoint(PRE_RUN_CMD), t);
    var wrote := Do(Insert("a"), saved);
    var again := Do(SetSavepoint(PRE_RUN_CMD), wrote);
    var script := [Insert("a"), SetSavepoint(PRE_RUN_CMD), RAISE];
    assert script[1..] == [SetSavepoint(PRE_RUN_CMD), RAISE] && script[1..][1..] == [RAISE];
    assert Run([RAISE], again) == Error(again);
    assert Run(script[1..], wrote) == Error(again);
    assert again.savepoints[|again.savepoints| - 1] == Snapshot(PRE_RUN_CMD, wrote);
  }

  /** SQL that speaks of these savepoints only. */
  predicate SpeaksOf(script: seq<Statement>, names: set<string>) {
    forall i | 0 <= i < |script| && (script[i].SetSavepoint? || script[i].Release? || script[i].RollbackTo?) ::
      script[i].name in names
  }

  /** A savepoint of the wrapper's name is the one that the rollback goes back to. */
  lemma InnerOneWins(t: Transaction)
    requires !t.failed
    ensures !Atomic([SetSavepoint(PRE_RUN_CMD), RAISE], t)
  {
    var script := [SetSavepoint(PRE_RUN_CMD), RAISE];
    var saved := Do(SetSavepoint(PRE_RUN_CMD), t);
    var again := Do(SetSavepoint(PRE_RUN_CMD), saved);
    assert script[1..] == [RAISE];
    assert Run([RAISE], again) == Error(again);
    assert Run(script, saved) == Error(again);
    assert again.savepoints[|again.savepoints| - 1] == Snapshot(PRE_RUN_CMD, saved);
    assert |Restore(Error(again), |again.savepoints| - 1).savepoints| == |t.savepoints| + 2;
    var within := t.(savepoints := []);
    assert Run([RAISE], Do(SetSavepoint(PRE_RUN_CMD), within)).failed;
    assert Alone(script, t).failed;
  }

  /** A rollback to a savepoint that was there before takes the wrapper's with it. */
  lemma OuterOneTakesOurs(t: Transaction, name: string)
    requires !t.failed && name in NamesOf(t.savepoints) && name != PRE_RUN_CMD
    ensures !Atomic([RollbackTo(name)], t)
  {
    var script := [RollbackTo(name)];
    var saved := Do(SetSavepoint(PRE_RUN_CMD), t);
    InnermostFound(saved.savepoints, name);
    InnermostFound(t.savepoints, name);
    assert saved.savepoints[..|t.savepoints|] == t.savepoints;
    assert Innermost(saved.savepoints, name) == Innermost(t.savepoints, name);
    Single(RollbackTo(name));
    assert Alone(script, t).failed;
    var back := Do(RollbackTo(name), saved);
    assert |back.savepoints| <= |t.savepoints|;
    NeverMoreSavepoints(back, AllImmediate);
  }

  lemma NeverMoreSavepoints(t: Transaction, mode: Mode)
    ensures |Do(SetConstraints(mode), t).savepoints| == |t.savepoints|
    ensures |Do(RollbackTo(PRE_RUN_CMD), t).savepoints| <= |t.savepoints|
  {
    InnermostFound(t.savepoints, PRE_RUN_CMD);
  }

  /** Exactly which names are safe for SQL to use, if all SQL that uses only them is to run all or
      nothing: those of no savepoint already there, and not the wrapper's own. */
  lemma SafeNamesIff(names: set<string>, t: Transaction)
    requires !t.failed
    ensures (forall script | SpeaksOf(script, names) :: Atomic(script, t))
            <==> names !! NamesOf(t.savepoints) + {PRE_RUN_CMD}
  {
    hide Atomic;
    var taken := NamesOf(t.savepoints) + {PRE_RUN_CMD};
    if names !! taken {
      forall script | SpeaksOf(script, names) ensures Atomic(script, t) {
        forall i | 0 <= i < |script| ensures Silent(script[i], taken) {}
        AllOrNothing(script, t);
      }
    } else {
      var name :| name in names && name in taken;
      if name == PRE_RUN_CMD {
        InnerOneWins(t);
        assert SpeaksOf([SetSavepoint(PRE_RUN_CMD), RAISE], names);
      } else {
        OuterOneTakesOurs(t, name);
        assert SpeaksOf([RollbackTo(name)], names);
      }
    }
  }
}
