/**
 The queue-runner protocol: one queue relation in PostgreSQL, its row locks, and any number of
 runner sessions that select, run, update and commit, interleaved one SQL statement at a time.

 A `Step` names one atomic event, with every choice of the environment in its arguments; `Enabled`
 says when it may happen and `Apply` what it does.  Row locks follow section 13.3.2 of the
 PostgreSQL documentation: `FOR UPDATE ... SKIP LOCKED` takes the lock of the row it returns, skips
 rows locked by others, and the lock lives until the transaction ends.
 */
module QueueProtocol {
  import opened Prelude
  import opened ReselectRound
  import opened CompositeText

  /** `IS NOT DISTINCT FROM` on (cmd_id, cmd_subid): two NULL subids are equal. */
  datatype Key = Key(id: string, subid: Option<string>)

  datatype Owner = ByRunner(r: nat) | ByOutsider

  /** Which triggers hang on the queue table, and the columns of `cmd_queue` the runner reads. */
  datatype Config = Config(
    identity: string, insertsElsewhere: bool, deletesAfterUpdate: bool, intervalMsec: int, everyNth: Option<pos>)

  /** What lives in the server session: temporary table `updated_cmd` and the round setting. */
  datatype Session = Session(updated: set<Key>, setting: nat)

  /** Why a runner's thread returns. */
  datatype Cause = NoSession | NoRound | PollBroken | Told

  datatype Phase =
    | Offline               // in the (re)connect loop
    | AtSelect              // top of the (re)select loop
    | InTransaction         // BEGIN done, the select is next
    | Executing(key: Key)   // run_cmd is at work
    | Executed(key: Key)    // run_cmd returned, the UPDATE is next
    | Updated(key: Key)     // the UPDATE succeeded, the COMMIT is next
    | UpdateFailed(key: Key)  // the UPDATE failed and with it the transaction, the ROLLBACK is next
    | RolledBack(key: Key)  // rolled back, remembering the failure is next
    | RoundOver             // a regular select came back empty
    | Settled               // nothing left to do in this transaction but COMMIT
    | Aborted               // the select itself failed, ROLLBACK is next
    | Closed                // no transaction is open any more
    | Polling               // top of the NOTIFY/poll loop
    | Notice(payload: string)  // libpq handed out a notification
    | Waiting(until: int)   // inside poll()
    | Woken(input: bool, kill: bool)  // poll() reported input on the connection or on the kill pipe
    | Leaving(cause: Cause)  // on its way out of its loops
    | Stopped               // the thread has returned

  /** `session` is what the open transaction sees, `atBegin` what a rollback returns to.
      Clocks count nanoseconds of the runner's steady clock. */
  datatype Runner = Runner(
    phase: Phase, connected: bool, session: Session, atBegin: Session,
    notify: Option<Key>, round: nat, deadline: int, clock: int)
  {
    /** The command whose row this runner's transaction has locked. */
    function Holding(): Option<Key> {
      match phase
      case Executing(k) => Some(k)
      case Executed(k) => Some(k)
      case Updated(k) => Some(k)
      case _ => None
    }

    /** The command selected but neither committed nor remembered yet. */
    function InFlight(): Option<Key> {
      if phase.UpdateFailed? || phase.RolledBack? then Some(phase.key) else Holding()
    }
  }

  /** Committed contents of the queue (key to cmd_queued_since), which has a unique constraint on the
      key, and of the table that `queue_cmd__insert_elsewhere` fills, which need not have one. */
  datatype State = State(
    queue: map<Key, int>, log: multiset<Key>, locks: map<Key, Owner>, runners: map<nat, Runner>)

  datatype SelectKind = Notified | Random | Oldest

  /** What a runner, or the environment at that runner's end, does next.  `Finish(ok)` says whether
      the transaction could be ended as the runner wanted, or, when the connection is lost, whether
      the runner has not noticed yet. */
  datatype Action =
    | ConnectionLost
    | Tick(now: int)
    | Connect
    | SessionStartFails
    | Begin
    | Select(found: Option<Key>)
    | SelectFails
    | EnterRound
    | EnterRoundFails
    | RunEnds
    | UpdateSucceeds
    | UpdateFails
    | Rollback
    | Remember
    | Finish(ok: bool)
    | NotifyArrives(payload: string)
    | TakeNotify(key: Key)
    | IgnoreNotify
    | StartPoll
    | PollTimesOut
    | PollInterrupted
    | PollFails
    | PollReports(input: bool, kill: bool)
    | ConsumeInput
    | InputLost
    | HeedStop
    | Resume
    | Stop

  datatype Step =
    | Insert(key: Key, since: int)
    | OutsiderLocks(key: Key)
    | OutsiderUnlocks(key: Key)
    | Of(r: nat, act: Action)

  const NANOS_PER_MSEC := 1_000_000
  const INT_MAX := 0x7fff_ffff

  /** The prepared statement that the top of the select loop picks. */
  function KindOf(cfg: Config, run: Runner): SelectKind {
    if run.notify.Some? then Notified
    else if cfg.everyNth.Some? && run.round % cfg.everyNth.value == 0 then Random
    else Oldest
  }

  /** The WHERE clause of the statement together with SKIP LOCKED. */
  predicate Selectable(s: State, run: Runner, k: Key) {
    && k in s.queue
    && k !in s.locks
    && (if run.notify.Some? then k == run.notify.value else k !in run.session.updated)
  }

  /** What a select may return: nothing only if nothing qualifies, and the oldest row if it
      orders by cmd_queued_since. */
  predicate MayReturn(cfg: Config, s: State, run: Runner, found: Option<Key>) {
    match found
    case None => forall k | k in s.queue :: !Selectable(s, run, k)
    case Some(k) =>
      && Selectable(s, run, k)
      && (KindOf(cfg, run).Oldest? ==>
            forall other | other in s.queue && Selectable(s, run, other) :: s.queue[k] <= s.queue[other])
  }

  /** Milliseconds handed to poll(): the time left, truncated, and never negative. */
  function WaitMsec(deadline: int, now: int): (msec: nat)
    ensures if deadline <= now then msec == 0 else msec * 1_000_000 <= deadline - now < (msec + 1) * 1_000_000
  {
    if deadline <= now then 0 else (deadline - now) / NANOS_PER_MSEC
  }

  /** Identity of the queue's relation, cmd_id and cmd_subid. */
  datatype NotifyCmd = NotifyCmd(class_: string, id: string, subid: Option<string>)

  function KeyOf(n: Option<NotifyCmd>): Option<Key> {
    if n.Some? then Some(Key(n.value.id, n.value.subid)) else None
  }

  /** A payload of three fields, the first two not NULL, that names this queue. */
  function Addressed(identity: string, fields: seq<Field>): Option<NotifyCmd> {
    if |fields| == 3 && fields[0] == Some(identity) && fields[1].Some? then
      Some(NotifyCmd(identity, fields[1].value, fields[2]))
    else None
  }

  /** The command that a payload asks for; what is made of one that is not in parentheses is open. */
  predicate MayHear(cfg: Config, payload: string, key: Option<Key>) {
    Shaped(payload) ==> key == KeyOf(Addressed(cfg.identity, Parsed(payload)))
  }

  predicate MayAct(cfg: Config, s: State, run: Runner, act: Action) {
    match act
    case ConnectionLost => run.connected
    case Tick(now) => run.clock <= now
    case Connect => run.phase.Offline?
    case SessionStartFails => run.phase.Offline?
    case Begin => run.phase.AtSelect?
    case Select(found) => run.phase.InTransaction? && run.connected && MayReturn(cfg, s, run, found)
    case SelectFails => run.phase.InTransaction?
    case EnterRound => run.phase.RoundOver? && run.connected && Entered(run.session.setting) <= INT_MAX
    case EnterRoundFails => run.phase.RoundOver?
    case RunEnds => run.phase.Executing?
    case UpdateSucceeds => run.phase.Executed? && run.connected
    case UpdateFails => run.phase.Executed?
    case Rollback => run.phase.UpdateFailed?
    case Remember => run.phase.RolledBack?
    case Finish(_) => run.phase.Updated? || run.phase.Settled? || run.phase.Aborted? || run.phase.Closed?
    case NotifyArrives(_) => run.phase.Polling?
    case TakeNotify(k) => run.phase.Notice? && MayHear(cfg, run.phase.payload, Some(k))
    case IgnoreNotify => run.phase.Notice? && MayHear(cfg, run.phase.payload, None)
    case StartPoll => run.phase.Polling?
    case PollTimesOut => run.phase.Waiting? && run.phase.until <= run.clock
    case PollInterrupted => run.phase.Waiting?
    case PollFails => run.phase.Waiting?
    case PollReports(input, kill) => run.phase.Waiting? && (input || kill)
    case ConsumeInput => run.phase.Woken? && run.phase.input
    case InputLost => run.phase.Woken? && run.phase.input
    case HeedStop => run.phase == Woken(false, true)
    case Resume => run.phase == Woken(false, false)
    case Stop => run.phase.Leaving?
  }

  /** The runner's own state after its action.  A transaction that does not commit gives back the
      session it began with; a lost connection leaves nothing of it. */
  function RunnerAfter(cfg: Config, s: State, run: Runner, act: Action): Runner
    requires MayAct(cfg, s, run, act)
  {
    match act
    case ConnectionLost => run.(connected := false)
    case Tick(now) => run.(clock := now)
    case Connect => Runner(AtSelect, true, Session({}, 0), Session({}, 0), None, 0, run.clock, run.clock)
    case SessionStartFails => run.(phase := Leaving(NoSession))
    case Begin => run.(phase := InTransaction, atBegin := run.session)
    case Select(Some(k)) => run.(phase := Executing(k))
    case Select(None) =>
      if run.notify.Some? then run.(phase := Settled)
      else run.(phase := RoundOver, deadline := run.clock + cfg.intervalMsec * NANOS_PER_MSEC)
    case SelectFails => run.(phase := Aborted)
    case EnterRound =>
      run.(phase := Settled, round := Entered(run.session.setting),
      session := Session({}, NextSetting(run.session.setting)))
    case EnterRoundFails => run.(phase := Leaving(NoRound))
    case RunEnds => run.(phase := Executed(run.phase.key))
    case UpdateSucceeds =>
      run.(phase := Updated(run.phase.key),
      session := run.session.(updated := run.session.updated + {run.phase.key}))
    case UpdateFails => run.(phase := UpdateFailed(run.phase.key))
    case Rollback => run.(phase := RolledBack(run.phase.key), session := run.atBegin)
    case Remember =>
      run.(phase := Closed,
      session := if run.connected
      then run.session.(updated := run.session.updated + {run.phase.key})
      else run.session)
    case Finish(ok) =>
      if !run.connected then run.(phase := if ok then Polling else Offline)
      else if run.phase.Closed? || (ok && !run.phase.Aborted?) then run.(phase := Polling)
      else run.(phase := Polling, session := run.atBegin)
    case NotifyArrives(payload) => run.(phase := Notice(payload))
    case TakeNotify(k) => run.(phase := AtSelect, notify := Some(k))
    case IgnoreNotify => run.(phase := Polling)
    case StartPoll =>
      run.(phase := Waiting(run.clock + WaitMsec(run.deadline, run.clock) * NANOS_PER_MSEC), notify := None)
    case PollTimesOut => run.(phase := AtSelect)
    case PollInterrupted => run.(phase := Polling)
    case PollFails => run.(phase := Leaving(PollBroken))
    case PollReports(input, kill) => run.(phase := Woken(input, kill))
    case ConsumeInput => run.(phase := Woken(false, run.phase.kill))
    case InputLost => run.(phase := Offline, connected := false)
    case HeedStop => run.(phase := Leaving(Told))
    case Resume => run.(phase := Polling)
    case Stop => run.(phase := Stopped, connected := false)
  }

  /** The command whose update this action makes permanent. */
  function Commits(run: Runner, act: Action): Option<Key> {
    if act == Finish(true) && run.connected && run.phase.Updated? then Some(run.phase.key) else None
  }

  /** An UPDATE that fails aborts the transaction there and then; the ROLLBACK that follows only leaves
      the aborted block. */
  predicate EndsTransaction(act: Action) {
    act.ConnectionLost? || act.UpdateFails? || act.Finish? || act.InputLost? || act.Stop?
  }

  function LocksAfter(locks: map<Key, Owner>, r: nat, act: Action): map<Key, Owner> {
    if act.Select? && act.found.Some? then locks[act.found.value := ByRunner(r)]
    else if EndsTransaction(act) then map k | k in locks && locks[k] != ByRunner(r) :: locks[k]
    else locks
  }

  predicate Enabled(cfg: Config, s: State, step: Step) {
    match step
    case Insert(k, _) => k !in s.queue
    case OutsiderLocks(k) => k in s.queue && k !in s.locks
    case OutsiderUnlocks(k) => k in s.locks && s.locks[k].ByOutsider?
    case Of(r, act) => r in s.runners && MayAct(cfg, s, s.runners[r], act)
  }

  function Apply(cfg: Config, s: State, step: Step): State
    requires Enabled(cfg, s, step)
  {
    match step
    case Insert(k, since) => s.(queue := s.queue[k := since])
    case OutsiderLocks(k) => s.(locks := s.locks[k := ByOutsider])
    case OutsiderUnlocks(k) => s.(locks := s.locks - {k})
    case Of(r, act) =>
      var run := s.runners[r];
      var done := Commits(run, act);
      State(
        if done.Some? && cfg.deletesAfterUpdate then s.queue - {done.value} else s.queue,
        if done.Some? && cfg.insertsElsewhere then s.log + multiset{done.value} else s.log,
        LocksAfter(s.locks, r, act),
        s.runners[r := RunnerAfter(cfg, s, run, act)])
  }

  /** Before any runner has connected: arbitrary tables, locks only by outsiders. */
  predicate Initial(s: State) {
    && (forall k | k in s.locks :: k in s.queue && s.locks[k].ByOutsider?)
    && (forall r | r in s.runners :: s.runners[r].phase.Offline? && !s.runners[r].connected)
  }

  /** Step i is enabled in state i and leads to state i + 1. */
  ghost predicate Happens(cfg: Config, states: seq<State>, steps: seq<Step>, i: nat) {
    && i + 1 < |states| && i < |steps|
    && Enabled(cfg, states[i], steps[i]) && states[i + 1] == Apply(cfg, states[i], steps[i])
  }

  /** A run: every state follows from the one before by an enabled step. */
  ghost predicate IsRun(cfg: Config, states: seq<State>, steps: seq<Step>) {
    && |states| == |steps| + 1
    && Initial(states[0])
    && forall i: nat | i < |steps| :: Happens(cfg, states, steps, i)
  }

  /** A run grows by one enabled step at its end. */
  lemma Extend(cfg: Config, states: seq<State>, steps: seq<Step>, step: Step)
    requires IsRun(cfg, states, steps) && Enabled(cfg, states[|steps|], step)
    ensures IsRun(cfg, states + [Apply(cfg, states[|steps|], step)], steps + [step])
  {
    hide Enabled, Apply, Initial;
    var states', steps' := states + [Apply(cfg, states[|steps|], step)], steps + [step];
    forall i: nat | i < |steps'| ensures Happens(cfg, states', steps', i) {
      if i < |steps| { assert Happens(cfg, states, steps, i); }
    }
  }
}
