/**
 Safety of every run of the queue-runner protocol: one invariant, and from it mutual exclusion and
 the transaction discipline.
 */
module QueueSafety {
  import opened Prelude
  import opened QueueProtocol

  /** The row that the server holds locked for this runner. */
  function Locked(run: Runner): Option<Key> {
    if run.connected then run.Holding() else None
  }

  /** Row locks and the runners' phases say the same thing. */
  ghost predicate LocksAgree(s: State) {
    && (forall k | k in s.locks :: k in s.queue)
    && (forall k | k in s.locks :: s.locks[k].ByRunner? ==>
          s.locks[k].r in s.runners && Locked(s.runners[s.locks[k].r]) == Some(k))
    && (forall r | r in s.runners :: Locked(s.runners[r]).Some? ==>
          var k := Locked(s.runners[r]).value;
          k in s.locks && s.locks[k] == ByRunner(r))
  }

  /** The open transaction has so far changed the session by at most the key it updated. */
  ghost predicate SessionAgrees(run: Runner) {
    match run.phase
    case Offline => !run.connected
    case Stopped => !run.connected
    case Updated(k) => run.session == run.atBegin.(updated := run.atBegin.updated + {k})
    case InTransaction => run.session == run.atBegin
    case Executing(_) => run.session == run.atBegin
    case Executed(_) => run.session == run.atBegin
    case UpdateFailed(_) => run.session == run.atBegin
    case Aborted => run.session == run.atBegin
    case RoundOver => run.session == run.atBegin && run.notify.None?
    case Settled => run.session == run.atBegin || run.session.updated == {}
    case _ => true
  }

  /** A runner gets to a regular select only with less than a millisecond to its deadline. */
  ghost predicate Paced(run: Runner) {
    match run.phase
    case AtSelect => run.notify.None? ==> run.deadline < run.clock + NANOS_PER_MSEC
    case InTransaction => run.notify.None? ==> run.deadline < run.clock + NANOS_PER_MSEC
    case Waiting(until) => run.notify.None? && run.deadline < until + NANOS_PER_MSEC
    case _ => true
  }

  ghost predicate Inv(cfg: Config, s: State) {
    && LocksAgree(s)
    && (forall r | r in s.runners :: SessionAgrees(s.runners[r]) && Paced(s.runners[r]))
  }

  lemma WaitReachesDeadline(deadline: int, now: int)
    ensures deadline < now + WaitMsec(deadline, now) * NANOS_PER_MSEC + NANOS_PER_MSEC
  {
  }

  /** A runner gains a lock by a select that returns a row, and keeps it to the transaction's end. */
  lemma LockedStep(cfg: Config, s: State, run: Runner, act: Action)
    requires MayAct(cfg, s, run, act)
    ensures Locked(RunnerAfter(cfg, s, run, act))
         == if act.Select? && act.found.Some? then act.found else if EndsTransaction(act) then None else Locked(run)
    ensures act.Select? ==> Locked(run) == None && (act.found.Some? ==> Selectable(s, run, act.found.value))
    ensures Commits(run, act).Some? ==> EndsTransaction(act) && Locked(run) == Commits(run, act)
  {
    hide MayHear, KindOf;
  }

  lemma LocksAgreeStep(cfg: Config, s: State, step: Step)
    requires LocksAgree(s) && Enabled(cfg, s, step)
    ensures LocksAgree(Apply(cfg, s, step))
  {
    if step.Of? {
      LockedStep(cfg, s, s.runners[step.r], step.act);
      hide MayAct, RunnerAfter, Commits, EndsTransaction, Locked;
    }
  }

  lemma RunnerStep(cfg: Config, s: State, run: Runner, act: Action)
    requires SessionAgrees(run) && Paced(run) && MayAct(cfg, s, run, act)
    ensures var run' := RunnerAfter(cfg, s, run, act); SessionAgrees(run') && Paced(run')
  {
    hide MayHear, MayReturn, KindOf;
    if act.StartPoll? { WaitReachesDeadline(run.deadline, run.clock); }
  }

  lemma InvStep(cfg: Config, s: State, step: Step)
    requires Inv(cfg, s) && Enabled(cfg, s, step)
    ensures Inv(cfg, Apply(cfg, s, step))
  {
    LocksAgreeStep(cfg, s, step);
    if step.Of? { RunnerStep(cfg, s, s.runners[step.r], step.act); }
  }

  lemma {:induction false} InvHolds(cfg: Config, states: seq<State>, steps: seq<Step>, i: nat)
    requires IsRun(cfg, states, steps) && i <= |steps|
    ensures Inv(cfg, states[i])
  {
    if i > 0 {
      InvHolds(cfg, states, steps, i - 1);
      assert Happens(cfg, states, steps, i - 1);
      InvStep(cfg, states[i - 1], steps[i - 1]);
    }
  }

  /** Runners only come from the initial state, and none ever goes away. */
  lemma {:induction false} SameRunners(cfg: Config, states: seq<State>, steps: seq<Step>, i: nat, j: nat)
    requires IsRun(cfg, states, steps) && i <= j <= |steps|
    ensures states[i].runners.Keys == states[j].runners.Keys
  {
    if i < j {
      SameRunners(cfg, states, steps, i, j - 1);
      assert Happens(cfg, states, steps, j - 1);
      hide MayAct, RunnerAfter, LocksAfter, Commits;
    }
  }

  /** What one step of a run does to one runner. */
  lemma RunnerMoves(cfg: Config, states: seq<State>, steps: seq<Step>, i: nat, r: nat)
    requires IsRun(cfg, states, steps) && i < |steps| && r in states[i].runners
    ensures r in states[i + 1].runners
    ensures if steps[i].Of? && steps[i].r == r then
              && MayAct(cfg, states[i], states[i].runners[r], steps[i].act)
              && states[i + 1].runners[r] == RunnerAfter(cfg, states[i], states[i].runners[r], steps[i].act)
            else
              states[i + 1].runners[r] == states[i].runners[r]
  {
    assert Happens(cfg, states, steps, i);
    hide MayAct, RunnerAfter, LocksAfter, Commits;
  }

  /** Runner r does none of the excluded actions in steps i .. j-1. */
  ghost predicate Never(steps: seq<Step>, r: nat, i: nat, j: nat, excluded: Action -> bool)
    requires i <= j <= |steps|
  {
    forall m | i <= m < j :: steps[m].Of? && steps[m].r == r ==> !excluded(steps[m].act)
  }

  /** From the select that returned a row until its transaction ends, be it by the error of a failing
      update, the row is locked for that runner, across a failing command as well, and no select
      returns it. */
  lemma {:induction false} LockHeldToTransactionEnd(
    cfg: Config, states: seq<State>, steps: seq<Step>, i: nat, j: nat, r: nat, k: Key)
    requires IsRun(cfg, states, steps) && i < j <= |steps|
    requires steps[i] == Of(r, Select(Some(k)))
    requires Never(steps, r, i, j, EndsTransaction)
    ensures k in states[j].queue && k in states[j].locks && states[j].locks[k] == ByRunner(r)
    ensures j < |steps| ==> forall other :: steps[j] != Of(other, Select(Some(k)))
  {
    if i + 1 < j {
      LockHeldToTransactionEnd(cfg, states, steps, i, j - 1, r, k);
    }
    InvHolds(cfg, states, steps, j);
    assert Happens(cfg, states, steps, j - 1);
    if j < |steps| { assert Happens(cfg, states, steps, j); }
  }

  /** A failing update gives the row free at once, before the ROLLBACK. */
  lemma FailedUpdateFreesRow(cfg: Config, states: seq<State>, steps: seq<Step>, i: nat, r: nat)
    requires IsRun(cfg, states, steps) && i < |steps| && steps[i] == Of(r, UpdateFails)
    ensures var after := states[i + 1].locks; forall k | k in after :: after[k] != ByRunner(r)
  {
    assert Happens(cfg, states, steps, i);
    hide MayAct, RunnerAfter, Commits;
  }

  /** Mutual exclusion: of two runners at work on the same command, at most one still has the
      connection over which it locked the row. */
  lemma MutualExclusion(cfg: Config, states: seq<State>, steps: seq<Step>, i: nat, r1: nat, r2: nat)
    requires IsRun(cfg, states, steps) && i <= |steps|
    requires r1 in states[i].runners && r2 in states[i].runners && r1 != r2
    requires states[i].runners[r1].Holding().Some?
    requires states[i].runners[r1].Holding() == states[i].runners[r2].Holding()
    ensures !(states[i].runners[r1].connected && states[i].runners[r2].connected)
  {
    InvHolds(cfg, states, steps, i);
  }

  /** Every (re)select iteration starts with an idle transaction: nothing locked, nothing unsaved. */
  lemma SelectStartsIdle(cfg: Config, states: seq<State>, steps: seq<Step>, i: nat, r: nat)
    requires IsRun(cfg, states, steps) && i < |steps|
    requires steps[i] == Of(r, Begin)
    ensures forall k | k in states[i].locks :: states[i].locks[k] != ByRunner(r)
    ensures r in states[i].runners && r in states[i + 1].runners
    ensures states[i + 1].runners[r].session == states[i + 1].runners[r].atBegin == states[i].runners[r].session
  {
    InvHolds(cfg, states, steps, i);
    assert Happens(cfg, states, steps, i);
  }

  // ----- What becomes of an execution -----

  datatype Fate = Committed | Remembered | Forfeited

  /** How an action ends the execution in flight: with the update committed, with the failure
      recorded in `updated_cmd`, or with neither. */
  function FateOf(run: Runner, act: Action): Option<(Key, Fate)> {
    if act.Remember? && run.phase.RolledBack? then
      Some((run.phase.key, if run.connected then Remembered else Forfeited))
    else if act.Finish? && run.phase.Updated? then
      Some((run.phase.key, if act.ok && run.connected then Committed else Forfeited))
    else
      None
  }

  /** How often runner r started command k in the first j steps. */
  ghost function Executions(steps: seq<Step>, j: nat, r: nat, k: Key): nat
    requires j <= |steps|
  {
    if j == 0 then 0
    else Executions(steps, j - 1, r, k) + Count(steps[j - 1] == Of(r, Select(Some(k))))
  }

  ghost function Fates(states: seq<State>, steps: seq<Step>, j: nat, r: nat, k: Key, fate: Fate): nat
    requires j <= |steps| < |states|
  {
    if j == 0 then 0
    else
      var last := steps[j - 1];
      Fates(states, steps, j - 1, r, k, fate)
      + Count(last.Of? && last.r == r && r in states[j - 1].runners
              && FateOf(states[j - 1].runners[r], last.act) == Some((k, fate)))
  }

  lemma ExecutionStep(cfg: Config, s: State, run: Runner, act: Action, k: Key)
    requires MayAct(cfg, s, run, act)
    ensures Count(run.InFlight() == Some(k)) + Count(act == Select(Some(k)))
         == Count(RunnerAfter(cfg, s, run, act).InFlight() == Some(k))
          + Count(FateOf(run, act) == Some((k, Committed))) + Count(FateOf(run, act) == Some((k, Remembered)))
          + Count(FateOf(run, act) == Some((k, Forfeited)))
  {
    hide MayHear, MayReturn, KindOf;
  }

  /** Every execution that is over met exactly one fate, and at most one is not over. */
  lemma {:induction false} ExecutionsAccountedFor(
    cfg: Config, states: seq<State>, steps: seq<Step>, j: nat, r: nat, k: Key)
    requires IsRun(cfg, states, steps) && j <= |steps| && r in states[j].runners
    ensures Executions(steps, j, r, k)
         == Fates(states, steps, j, r, k, Committed) + Fates(states, steps, j, r, k, Remembered)
          + Fates(states, steps, j, r, k, Forfeited) + Count(states[j].runners[r].InFlight() == Some(k))
  {
    if j > 0 {
      SameRunners(cfg, states, steps, j - 1, j);
      ExecutionsAccountedFor(cfg, states, steps, j - 1, r, k);
      RunnerMoves(cfg, states, steps, j - 1, r);
      hide IsRun, Apply, Enabled, MayAct, RunnerAfter, FateOf;
      var last := steps[j - 1];
      if last.Of? && last.r == r {
        ExecutionStep(cfg, states[j - 1], states[j - 1].runners[r], last.act, k);
      }
    }
  }

  predicate BreaksDiscipline(act: Action) {
    act.ConnectionLost? || act == Finish(false)
  }

  lemma NotForfeited(cfg: Config, s: State, run: Runner, act: Action)
    requires MayAct(cfg, s, run, act) && !BreaksDiscipline(act)
    requires run.InFlight().Some? ==> run.connected
    ensures FateOf(run, act).Some? ==> FateOf(run, act).value.1 != Forfeited
    ensures var run' := RunnerAfter(cfg, s, run, act); run'.InFlight().Some? ==> run'.connected
  {
    hide MayHear, MayReturn, KindOf;
  }

  /** While the connection stays up and commits succeed, no execution is forfeited: each one is
      followed by a committed update or by a remembered failure. */
  lemma {:induction false} NothingForfeited(
    cfg: Config, states: seq<State>, steps: seq<Step>, j: nat, r: nat, k: Key)
    requires IsRun(cfg, states, steps) && j <= |steps| && r in states[j].runners
    requires Never(steps, r, 0, j, BreaksDiscipline)
    ensures Fates(states, steps, j, r, k, Forfeited) == 0
    ensures states[j].runners[r].InFlight().Some? ==> states[j].runners[r].connected
  {
    if j > 0 {
      SameRunners(cfg, states, steps, j - 1, j);
      NothingForfeited(cfg, states, steps, j - 1, r, k);
      RunnerMoves(cfg, states, steps, j - 1, r);
      hide IsRun, Apply, Enabled, MayAct, RunnerAfter, FateOf;
      var last := steps[j - 1];
      if last.Of? && last.r == r {
        NotForfeited(cfg, states[j - 1], states[j - 1].runners[r], last.act);
      }
    }
  }
}
