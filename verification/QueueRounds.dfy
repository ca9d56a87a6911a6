/** What happens between two calls of `enter_reselect_round`. */
module QueueRounds {
  import opened Prelude
  import opened QueueProtocol
  import opened QueueSafety
  import opened ReselectRound

  /** The actions that start another round. */
  predicate ChangesRound(act: Action) {
    act.EnterRound? || act.Connect?
  }

  predicate Regular(s: State, r: nat) {
    r in s.runners && s.runners[r].notify.None?
  }

  /** In steps i .. j-1 the COMMIT of r's update of command k was refused. */
  ghost predicate CommitRefused(states: seq<State>, steps: seq<Step>, r: nat, k: Key, i: nat, j: nat)
    requires i <= j <= |steps| < |states|
  {
    exists m :: i <= m < j && steps[m] == Of(r, Finish(false))
                && r in states[m].runners && states[m].runners[r].phase == Updated(k)
  }

  /** Once selected, a command stays in flight or in `updated_cmd` for as long as the round lasts. */
  ghost predicate Accounted(run: Runner, k: Key) {
    run.connected ==> run.InFlight() == Some(k) || k in run.session.updated
  }

  lemma AccountedStep(cfg: Config, s: State, run: Runner, act: Action, k: Key)
    requires MayAct(cfg, s, run, act) && SessionAgrees(run) && Accounted(run, k) && !ChangesRound(act)
    requires !(act == Finish(false) && run.phase == Updated(k))
    ensures Accounted(RunnerAfter(cfg, s, run, act), k)
  {
    hide MayHear, MayReturn, KindOf;
  }

  lemma {:induction false} StaysAccounted(
    cfg: Config, states: seq<State>, steps: seq<Step>, i: nat, j: nat, r: nat, k: Key)
    requires IsRun(cfg, states, steps) && i < j <= |steps|
    requires steps[i] == Of(r, Select(Some(k)))
    requires Never(steps, r, i, j, ChangesRound) && !CommitRefused(states, steps, r, k, i, j)
    ensures r in states[j].runners && Accounted(states[j].runners[r], k)
  {
    if i + 1 < j {
      StaysAccounted(cfg, states, steps, i, j - 1, r, k);
      InvHolds(cfg, states, steps, j - 1);
      RunnerMoves(cfg, states, steps, j - 1, r);
      hide IsRun, Apply, Enabled, MayAct, RunnerAfter, SessionAgrees, Accounted, ChangesRound;
      var last := steps[j - 1];
      if last.Of? && last.r == r {
        AccountedStep(cfg, states[j - 1], states[j - 1].runners[r], last.act, k);
      }
    } else {
      assert Happens(cfg, states, steps, i);
      RunnerMoves(cfg, states, steps, i, r);
      hide IsRun, Apply, Enabled;
    }
  }

  /** Once a command has been executed in a round, whichever select returned it and whether its
      update succeeded or failed, the regular select does not return it again before the next round,
      unless the COMMIT of its update was refused in between. */
  lemma NeverTwicePerRound(
    cfg: Config, states: seq<State>, steps: seq<Step>, i: nat, j: nat, r: nat, k: Key)
    requires IsRun(cfg, states, steps) && i < j < |steps|
    requires steps[i] == Of(r, Select(Some(k))) && Never(steps, r, i, j, ChangesRound)
    ensures Regular(states[j], r) && steps[j] == Of(r, Select(Some(k))) ==> CommitRefused(states, steps, r, k, i, j)
  {
    assert Happens(cfg, states, steps, j);
    if !CommitRefused(states, steps, r, k, i, j) { StaysAccounted(cfg, states, steps, i, j, r, k); }
  }

  // ----- What the regular select passes over, exactly -----

  /** This step makes an execution of k by r count: its update is committed, or its failure remembered. */
  predicate Records(s: State, step: Step, r: nat, k: Key) {
    step.Of? && step.r == r && r in s.runners && RecordedBy(s.runners[r], step.act, k)
  }

  predicate RecordedBy(run: Runner, act: Action, k: Key) {
    FateOf(run, act) == Some((k, Committed)) || FateOf(run, act) == Some((k, Remembered))
  }

  ghost predicate Recorded(states: seq<State>, steps: seq<Step>, r: nat, k: Key, i: nat, j: nat)
    requires i <= j <= |steps| < |states|
  {
    exists m | i <= m < j :: Records(states[m], steps[m], r, k)
  }

  predicate InTransactionBlock(phase: Phase) {
    phase.InTransaction? || phase.Executing? || phase.Executed? || phase.Updated? || phase.UpdateFailed?
    || phase.RoundOver? || phase.Settled? || phase.Aborted?
  }

  /** `updated_cmd` holds k exactly if it was recorded, not counting the update of an open transaction. */
  predicate Recalls(run: Runner, k: Key, recorded: bool) {
    run.connected ==>
      if InTransactionBlock(run.phase) then
        (k in run.atBegin.updated <==> recorded)
        && run.session.updated == run.atBegin.updated + if run.phase.Updated? then {run.phase.key} else {}
      else k in run.session.updated <==> recorded
  }

  lemma RecallsStep(cfg: Config, s: State, run: Runner, act: Action, k: Key, recorded: bool)
    requires MayAct(cfg, s, run, act) && !ChangesRound(act) && Recalls(run, k, recorded)
    ensures Recalls(RunnerAfter(cfg, s, run, act), k, recorded || RecordedBy(run, act, k))
  {
    hide MayHear, MayReturn, KindOf;
  }

  lemma RecordedLast(states: seq<State>, steps: seq<Step>, r: nat, k: Key, i: nat, j: nat)
    requires i < j <= |steps| < |states|
    ensures Recorded(states, steps, r, k, i, j)
            <==> Recorded(states, steps, r, k, i, j - 1) || Records(states[j - 1], steps[j - 1], r, k)
  {
  }

  /** At i the runner is between two transactions, with nothing recorded yet. */
  predicate RoundStarts(s: State, r: nat) {
    r in s.runners && !InTransactionBlock(s.runners[r].phase) && s.runners[r].session.updated == {}
  }

  lemma {:induction false} RecallsHolds(
    cfg: Config, states: seq<State>, steps: seq<Step>, r: nat, k: Key, i: nat, j: nat)
    requires IsRun(cfg, states, steps) && i <= j <= |steps|
    requires RoundStarts(states[i], r) && Never(steps, r, i, j, ChangesRound)
    ensures r in states[j].runners && Recalls(states[j].runners[r], k, Recorded(states, steps, r, k, i, j))
  {
    if i < j {
      RecallsHolds(cfg, states, steps, r, k, i, j - 1);
      RunnerMoves(cfg, states, steps, j - 1, r);
      RecordedLast(states, steps, r, k, i, j);
      hide IsRun, Apply, Enabled, MayAct, RunnerAfter, RecordedBy, Recorded, Recalls, ChangesRound;
      var last := steps[j - 1];
      if last.Of? && last.r == r {
        RecallsStep(cfg, states[j - 1], states[j - 1].runners[r], last.act, k, Recorded(states, steps, r, k, i, j - 1));
      }
    }
  }

  /** Throughout a round, `updated_cmd` holds exactly the commands of which an update was committed or a
      failure remembered in it, and the one updated in the open transaction. */
  lemma UpdatedIff(cfg: Config, states: seq<State>, steps: seq<Step>, r: nat, k: Key, i: nat, j: nat)
    requires IsRun(cfg, states, steps) && i <= j <= |steps|
    requires RoundStarts(states[i], r) && Never(steps, r, i, j, ChangesRound)
    ensures r in states[j].runners
    ensures states[j].runners[r].connected ==>
              (k in states[j].runners[r].session.updated
               <==> Recorded(states, steps, r, k, i, j) || states[j].runners[r].phase == Updated(k))
  {
    RecallsHolds(cfg, states, steps, r, k, i, j);
  }

  /** So a regular select may return a command that is queued and not locked if and only if none of its
      executions in the round, if it had any, was committed or remembered. */
  lemma QualifiesIff(cfg: Config, states: seq<State>, steps: seq<Step>, r: nat, k: Key, i: nat, j: nat)
    requires IsRun(cfg, states, steps) && i <= j <= |steps|
    requires RoundStarts(states[i], r) && Never(steps, r, i, j, ChangesRound)
    requires Regular(states[j], r) && states[j].runners[r].phase.InTransaction? && states[j].runners[r].connected
    requires k in states[j].queue && k !in states[j].locks
    ensures Selectable(states[j], states[j].runners[r], k) <==> !Recorded(states, steps, r, k, i, j)
  {
    UpdatedIff(cfg, states, steps, r, k, i, j);
  }

  /** Another round begins, or a COMMIT is refused. */
  predicate LeavesRound(act: Action) {
    ChangesRound(act) || act == Finish(false)
  }

  // ----- Counting -----

  predicate RegularSelect(s: State, step: Step, r: nat) {
    step.Of? && step.r == r && step.act.Select? && step.act.found.Some? && Regular(s, r)
  }

  /** The commands that r's regular selects returned in steps i .. j-1, in order. */
  ghost function Selected(states: seq<State>, steps: seq<Step>, r: nat, i: nat, j: nat): seq<Key>
    requires i <= j <= |steps| < |states|
  {
    if i == j then []
    else
      var before := Selected(states, steps, r, i, j - 1);
      if RegularSelect(states[j - 1], steps[j - 1], r) then before + [steps[j - 1].act.found.value] else before
  }

  ghost predicate Distinct(s: seq<Key>) {
    forall a, b | 0 <= a < b < |s| :: s[a] != s[b]
  }

  lemma {:induction false} DistinctFits(s: seq<Key>, keys: set<Key>)
    requires Distinct(s) && forall k | k in s :: k in keys
    ensures |s| <= |keys|
    ensures |s| == |keys| ==> forall k | k in keys :: k in s
  {
    if |s| > 0 {
      var last := |s| - 1;
      var rest := keys - {s[last]};
      forall k | k in s[..last] ensures k in rest { }
      DistinctFits(s[..last], rest);
      if |s| == |keys| {
        forall k | k in keys ensures k in s { assert k == s[last] || k in rest; }
      }
    }
  }

  ghost function InsertedKeys(steps: seq<Step>, i: nat, j: nat): set<Key>
    requires i <= j <= |steps|
  {
    set m | i <= m < j && steps[m].Insert? :: steps[m].key
  }

  lemma {:induction false} SelectedAt(
    states: seq<State>, steps: seq<Step>, r: nat, i: nat, j: nat, k: Key) returns (m: nat)
    requires i <= j <= |steps| < |states| && k in Selected(states, steps, r, i, j)
    ensures i <= m < j && steps[m] == Of(r, Select(Some(k))) && Regular(states[m], r)
  {
    if RegularSelect(states[j - 1], steps[j - 1], r) && steps[j - 1].act.found.value == k {
      m := j - 1;
    } else {
      m := SelectedAt(states, steps, r, i, j - 1, k);
    }
  }

  /** Rows come into the queue only by insertion. */
  lemma {:induction false} QueueGrowsByInsertion(
    cfg: Config, states: seq<State>, steps: seq<Step>, i: nat, j: nat)
    requires IsRun(cfg, states, steps) && i <= j <= |steps|
    ensures states[j].queue.Keys <= states[i].queue.Keys + InsertedKeys(steps, i, j)
  {
    if i < j {
      QueueGrowsByInsertion(cfg, states, steps, i, j - 1);
      assert Happens(cfg, states, steps, j - 1);
      assert InsertedKeys(steps, i, j - 1) <= InsertedKeys(steps, i, j);
      if steps[j - 1].Insert? { assert steps[j - 1].key in InsertedKeys(steps, i, j); }
    }
  }

  lemma NotSelectedBefore(cfg: Config, states: seq<State>, steps: seq<Step>, r: nat, i: nat, j: nat, k: Key)
    requires IsRun(cfg, states, steps) && i <= j < |steps| && Never(steps, r, i, j, LeavesRound)
    requires steps[j] == Of(r, Select(Some(k))) && Regular(states[j], r)
    ensures k !in Selected(states, steps, r, i, j)
  {
    if k in Selected(states, steps, r, i, j) {
      var m := SelectedAt(states, steps, r, i, j, k);
      NeverTwicePerRound(cfg, states, steps, m, j, r, k);
    }
  }

  lemma {:induction false} SelectedDistinct(
    cfg: Config, states: seq<State>, steps: seq<Step>, r: nat, i: nat, j: nat)
    requires IsRun(cfg, states, steps) && i <= j <= |steps|
    requires Never(steps, r, i, j, LeavesRound)
    ensures Distinct(Selected(states, steps, r, i, j))
    ensures forall k | k in Selected(states, steps, r, i, j) ::
              k in states[i].queue.Keys + InsertedKeys(steps, i, j)
  {
    if i < j {
      SelectedDistinct(cfg, states, steps, r, i, j - 1);
      assert InsertedKeys(steps, i, j - 1) <= InsertedKeys(steps, i, j);
      if RegularSelect(states[j - 1], steps[j - 1], r) {
        var k := steps[j - 1].act.found.value;
        QueueGrowsByInsertion(cfg, states, steps, i, j - 1);
        assert k in states[j - 1].queue by { assert Happens(cfg, states, steps, j - 1); }
        NotSelectedBefore(cfg, states, steps, r, i, j - 1, k);
        hide IsRun, Regular, InsertedKeys;
      }
    }
  }

  /** How many of r's updates were refused their COMMIT in steps i .. j-1. */
  ghost function RefusedCommits(states: seq<State>, steps: seq<Step>, r: nat, i: nat, j: nat): nat
    requires i <= j <= |steps| < |states|
  {
    if i == j then 0
    else
      RefusedCommits(states, steps, r, i, j - 1)
      + Count(steps[j - 1].Of? && steps[j - 1].r == r && r in states[j - 1].runners
              && Refused(states[j - 1].runners[r], steps[j - 1].act))
  }

  predicate Refused(run: Runner, act: Action) {
    act == Finish(false) && run.phase.Updated? && run.connected
  }

  /** The commands that the regular select passes over, or will once the one in flight is done with. */
  function PassedOver(run: Runner): set<Key> {
    run.session.updated + if run.InFlight().Some? then {run.InFlight().value} else {}
  }

  lemma PassedOverStep(cfg: Config, s: State, run: Runner, act: Action)
    requires MayAct(cfg, s, run, act) && SessionAgrees(run) && !ChangesRound(act)
    requires run.connected
    ensures var run' := RunnerAfter(cfg, s, run, act);
            && (if Refused(run, act) then PassedOver(run) <= PassedOver(run') + {run.phase.key}
                else PassedOver(run) <= PassedOver(run'))
            && (act.Select? && act.found.Some? ==> run'.connected && act.found.value in PassedOver(run'))
            && (act.Select? && act.found.Some? && run.notify.None? ==> act.found.value !in PassedOver(run))
  {
    hide MayHear, KindOf;
  }

  lemma StaysLost(cfg: Config, s: State, run: Runner, act: Action)
    requires MayAct(cfg, s, run, act) && !ChangesRound(act) && !run.connected
    ensures !RunnerAfter(cfg, s, run, act).connected && !(act.Select? && act.found.Some?) && !Refused(run, act)
  {
    hide MayHear, MayReturn, KindOf;
  }

  /** So many regular executions of commands from a pool, given how many commits were refused. */
  ghost predicate Spent(run: Runner, executions: nat, pool: set<Key>, refused: nat) {
    && executions <= |pool| + refused
    && (run.connected ==> executions <= |PassedOver(run) * pool| + refused)
  }

  lemma SpentStep(
    cfg: Config, s: State, run: Runner, act: Action, n: nat, pool: set<Key>, pool': set<Key>, refused: nat)
    requires MayAct(cfg, s, run, act) && SessionAgrees(run) && !ChangesRound(act)
    requires Spent(run, n, pool, refused) && pool <= pool'
    requires act.Select? && act.found.Some? ==> act.found.value in pool'
    ensures Spent(RunnerAfter(cfg, s, run, act), n + Count(act.Select? && act.found.Some? && run.notify.None?),
                  pool', refused + Count(Refused(run, act)))
  {
    var run' := RunnerAfter(cfg, s, run, act);
    NoMore(pool, pool');
    if run.connected {
      PassedOverStep(cfg, s, run, act);
      var k := if Refused(run, act) then run.phase.key
               else if act.Select? && act.found.Some? then act.found.value
               else Key("", None);
      hide MayAct, RunnerAfter, SessionAgrees, PassedOver;
      Overlap(PassedOver(run), PassedOver(run'), pool, pool', k, act.Select? && act.found.Some? && run.notify.None?,
              Refused(run, act));
      NoMore(PassedOver(run') * pool', pool');
    } else {
      StaysLost(cfg, s, run, act);
    }
  }

  /** What of the pool is passed over grows with every command selected, and loses at most one. */
  lemma Overlap(a: set<Key>, b: set<Key>, pool: set<Key>, pool': set<Key>, k: Key, gained: bool, lost: bool)
    requires pool <= pool' && a <= b + (if lost then {k} else {}) && !(gained && lost)
    requires gained ==> k in b && k in pool' && k !in a
    ensures |a * pool| + Count(gained) <= |b * pool'| + Count(lost)
  {
    if gained {
      NoMore(a * pool + {k}, b * pool');
    } else if lost {
      NoMore(a * pool, b * pool' + {k});
    } else {
      NoMore(a * pool, b * pool');
    }
  }

  lemma NoMore(a: set<Key>, b: set<Key>)
    requires a <= b
    ensures |a| <= |b|
  {
    assert b == a + (b - a);
  }

  lemma {:induction false} SpentHolds(cfg: Config, states: seq<State>, steps: seq<Step>, r: nat, i: nat, j: nat)
    requires IsRun(cfg, states, steps) && i <= j <= |steps| && r in states[i].runners
    requires Never(steps, r, i, j, ChangesRound)
    ensures r in states[j].runners
    ensures Spent(states[j].runners[r], |Selected(states, steps, r, i, j)|,
                  states[i].queue.Keys + InsertedKeys(steps, i, j), RefusedCommits(states, steps, r, i, j))
  {
    if i < j {
      SpentHolds(cfg, states, steps, r, i, j - 1);
      SessionHolds(cfg, states, steps, j - 1, r);
      RunnerMoves(cfg, states, steps, j - 1, r);
      QueueGrowsByInsertion(cfg, states, steps, i, j - 1);
      InsertedMore(steps, i, j);
      hide IsRun, Happens, Apply, Enabled, MayAct, RunnerAfter;
      hide InsertedKeys, SessionAgrees, Spent, Refused, ChangesRound;
      SpentMove(cfg, states[j - 1], states[j], steps[j - 1], r, |Selected(states, steps, r, i, j - 1)|,
                states[i].queue.Keys + InsertedKeys(steps, i, j - 1), states[i].queue.Keys + InsertedKeys(steps, i, j),
                RefusedCommits(states, steps, r, i, j - 1));
    }
  }

  lemma SpentMove(
    cfg: Config, s: State, s': State, step: Step, r: nat, n: nat, pool: set<Key>, pool': set<Key>, refused: nat)
    requires r in s.runners && r in s'.runners && SessionAgrees(s.runners[r])
    requires if step.Of? && step.r == r then
               && MayAct(cfg, s, s.runners[r], step.act) && !ChangesRound(step.act)
               && s'.runners[r] == RunnerAfter(cfg, s, s.runners[r], step.act)
             else s'.runners[r] == s.runners[r]
    requires Spent(s.runners[r], n, pool, refused) && pool <= pool' && s.queue.Keys <= pool'
    ensures Spent(s'.runners[r], n + Count(RegularSelect(s, step, r)), pool',
                  refused + Count(step.Of? && step.r == r && Refused(s.runners[r], step.act)))
  {
    hide RunnerAfter, SessionAgrees, Spent, Refused, ChangesRound;
    if step.Of? && step.r == r {
      SelectedFromQueue(cfg, s, s.runners[r], step.act);
      hide MayAct;
      SpentStep(cfg, s, s.runners[r], step.act, n, pool, pool', refused);
    } else {
      SpentLarger(s.runners[r], n, pool, pool', refused);
    }
  }

  lemma SpentLarger(run: Runner, n: nat, pool: set<Key>, pool': set<Key>, refused: nat)
    requires Spent(run, n, pool, refused) && pool <= pool'
    ensures Spent(run, n, pool', refused)
  {
    NoMore(pool, pool');
    NoMore(PassedOver(run) * pool, PassedOver(run) * pool');
  }

  lemma InsertedMore(steps: seq<Step>, i: nat, j: nat)
    requires i < j <= |steps|
    ensures InsertedKeys(steps, i, j - 1) <= InsertedKeys(steps, i, j)
  {
  }

  lemma SelectedFromQueue(cfg: Config, s: State, run: Runner, act: Action)
    requires MayAct(cfg, s, run, act)
    ensures act.Select? && act.found.Some? ==> act.found.value in s.queue.Keys
  {
  }

  /** The regular executions of a round are at most the commands pending when it began plus the
      commands inserted while it lasted, and one more for each of its COMMITs that was refused. */
  lemma RoundIsBounded(cfg: Config, states: seq<State>, steps: seq<Step>, r: nat, i: nat, j: nat)
    requires IsRun(cfg, states, steps) && i <= j <= |steps| && r in states[i].runners
    requires Never(steps, r, i, j, ChangesRound)
    ensures |Selected(states, steps, r, i, j)|
         <= |states[i].queue.Keys + InsertedKeys(steps, i, j)| + RefusedCommits(states, steps, r, i, j)
  {
    SpentHolds(cfg, states, steps, r, i, j);
  }

  // ----- A round without outside interference -----

  /** No notification for this queue, no failing select, no lost connection, and the round does not change. */
  predicate Undisturbed(act: Action) {
    || act.Tick? || act.Begin? || act.Select? || act.RunEnds? || act.UpdateSucceeds? || act.UpdateFails?
    || act.Rollback? || act.Remember? || act == Finish(true) || act.NotifyArrives? || act.IgnoreNotify?
    || act.StartPoll? || act.PollTimesOut? || act.PollInterrupted? || act.PollReports? || act.ConsumeInput?
    || act.Resume?
  }

  /** Steps i .. j-1 are all r's own, from the start of a round in which nobody else interferes. */
  ghost predicate QuietRound(states: seq<State>, steps: seq<Step>, r: nat, i: nat, j: nat)
    requires i <= j <= |steps| < |states|
  {
    && states[i].locks == map[]
    && r in states[i].runners
    && (var run := states[i].runners[r];
        run.connected && run.notify.None? && run.session.updated == {} && run.InFlight().None?)
    && forall m | i <= m < j :: steps[m].Of? && steps[m].r == r && Undisturbed(steps[m].act)
  }

  ghost predicate SortedBySince(s: seq<Key>, since: map<Key, int>) {
    && (forall k | k in s :: k in since)
    && (forall a, b | 0 <= a < b < |s| :: since[s[a]] <= since[s[b]])
  }

  predicate Done(run: Runner, k: Key) {
    k in run.session.updated || run.InFlight() == Some(k)
  }

  /** Selected so far: exactly what is remembered or in flight.  The rest still waits in the queue. */
  ghost predicate Progress(s0: State, s: State, r: nat, done: seq<Key>)
    requires r in s0.runners
  {
    && r in s.runners && s.runners[r].connected && s.runners[r].notify.None?
    && s.runners[r].round == s0.runners[r].round
    && (forall k | k in s.locks :: s.locks[k] == ByRunner(r))
    && (forall k :: k in done <==> Done(s.runners[r], k))
    && (forall k | k in done :: k in s0.queue)
    && (forall k | k in s0.queue && k !in done :: k in s.queue)
    && (forall k | k in s.queue :: k in s0.queue && s.queue[k] == s0.queue[k])
  }

  /** In an oldest-first round nothing still waiting is older than what was selected. */
  ghost predicate OldestFirst(s0: State, done: seq<Key>) {
    && SortedBySince(done, s0.queue)
    && (forall k, d | k in s0.queue && k !in done && d in done :: s0.queue[d] <= s0.queue[k])
  }

  /** Only a select that returns a row adds to what is done. */
  lemma DoneStep(cfg: Config, s: State, run: Runner, act: Action, k: Key)
    requires SessionAgrees(run) && run.connected && run.notify.None? && MayAct(cfg, s, run, act) && Undisturbed(act)
    ensures var run' := RunnerAfter(cfg, s, run, act);
            && run'.connected && run'.notify.None? && run'.round == run.round
            && (Done(run', k) <==> Done(run, k) || act == Select(Some(k)))
  {
    hide MayHear, MayReturn, KindOf;
  }

  lemma SelectStep(cfg: Config, s0: State, s: State, r: nat, done: seq<Key>, k: Key)
    requires r in s0.runners && Progress(s0, s, r, done) && Inv(cfg, s)
    requires Enabled(cfg, s, Of(r, Select(Some(k))))
    ensures Progress(s0, Apply(cfg, s, Of(r, Select(Some(k)))), r, done + [k])
    ensures KindOf(cfg, s.runners[r]).Oldest? && OldestFirst(s0, done) ==> OldestFirst(s0, done + [k])
  {
    forall other { DoneStep(cfg, s, s.runners[r], Select(Some(k)), other); }
    assert k !in done;
    hide RunnerAfter, LocksAgree, SessionAgrees, Paced;
    forall other | other in s0.queue && other !in done ensures Selectable(s, s.runners[r], other) {
      assert other in s.queue;
    }
  }

  lemma LocksComeFrom(locks: map<Key, Owner>, r: nat, act: Action, k: Key)
    requires k in LocksAfter(locks, r, act)
    ensures LocksAfter(locks, r, act)[k] == ByRunner(r) || (k in locks && LocksAfter(locks, r, act)[k] == locks[k])
  {
  }

  lemma CommitsDone(run: Runner, act: Action)
    ensures Commits(run, act).Some? ==> Done(run, Commits(run, act).value)
  {
  }

  lemma OtherStep(cfg: Config, s0: State, s: State, r: nat, done: seq<Key>, act: Action)
    requires r in s0.runners && Progress(s0, s, r, done) && SessionAgrees(s.runners[r])
    requires Enabled(cfg, s, Of(r, act)) && Undisturbed(act) && !(act.Select? && act.found.Some?)
    ensures Progress(s0, Apply(cfg, s, Of(r, act)), r, done)
  {
    hide MayAct, RunnerAfter, Commits, LocksAfter, Done, Undisturbed, SessionAgrees;
    var run := s.runners[r];
    DoneStep(cfg, s, run, act, Key("", None));
    forall other { DoneStep(cfg, s, run, act, other); }
    forall k | k in LocksAfter(s.locks, r, act) { LocksComeFrom(s.locks, r, act, k); }
    CommitsDone(run, act);
  }

  lemma {:induction false} ProgressHolds(
    cfg: Config, states: seq<State>, steps: seq<Step>, r: nat, i: nat, j: nat)
    requires IsRun(cfg, states, steps) && i <= j <= |steps| && QuietRound(states, steps, r, i, j)
    ensures Progress(states[i], states[j], r, Selected(states, steps, r, i, j))
    ensures KindOf(cfg, states[i].runners[r]).Oldest? ==> OldestFirst(states[i], Selected(states, steps, r, i, j))
  {
    if i < j {
      ProgressHolds(cfg, states, steps, r, i, j - 1);
      assert Happens(cfg, states, steps, j - 1);
      InvHolds(cfg, states, steps, j - 1);
      var act := steps[j - 1].act;
      var done := Selected(states, steps, r, i, j - 1);
      if act.Select? && act.found.Some? {
        SelectStep(cfg, states[i], states[j - 1], r, done, act.found.value);
      } else {
        OtherStep(cfg, states[i], states[j - 1], r, done, act);
      }
    }
  }

  lemma {:induction false} DistinctCount(s: seq<Key>, k: Key)
    requires Distinct(s)
    ensures multiset(s)[k] == Count(k in s)
  {
    if |s| > 0 {
      var last := |s| - 1;
      DistinctCount(s[..last], k);
      assert s == s[..last] + [s[last]];
    }
  }

  lemma DistinctIsSet(s: seq<Key>, keys: set<Key>)
    requires Distinct(s) && forall k :: k in s <==> k in keys
    ensures multiset(s) == multiset(keys)
  {
    forall k ensures multiset(s)[k] == multiset(keys)[k] { DistinctCount(s, k); }
  }

  /** Undisturbed, a round comes to its end exactly when every pending command has been executed,
      which takes one select for each of them; it has then executed each exactly once, in the order
      of `cmd_queued_since` unless the round is randomized. */
  lemma QuietRoundRunsEverything(
    cfg: Config, states: seq<State>, steps: seq<Step>, r: nat, i: nat, j: nat, found: Option<Key>)
    requires IsRun(cfg, states, steps) && i <= j < |steps| && QuietRound(states, steps, r, i, j)
    requires steps[j] == Of(r, Select(found))
    ensures var done := Selected(states, steps, r, i, j);
            && |done| <= |states[i].queue|
            && (found.None? <==> |done| == |states[i].queue|)
            && (found.None? ==> multiset(done) == multiset(states[i].queue.Keys))
            && (KindOf(cfg, states[i].runners[r]).Oldest? ==> SortedBySince(done, states[i].queue))
  {
    var done := Selected(states, steps, r, i, j);
    assert Happens(cfg, states, steps, j);
    ProgressHolds(cfg, states, steps, r, i, j);
    InvHolds(cfg, states, steps, j);
    SelectedDistinct(cfg, states, steps, r, i, j);
    DistinctFits(done, states[i].queue.Keys);
    var run := states[j].runners[r];
    if found.None? {
      forall k ensures k in done <==> k in states[i].queue.Keys {
        if k in states[i].queue && k !in done { assert Selectable(states[j], run, k); }
      }
      DistinctIsSet(done, states[i].queue.Keys);
      assert |multiset(done)| == |multiset(states[i].queue.Keys)|;
    }
  }

  // ----- Pacing -----

  predicate EmptyRegularSelect(s: State, step: Step, r: nat) {
    step == Of(r, Select(None)) && Regular(s, r)
  }

  /** The deadline moves only on an empty regular select and when a session starts. */
  lemma DeadlineMoves(cfg: Config, states: seq<State>, steps: seq<Step>, i: nat, r: nat)
    requires IsRun(cfg, states, steps) && i < |steps| && r in states[i].runners
    requires !EmptyRegularSelect(states[i], steps[i], r) && steps[i] != Of(r, Connect)
    ensures r in states[i + 1].runners && states[i + 1].runners[r].deadline == states[i].runners[r].deadline
  {
    RunnerMoves(cfg, states, steps, i, r);
  }

  lemma {:induction false} DeadlineKept(cfg: Config, states: seq<State>, steps: seq<Step>, i: nat, j: nat, r: nat)
    requires IsRun(cfg, states, steps) && i <= j <= |steps| && r in states[i].runners
    requires forall m | i <= m < j :: !EmptyRegularSelect(states[m], steps[m], r) && steps[m] != Of(r, Connect)
    ensures r in states[j].runners && states[j].runners[r].deadline == states[i].runners[r].deadline
  {
    if i < j {
      DeadlineKept(cfg, states, steps, i, j - 1, r);
      DeadlineMoves(cfg, states, steps, j - 1, r);
    }
  }

  /** Within a session, whatever notifications intervene, the transaction of the regular select that
      follows an empty one begins less than a millisecond before the interval is over, or later. */
  lemma NextRegularSelectWaits(cfg: Config, states: seq<State>, steps: seq<Step>, i: nat, j: nat, r: nat)
    requires IsRun(cfg, states, steps) && i < j < |steps|
    requires EmptyRegularSelect(states[i], steps[i], r)
    requires steps[j] == Of(r, Begin) && Regular(states[j], r)
    requires forall m | i < m < j :: !EmptyRegularSelect(states[m], steps[m], r) && steps[m] != Of(r, Connect)
    ensures states[j].runners[r].clock
          > states[i].runners[r].clock + (cfg.intervalMsec - 1) * 1_000_000
  {
    assert Happens(cfg, states, steps, i);
    assert Happens(cfg, states, steps, j);
    RunnerMoves(cfg, states, steps, i, r);
    DeadlineKept(cfg, states, steps, i + 1, j, r);
    InvHolds(cfg, states, steps, j);
  }

  function AtLeastZero(x: int): nat {
    if x < 0 then 0 else x
  }

  ghost predicate DeadlineNear(cfg: Config, run: Runner) {
    !run.phase.Offline? && !run.phase.Leaving? && !run.phase.Stopped? ==>
      run.deadline <= run.clock + AtLeastZero(cfg.intervalMsec) * NANOS_PER_MSEC
  }

  lemma DeadlineNearStep(cfg: Config, s: State, run: Runner, act: Action)
    requires DeadlineNear(cfg, run) && MayAct(cfg, s, run, act) && !run.phase.Stopped?
    ensures DeadlineNear(cfg, RunnerAfter(cfg, s, run, act))
  {
    hide MayHear, MayReturn, KindOf;
  }

  /** poll() is never asked to wait longer than the configured interval. */
  lemma {:induction false} WaitIsAtMostInterval(
    cfg: Config, states: seq<State>, steps: seq<Step>, i: nat, r: nat)
    requires IsRun(cfg, states, steps) && i <= |steps|
    requires r in states[i].runners
    ensures DeadlineNear(cfg, states[i].runners[r])
    ensures states[i].runners[r].phase.Polling? ==>
              WaitMsec(states[i].runners[r].deadline, states[i].runners[r].clock) <= AtLeastZero(cfg.intervalMsec)
  {
    if i > 0 {
      SameRunners(cfg, states, steps, i - 1, i);
      WaitIsAtMostInterval(cfg, states, steps, i - 1, r);
      RunnerMoves(cfg, states, steps, i - 1, r);
      hide IsRun, Apply, Enabled, MayAct, RunnerAfter, DeadlineNear;
      if steps[i - 1].Of? && steps[i - 1].r == r && !states[i - 1].runners[r].phase.Stopped? {
        DeadlineNearStep(cfg, states[i - 1], states[i - 1].runners[r], steps[i - 1].act);
      }
    }
  }

  // ----- The round counter -----

  ghost function RoundsEntered(steps: seq<Step>, r: nat, i: nat, j: nat): nat
    requires i <= j <= |steps|
  {
    if i == j then 0 else RoundsEntered(steps, r, i, j - 1) + Count(steps[j - 1] == Of(r, EnterRound))
  }

  predicate RestartsCounter(act: Action) {
    act.Connect? || act == Finish(false)
  }

  /** The runner's `reselect_round` after entering m rounds, and the session's setting. */
  ghost predicate Numbered(run: Runner, m: nat) {
    run.round == RoundNumber(m) && (run.connected ==> run.session.setting == SettingAfter(m))
  }

  lemma NumberedStep(cfg: Config, s: State, run: Runner, act: Action, m: nat)
    requires Numbered(run, m) && SessionAgrees(run) && MayAct(cfg, s, run, act) && !RestartsCounter(act)
    ensures Numbered(RunnerAfter(cfg, s, run, act), if act.EnterRound? then m + 1 else m)
  {
    hide MayHear, MayReturn, KindOf;
    if act.EnterRound? { MthCall(m + 1); }
  }

  lemma ConnectNumbered(cfg: Config, s: State, run: Runner)
    requires MayAct(cfg, s, run, Connect)
    ensures Numbered(RunnerAfter(cfg, s, run, Connect), 0)
  {
  }

  /** Throughout a session the runner's `reselect_round` is the number of the round it is in. */
  lemma {:induction false} RoundIsNumbered(
    cfg: Config, states: seq<State>, steps: seq<Step>, r: nat, i: nat, j: nat)
    requires IsRun(cfg, states, steps) && i < j <= |steps|
    requires steps[i] == Of(r, Connect) && Never(steps, r, i + 1, j, RestartsCounter)
    ensures r in states[j].runners && Numbered(states[j].runners[r], RoundsEntered(steps, r, i + 1, j))
  {
    if i + 1 == j {
      FirstNumbered(cfg, states, steps, r, i);
    } else {
      RoundIsNumbered(cfg, states, steps, r, i, j - 1);
      RunnerMoves(cfg, states, steps, j - 1, r);
      SessionHolds(cfg, states, steps, j - 1, r);
      hide IsRun, Happens, Apply, Enabled, MayAct, RunnerAfter, Numbered, SessionAgrees;
      NumberedMove(cfg, states[j - 1], states[j], steps[j - 1], r, RoundsEntered(steps, r, i + 1, j - 1));
    }
  }

  lemma FirstNumbered(cfg: Config, states: seq<State>, steps: seq<Step>, r: nat, i: nat)
    requires IsRun(cfg, states, steps) && i < |steps| && steps[i] == Of(r, Connect)
    ensures r in states[i + 1].runners && Numbered(states[i + 1].runners[r], 0)
  {
    assert Happens(cfg, states, steps, i);
    RunnerMoves(cfg, states, steps, i, r);
    hide IsRun, Happens, Apply, Enabled, MayAct, RunnerAfter, Numbered;
    ConnectNumbered(cfg, states[i], states[i].runners[r]);
  }

  lemma SessionHolds(cfg: Config, states: seq<State>, steps: seq<Step>, i: nat, r: nat)
    requires IsRun(cfg, states, steps) && i <= |steps| && r in states[i].runners
    ensures SessionAgrees(states[i].runners[r])
  {
    InvHolds(cfg, states, steps, i);
  }

  lemma NumberedMove(cfg: Config, s: State, s': State, step: Step, r: nat, m: nat)
    requires r in s.runners && r in s'.runners && SessionAgrees(s.runners[r]) && Numbered(s.runners[r], m)
    requires if step.Of? && step.r == r then
               && MayAct(cfg, s, s.runners[r], step.act) && !RestartsCounter(step.act)
               && s'.runners[r] == RunnerAfter(cfg, s, s.runners[r], step.act)
             else s'.runners[r] == s.runners[r]
    ensures Numbered(s'.runners[r], m + Count(step == Of(r, EnterRound)))
  {
    hide MayAct, RunnerAfter, SessionAgrees, Numbered, RestartsCounter;
    if step.Of? && step.r == r { NumberedStep(cfg, s, s.runners[r], step.act, m); }
  }
}
