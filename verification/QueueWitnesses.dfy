/** Runs showing that two conditions under which the protocol's guarantees are proved cannot go. */
module QueueWitnesses {
  import opened Prelude
  import opened QueueProtocol
  import opened QueueSafety
  import opened QueueRounds

  const ANY: Key := Key("1", None)
  const CFG: Config := Config("q", true, true, 0, None)
  const FRESH: Session := Session({}, 0)

  function At(phase: Phase, connected: bool, session: Session): Runner {
    Runner(phase, connected, session, FRESH, None, 0, 0, 0)
  }

  /** Runners 0 and 1, at most one of which holds the lock of the only command. */
  datatype Pair = Pair(holder: Option<nat>, first: Runner, second: Runner)
  {
    function Run(r: nat): Runner {
      if r == 0 then first else second
    }

    function Locks(): map<Key, Owner> {
      if holder.Some? then map[ANY := ByRunner(holder.value)] else map[]
    }

    function State(): State {
      QueueProtocol.State.State(map[ANY := 0], multiset{}, Locks(), map[0 := first, 1 := second])
    }
  }

  /** One runner acts, without committing anything. */
  ghost predicate Moves(p: Pair, r: nat, act: Action, q: Pair) {
    && r <= 1
    && MayAct(CFG, p.State(), p.Run(r), act) && Commits(p.Run(r), act).None?
    && RunnerAfter(CFG, p.State(), p.Run(r), act) == q.Run(r)
    && q.Run(1 - r) == p.Run(1 - r)
    && q.holder == (if act.Select? && act.found.Some? then Some(r)
                    else if EndsTransaction(act) && p.holder == Some(r) then None
                    else p.holder)
  }

  lemma MovesStep(p: Pair, r: nat, act: Action, q: Pair)
    requires Moves(p, r, act, q) && (act.Select? && act.found.Some? ==> act.found.value == ANY && p.holder.None?)
    ensures Enabled(CFG, p.State(), Of(r, act)) && Apply(CFG, p.State(), Of(r, act)) == q.State()
  {
    hide MayAct, RunnerAfter, Commits;
  }

  /** The server frees a row as soon as it notices that a runner's connection is gone, but that
      runner's command keeps running: a second runner then starts the same command beside it. */
  lemma LostConnectionRunsTwice() returns (states: seq<State>, steps: seq<Step>)
    ensures IsRun(CFG, states, steps)
    ensures states[|steps|] == Pair(Some(1), At(Executing(ANY), false, FRESH), At(Executing(ANY), true, FRESH)).State()
  {
    states := seq(8, i requires 0 <= i => Shared(i).State());
    steps := seq(7, i requires 0 <= i => Of(if i < 4 then 0 else 1, SharedAct(i)));
    forall i: nat | i < 7 ensures Happens(CFG, states, steps, i) {
      SharedMoves(i);
      MovesStep(Shared(i), if i < 4 then 0 else 1, SharedAct(i), Shared(i + 1));
    }
  }

  function Shared(i: nat): Pair {
    var off, lost := At(Offline, false, FRESH), At(Executing(ANY), false, FRESH);
    if i == 0 then Pair(None, off, off)
    else if i == 1 then Pair(None, At(AtSelect, true, FRESH), off)
    else if i == 2 then Pair(None, At(InTransaction, true, FRESH), off)
    else if i == 3 then Pair(Some(0), At(Executing(ANY), true, FRESH), off)
    else if i == 4 then Pair(None, lost, off)
    else if i == 5 then Pair(None, lost, At(AtSelect, true, FRESH))
    else if i == 6 then Pair(None, lost, At(InTransaction, true, FRESH))
    else Pair(Some(1), lost, At(Executing(ANY), true, FRESH))
  }

  function SharedAct(i: nat): Action {
    if i == 0 || i == 4 then Connect
    else if i == 1 || i == 5 then Begin
    else if i == 3 then ConnectionLost
    else Select(Some(ANY))
  }

  lemma SharedMoves(i: nat)
    requires i < 7
    ensures Moves(Shared(i), if i < 4 then 0 else 1, SharedAct(i), Shared(i + 1))
  {
    hide MayHear;
  }

  /** The runner does not look at the result of its COMMIT: refused, it takes the entry in
      `updated_cmd` with it, and the same round runs the command a second time. */
  lemma RefusedCommitRunsTwice() returns (states: seq<State>, steps: seq<Step>, i: nat, j: nat)
    ensures IsRun(CFG, states, steps) && i < j < |steps| && Never(steps, 0, i, j, ChangesRound)
    ensures steps[i] == steps[j] == Of(0, Select(Some(ANY))) && Regular(states[j], 0)
  {
    states := seq(11, i requires 0 <= i => Alone(i).State());
    steps := seq(10, i requires 0 <= i => Of(0, AloneAct(i)));
    i, j := 2, 9;
    forall m: nat | m < 10 ensures Happens(CFG, states, steps, m) {
      AloneMoves(m);
      MovesStep(Alone(m), 0, AloneAct(m), Alone(m + 1));
    }
  }

  function Alone(i: nat): Pair {
    var off := At(Offline, false, FRESH);
    if i == 0 then Pair(None, off, off)
    else if i == 1 || i == 8 then Pair(None, At(AtSelect, true, FRESH), off)
    else if i == 2 || i == 9 then Pair(None, At(InTransaction, true, FRESH), off)
    else if i == 3 then Pair(Some(0), At(Executing(ANY), true, FRESH), off)
    else if i == 4 then Pair(Some(0), At(Executed(ANY), true, FRESH), off)
    else if i == 5 then Pair(Some(0), At(Updated(ANY), true, Session({ANY}, 0)), off)
    else if i == 6 then Pair(None, At(Polling, true, FRESH), off)
    else if i == 7 then Pair(None, At(Waiting(0), true, FRESH), off)
    else Pair(Some(0), At(Executing(ANY), true, FRESH), off)
  }

  function AloneAct(i: nat): Action {
    if i == 0 then Connect
    else if i == 1 || i == 8 then Begin
    else if i == 2 || i == 9 then Select(Some(ANY))
    else if i == 3 then RunEnds
    else if i == 4 then UpdateSucceeds
    else if i == 5 then Finish(false)
    else if i == 6 then StartPoll
    else PollTimesOut
  }

  lemma AloneMoves(i: nat)
    requires i < 10
    ensures Moves(Alone(i), 0, AloneAct(i), Alone(i + 1))
  {
    hide MayHear;
    assert {} + {ANY} == {ANY};
  }
}
