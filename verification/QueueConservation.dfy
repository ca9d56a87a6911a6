/** No command is lost or duplicated on its way from the queue to the log. */
module QueueConservation {
  import opened Prelude
  import opened QueueProtocol
  import opened QueueSafety

  /** How often command k was inserted in the first j steps. */
  ghost function Insertions(steps: seq<Step>, j: nat, k: Key): nat
    requires j <= |steps|
  {
    if j == 0 then 0
    else Insertions(steps, j - 1, k) + Count(steps[j - 1].Insert? && steps[j - 1].key == k)
  }

  predicate StepCommits(s: State, step: Step, k: Key) {
    step.Of? && step.r in s.runners && Commits(s.runners[step.r], step.act) == Some(k)
  }

  /** How many updates of command k, by whichever runner, were committed in the first j steps. */
  ghost function CommittedUpdates(states: seq<State>, steps: seq<Step>, j: nat, k: Key): nat
    requires j <= |steps| < |states|
  {
    if j == 0 then 0
    else CommittedUpdates(states, steps, j - 1, k) + Count(StepCommits(states[j - 1], steps[j - 1], k))
  }

  /** One step moves a command out of the queue, or into the log, exactly by committing its update. */
  lemma MoveStep(cfg: Config, s: State, step: Step, k: Key)
    requires Inv(cfg, s) && Enabled(cfg, s, step)
    ensures cfg.deletesAfterUpdate ==>
              (Count(k in s.queue) + Count(step.Insert? && step.key == k)
               == Count(k in Apply(cfg, s, step).queue) + Count(StepCommits(s, step, k)))
    ensures cfg.insertsElsewhere ==>
              (s.log[k] + Count(StepCommits(s, step, k)) == Apply(cfg, s, step).log[k])
  {
    if StepCommits(s, step, k) {
      assert Locked(s.runners[step.r]) == Some(k);
      assert k in s.queue;
    }
  }

  /** With delete-after-update, every insertion is still queued or was committed exactly once: over
      a whole run with any number of runners there is at most one committed update per insertion. */
  lemma {:induction false} AtMostOneUpdatePerInsertion(
    cfg: Config, states: seq<State>, steps: seq<Step>, j: nat, k: Key)
    requires IsRun(cfg, states, steps) && j <= |steps| && cfg.deletesAfterUpdate
    ensures CommittedUpdates(states, steps, j, k) + Count(k in states[j].queue)
         == Count(k in states[0].queue) + Insertions(steps, j, k)
  {
    if j > 0 {
      AtMostOneUpdatePerInsertion(cfg, states, steps, j - 1, k);
      InvHolds(cfg, states, steps, j - 1);
      assert Happens(cfg, states, steps, j - 1);
      MoveStep(cfg, states[j - 1], steps[j - 1], k);
    }
  }

  /** With insert-elsewhere, the log holds one row more for every update that was committed, and no
      other. */
  lemma {:induction false} LoggedIffCommitted(
    cfg: Config, states: seq<State>, steps: seq<Step>, j: nat, k: Key)
    requires IsRun(cfg, states, steps) && j <= |steps| && cfg.insertsElsewhere
    ensures states[j].log[k] == states[0].log[k] + CommittedUpdates(states, steps, j, k)
  {
    if j > 0 {
      LoggedIffCommitted(cfg, states, steps, j - 1, k);
      InvHolds(cfg, states, steps, j - 1);
      assert Happens(cfg, states, steps, j - 1);
      MoveStep(cfg, states[j - 1], steps[j - 1], k);
    }
  }

  /** With both triggers, in every committed state of every run: what was ever put in is in the
      queue or in the log, once per insertion. */
  lemma CommandsConserved(cfg: Config, states: seq<State>, steps: seq<Step>, j: nat, k: Key)
    requires IsRun(cfg, states, steps) && j <= |steps|
    requires cfg.deletesAfterUpdate && cfg.insertsElsewhere
    ensures Count(k in states[j].queue) + states[j].log[k]
         == Count(k in states[0].queue) + states[0].log[k] + Insertions(steps, j, k)
  {
    AtMostOneUpdatePerInsertion(cfg, states, steps, j, k);
    LoggedIffCommitted(cfg, states, steps, j, k);
  }

  /** For a command put in just once, "exactly one of queue and log". */
  lemma InExactlyOneTable(cfg: Config, states: seq<State>, steps: seq<Step>, j: nat, k: Key)
    requires IsRun(cfg, states, steps) && j <= |steps|
    requires cfg.deletesAfterUpdate && cfg.insertsElsewhere
    requires Count(k in states[0].queue) + states[0].log[k] + Insertions(steps, j, k) == 1
    ensures Count(k in states[j].queue) + states[j].log[k] == 1
    ensures k in states[j].queue <==> k !in states[j].log
  {
    CommandsConserved(cfg, states, steps, j, k);
  }
}
