/**
 The loops of `CmdQueueRunner::_run`, proved to take no step that the protocol does not allow: what a
 runner does with its connection, from any moment on and whatever everybody else does meanwhile, is
 part of a run of the protocol.
 */
module QueueRunner {
  import opened Prelude
  import opened QueueProtocol
  import opened CompositeText

  // ----- The other end of the connection -----

  /** Between two things a runner does, its clock goes on and its connection may be lost. */
  ghost predicate Idle(a: Runner, b: Runner) {
    b == a.(clock := b.clock, connected := b.connected) && a.clock <= b.clock && (b.connected ==> a.connected)
  }

  datatype Selected = Failed | Row(key: Key) | NoRow

  datatype TransactionStatus = Calm | InError | Unknown

  datatype Polled = Interrupted | PollError | TimedOut | Ready(input: bool, kill: bool)

  /** What the runner has of the round in variables of its own. */
  predicate Same(a: Runner, b: Runner) {
    a.round == b.round && a.deadline == b.deadline && a.notify == b.notify
  }

  predicate AtEnd(phase: Phase) {
    phase.Updated? || phase.Settled? || phase.Aborted? || phase.Closed?
  }

  /** What this runner has done so far, in order. */
  ghost function Own(steps: seq<Step>, me: nat): seq<Action> {
    if steps == [] then []
    else
      var last := steps[|steps| - 1];
      Own(steps[..|steps| - 1], me) + if last.Of? && last.r == me && Deliberate(last.act) then [last.act] else []
  }

  /** Not the clock, and not the network. */
  predicate Deliberate(act: Action) {
    !act.Tick? && !act.ConnectionLost?
  }

  lemma OwnGrows(steps: seq<Step>, step: Step, me: nat)
    ensures Own(steps + [step], me)
         == Own(steps, me) + if step.Of? && step.r == me && Deliberate(step.act) then [step.act] else []
  {
    assert (steps + [step])[..|steps|] == steps;
  }

  function SelectEnd(result: Selected): Action {
    match result
    case Failed => SelectFails
    case Row(key) => Select(Some(key))
    case NoRow => Select(None)
  }

  function PollEnd(polled: Polled): Action {
    match polled
    case Interrupted => PollInterrupted
    case PollError => PollFails
    case TimedOut => PollTimesOut
    case Ready(input, kill) => PollReports(input, kill)
  }

  /** The database with all its clients, and what has happened since they started.  Every method is a
      call by one runner; anything may have happened before it takes effect. */
  class Postgres {
    const cfg: Config
    var state: State
    ghost var states: seq<State>
    ghost var steps: seq<Step>

    ghost predicate Valid()
      reads this
    {
      IsRun(cfg, states, steps) && state == states[|steps|]
    }

    constructor (cfg: Config, initial: State)
      requires Initial(initial)
      ensures Valid() && this.cfg == cfg && state == initial && steps == []
    {
      this.cfg, state, states, steps := cfg, initial, [initial], [];
    }

    /** One step of the protocol, by anybody. */
    method Do(step: Step)
      requires Valid() && Enabled(cfg, state, step)
      modifies this
      ensures Valid() && state == Apply(cfg, old(state), step)
      ensures steps == old(steps) + [step]
    {
      hide Enabled, Apply, Initial, Happens;
      Extend(cfg, states, steps, step);
      state := Apply(cfg, state, step);
      states, steps := states + [state], steps + [step];
    }

    /** A step of this runner's own, which changes nothing of it but what RunnerAfter says. */
    method Act(me: nat, act: Action)
      requires Valid() && me in state.runners && MayAct(cfg, state, state.runners[me], act) && Deliberate(act)
      modifies this
      ensures Valid() && me in state.runners && old(steps) <= steps
      ensures MayAct(cfg, old(state), old(state.runners[me]), act)
      ensures state.runners[me] == RunnerAfter(cfg, old(state), old(state.runners[me]), act)
      ensures Own(steps, me) == old(Own(steps, me)) + [act]
    {
      hide MayAct, RunnerAfter, IsRun, LocksAfter, Commits, Own;
      OwnGrows(steps, Of(me, act), me);
      Do(Of(me, act));
    }

    /** Anything that can happen of itself. */
    method Others(me: nat)
      requires Valid() && me in state.runners
      modifies this
      ensures Valid() && me in state.runners && old(steps) <= steps
      ensures Idle(old(state.runners[me]), state.runners[me])
      ensures Own(steps, me) == old(Own(steps, me))
    {
      hide IsRun, MayAct, RunnerAfter, LocksAfter, Commits, Own;
      var n: nat := *;
      ghost var was := state.runners[me];
      while n > 0
        invariant Valid() && me in state.runners && old(steps) <= steps
        invariant Idle(was, state.runners[me])
        invariant Own(steps, me) == old(Own(steps, me))
      {
        n := n - 1;
        var step := SomeStep();
        if Enabled(cfg, state, step) && (step.Of? && step.r == me ==> !Deliberate(step.act)) {
          IdleStep(cfg, state, step, me, was);
          OwnGrows(steps, step, me);
          Do(step);
        }
      }
    }

    method SomeStep() returns (step: Step) {
      step := *;
    }

    /** At least until then. */
    method PassTime(me: nat, until: int)
      requires Valid() && me in state.runners
      modifies this
      ensures Valid() && me in state.runners && old(steps) <= steps
      ensures Idle(old(state.runners[me]), state.runners[me]) && until <= state.runners[me].clock
      ensures Own(steps, me) == old(Own(steps, me))
    {
      if state.runners[me].clock < until {
        hide IsRun, LocksAfter, Commits, Own, MayHear;
        OwnGrows(steps, Of(me, Tick(until)), me);
        Do(Of(me, Tick(until)));
      }
    }

    /** A new session, unless `runner_session_start` fails; and the clock after it. */
    method Connect(me: nat) returns (ok: bool, now: int)
      requires Valid() && me in state.runners && state.runners[me].phase.Offline?
      modifies this
      ensures Valid() && me in state.runners && old(steps) <= steps
      ensures ok ==>
                state.runners[me].phase.AtSelect? && state.runners[me].round == 0 && state.runners[me].deadline == now
                && state.runners[me].notify.None?
      ensures !ok ==> state.runners[me].phase == Leaving(NoSession)
      ensures Own(steps, me) == old(Own(steps, me)) + [if ok then Action.Connect else SessionStartFails]
    {
      hide IsRun, Own, MayHear;
      Others(me);
      ok := *;
      if ok {
        Act(me, Action.Connect);
      } else {
        Act(me, SessionStartFails);
      }
      now := state.runners[me].clock;
    }

    method BeginTransaction(me: nat)
      requires Valid() && me in state.runners && state.runners[me].phase.AtSelect?
      modifies this
      ensures Valid() && me in state.runners && old(steps) <= steps
      ensures state.runners[me].phase.InTransaction? && Same(old(state.runners[me]), state.runners[me])
      ensures Own(steps, me) == old(Own(steps, me)) + [Begin]
    {
      hide IsRun, Own, MayHear;
      Others(me);
      Act(me, Begin);
    }

    /** One of the three prepared statements; and the clock after it. */
    method ExecSelect(me: nat, kind: SelectKind, key: Option<Key>) returns (result: Selected, now: int)
      requires Valid() && me in state.runners && state.runners[me].phase.InTransaction?
      requires kind == KindOf(cfg, state.runners[me]) && key == state.runners[me].notify
      modifies this
      ensures Valid() && me in state.runners && old(steps) <= steps
      ensures key.Some? && result.Row? ==> result.key == key.value
      ensures result.Failed? ==> state.runners[me].phase.Aborted? && Same(old(state.runners[me]), state.runners[me])
      ensures result.Row? ==>
                state.runners[me].phase == Executing(result.key)
                && Same(old(state.runners[me]), state.runners[me])
      ensures result.NoRow? ==>
                state.runners[me].round == old(state.runners[me]).round
                && state.runners[me].notify == old(state.runners[me]).notify
                && if key.Some? then
                     state.runners[me].phase.Settled? && state.runners[me].deadline == old(state.runners[me]).deadline
                   else
                     state.runners[me].phase.RoundOver?
                     && state.runners[me].deadline == now + cfg.intervalMsec * NANOS_PER_MSEC
      ensures Own(steps, me) == old(Own(steps, me)) + [SelectEnd(result)]
    {
      hide IsRun, Own, MayHear;
      Others(me);
      var found := SomeKey();
      now := state.runners[me].clock;
      var ok: bool := *;
      if ok && state.runners[me].connected && MayReturn(cfg, state, state.runners[me], found) {
        Act(me, Select(found));
        result := if found.Some? then Row(found.value) else NoRow;
      } else {
        Act(me, SelectFails);
        result := Failed;
      }
    }

    method SomeKey() returns (key: Option<Key>) {
      key := *;
    }

    method CommandRuns(me: nat, key: Key)
      requires Valid() && me in state.runners && state.runners[me].phase == Executing(key)
      modifies this
      ensures Valid() && me in state.runners && old(steps) <= steps
      ensures state.runners[me].phase == Executed(key) && Same(old(state.runners[me]), state.runners[me])
      ensures Own(steps, me) == old(Own(steps, me)) + [RunEnds]
    {
      hide IsRun, Own, MayHear;
      Others(me);
      Act(me, RunEnds);
    }

    method ExecUpdate(me: nat, key: Key) returns (ok: bool)
      requires Valid() && me in state.runners && state.runners[me].phase == Executed(key)
      modifies this
      ensures Valid() && me in state.runners && old(steps) <= steps
      ensures state.runners[me].phase == (if ok then Updated(key) else UpdateFailed(key))
              && Same(old(state.runners[me]), state.runners[me])
      ensures Own(steps, me) == old(Own(steps, me)) + [if ok then UpdateSucceeds else UpdateFails]
    {
      hide IsRun, Own, MayHear;
      Others(me);
      ok := *;
      if ok && state.runners[me].connected {
        Act(me, UpdateSucceeds);
      } else {
        ok := false;
        Act(me, UpdateFails);
      }
    }

    method RollbackFailedUpdate(me: nat, key: Key)
      requires Valid() && me in state.runners && state.runners[me].phase == UpdateFailed(key)
      modifies this
      ensures Valid() && me in state.runners && old(steps) <= steps
      ensures state.runners[me].phase == RolledBack(key) && Same(old(state.runners[me]), state.runners[me])
      ensures Own(steps, me) == old(Own(steps, me)) + [Rollback]
    {
      hide IsRun, Own, MayHear;
      Others(me);
      Act(me, Rollback);
    }

    method RememberFailedUpdate(me: nat, key: Key)
      requires Valid() && me in state.runners && state.runners[me].phase == RolledBack(key)
      modifies this
      ensures Valid() && me in state.runners && old(steps) <= steps
      ensures state.runners[me].phase.Closed? && Same(old(state.runners[me]), state.runners[me])
      ensures Own(steps, me) == old(Own(steps, me)) + [Remember]
    {
      hide IsRun, Own, MayHear;
      Others(me);
      Act(me, Remember);
    }

    /** The round entered; None where the call fails or its result does not fit an int, which ends the thread. */
    method EnterReselectRound(me: nat) returns (round: Option<nat>)
      requires Valid() && me in state.runners && state.runners[me].phase.RoundOver?
      modifies this
      ensures Valid() && me in state.runners && old(steps) <= steps
      ensures round.None? ==> state.runners[me].phase == Leaving(NoRound)
      ensures round.Some? ==>
                state.runners[me].phase.Settled?
                && Same(old(state.runners[me]).(round := round.value), state.runners[me])
      ensures Own(steps, me) == old(Own(steps, me)) + [if round.Some? then EnterRound else EnterRoundFails]
    {
      hide IsRun, Own, MayHear;
      Others(me);
      var ok: bool := *;
      if ok && MayAct(cfg, state, state.runners[me], EnterRound) {
        Act(me, EnterRound);
        round := Some(state.runners[me].round);
      } else {
        Act(me, EnterRoundFails);
        round := None;
      }
    }

    /** A lost connection may go unnoticed. */
    method Status(me: nat) returns (status: TransactionStatus)
      requires Valid() && me in state.runners && AtEnd(state.runners[me].phase)
      modifies this
      ensures Valid() && me in state.runners && old(steps) <= steps
      ensures status.Unknown? ==> state.runners[me].phase.Offline?
      ensures !status.Unknown? ==>
                state.runners[me].phase == old(state.runners[me]).phase
                && Same(old(state.runners[me]), state.runners[me])
      ensures status.InError? ==> state.runners[me].phase.Aborted?
      ensures Own(steps, me) == old(Own(steps, me)) + (if status.Unknown? then [Finish(false)] else [])
    {
      hide IsRun, Own, MayHear;
      Others(me);
      var noticed: bool := *;
      if noticed && !state.runners[me].connected {
        Act(me, Finish(false));
        return Unknown;
      }
      var failed: bool := *;
      status := if failed && state.runners[me].phase.Aborted? then InError else Calm;
    }

    /** COMMIT, the result of which nobody looks at, or ROLLBACK. */
    method EndTransaction(me: nat, commit: bool) returns (ghost ok: bool)
      requires Valid() && me in state.runners && AtEnd(state.runners[me].phase) && (!commit ==>
                state.runners[me].phase.Aborted?)
      modifies this
      ensures Valid() && me in state.runners && old(steps) <= steps
      ensures state.runners[me].phase.Polling? && Same(old(state.runners[me]), state.runners[me])
      ensures Own(steps, me) == old(Own(steps, me)) + [Finish(ok)]
    {
      hide IsRun, Own, MayHear;
      Others(me);
      var done: bool := *;
      ok := done || !state.runners[me].connected;
      Act(me, Finish(done || !state.runners[me].connected));
    }

    method Notifies(me: nat) returns (payload: Option<string>)
      requires Valid() && me in state.runners && state.runners[me].phase.Polling?
      modifies this
      ensures Valid() && me in state.runners && old(steps) <= steps
      ensures state.runners[me].phase == (if payload.Some? then Notice(payload.value) else Polling)
              && Same(old(state.runners[me]), state.runners[me])
      ensures Own(steps, me) == old(Own(steps, me)) + (if payload.Some? then [NotifyArrives(payload.value)] else [])
    {
      hide IsRun, Own, MayHear;
      Others(me);
      payload := SomePayload();
      if payload.Some? {
        Act(me, NotifyArrives(payload.value));
      }
    }

    method SomePayload() returns (payload: Option<string>) {
      payload := *;
    }

    /** The runner turns to a command that it was notified of. */
    method Heed(me: nat, key: Key)
      requires Valid() && me in state.runners && state.runners[me].phase.Notice?
               && MayHear(cfg, state.runners[me].phase.payload, Some(key))
      modifies this
      ensures Valid() && me in state.runners && old(steps) <= steps
      ensures state.runners[me].phase.AtSelect? && state.runners[me].notify == Some(key)
      ensures state.runners[me].round == old(state.runners[me]).round
              && state.runners[me].deadline == old(state.runners[me]).deadline
      ensures Own(steps, me) == old(Own(steps, me)) + [TakeNotify(key)]
    {
      hide IsRun, Own, MayHear;
      Act(me, TakeNotify(key));
    }

    method Ignore(me: nat)
      requires Valid() && me in state.runners && state.runners[me].phase.Notice?
               && MayHear(cfg, state.runners[me].phase.payload, None)
      modifies this
      ensures Valid() && me in state.runners && old(steps) <= steps
      ensures state.runners[me].phase.Polling?
      ensures state.runners[me].round == old(state.runners[me]).round
              && state.runners[me].deadline == old(state.runners[me]).deadline
      ensures Own(steps, me) == old(Own(steps, me)) + [IgnoreNotify]
    {
      hide IsRun, Own, MayHear;
      Act(me, IgnoreNotify);
    }

    method Now(me: nat) returns (now: int)
      requires me in state.runners
      ensures now == state.runners[me].clock
    {
      now := state.runners[me].clock;
    }

    /** Waits for so many milliseconds at the most. */
    method Poll(me: nat, timeout: int) returns (polled: Polled)
      requires Valid() && me in state.runners && state.runners[me].phase.Polling?
      requires timeout == WaitMsec(state.runners[me].deadline, state.runners[me].clock)
      modifies this
      ensures Valid() && me in state.runners && old(steps) <= steps
      ensures match polled
              case Interrupted => state.runners[me].phase.Polling?
              case PollError => state.runners[me].phase == Leaving(PollBroken)
              case TimedOut => state.runners[me].phase.AtSelect? && state.runners[me].notify.None?
              case Ready(input, kill) => state.runners[me].phase == Woken(input, kill) && (input || kill)
      ensures state.runners[me].round == old(state.runners[me]).round
              && state.runners[me].deadline == old(state.runners[me]).deadline
      ensures Own(steps, me) == old(Own(steps, me)) + [StartPoll, PollEnd(polled)]
    {
      hide IsRun, Own, MayHear;
      Act(me, StartPoll);
      Others(me);
      polled := *;
      if polled == Ready(false, false) {
        polled := Interrupted;
      }
      if polled.TimedOut? {
        PassTime(me, state.runners[me].phase.until);
      }
      Act(me, PollEnd(polled));
    }

    method ConsumeInput(me: nat) returns (ok: bool)
      requires Valid() && me in state.runners && state.runners[me].phase.Woken? && state.runners[me].phase.input
      modifies this
      ensures Valid() && me in state.runners && old(steps) <= steps
      ensures if ok then state.runners[me].phase == Woken(false, old(state.runners[me]).phase.kill)
              else state.runners[me].phase.Offline?
      ensures state.runners[me].round == old(state.runners[me]).round
              && state.runners[me].deadline == old(state.runners[me]).deadline
      ensures Own(steps, me) == old(Own(steps, me)) + [if ok then Action.ConsumeInput else InputLost]
    {
      hide IsRun, Own, MayHear;
      Others(me);
      ok := *;
      if ok {
        Act(me, Action.ConsumeInput);
      } else {
        Act(me, InputLost);
      }
    }

    method ReadKillPipe(me: nat)
      requires Valid() && me in state.runners && state.runners[me].phase == Woken(false, true)
      modifies this
      ensures Valid() && me in state.runners && old(steps) <= steps
      ensures state.runners[me].phase == Leaving(Told)
      ensures state.runners[me].round == old(state.runners[me]).round
              && state.runners[me].deadline == old(state.runners[me]).deadline
      ensures Own(steps, me) == old(Own(steps, me)) + [HeedStop]
    {
      hide IsRun, Own, MayHear;
      Act(me, HeedStop);
    }

    method PollAgain(me: nat)
      requires Valid() && me in state.runners && state.runners[me].phase == Woken(false, false)
      modifies this
      ensures Valid() && me in state.runners && old(steps) <= steps
      ensures state.runners[me].phase.Polling?
      ensures state.runners[me].round == old(state.runners[me]).round
              && state.runners[me].deadline == old(state.runners[me]).deadline
      ensures Own(steps, me) == old(Own(steps, me)) + [Resume]
    {
      hide IsRun, Own, MayHear;
      Act(me, Resume);
    }

    /** The thread returns, and its connection with it. */
    method Leave(me: nat)
      requires Valid() && me in state.runners && state.runners[me].phase.Leaving?
      modifies this
      ensures Valid() && me in state.runners && old(steps) <= steps
      ensures state.runners[me].phase.Stopped?
      ensures Own(steps, me) == old(Own(steps, me)) + [Stop]
    {
      hide IsRun, Own, MayHear;
      Act(me, Stop);
    }
  }

  lemma IdleStep(cfg: Config, s: State, step: Step, me: nat, was: Runner)
    requires me in s.runners && Idle(was, s.runners[me]) && Enabled(cfg, s, step)
    requires step.Of? && step.r == me ==> !Deliberate(step.act)
    ensures me in Apply(cfg, s, step).runners && Idle(was, Apply(cfg, s, step).runners[me])
  {
    hide MayHear;
  }

  lemma Hears(cfg: Config, payload: string, heard: Option<NotifyCmd>)
    requires Shaped(payload) ==> heard == Addressed(cfg.identity, Parsed(payload))
    ensures MayHear(cfg, payload, KeyOf(heard))
  {
  }

  // ----- What the loops do -----

  datatype Next = Stay | GoOn | GoBack | Exit

  /** A row is run and updated, or rolled back and remembered; no row means that the round is over,
      unless it was a NOTIFY's select; or the select itself fails. */
  predicate Handles(acts: seq<Action>, notified: bool) {
    || acts == [SelectFails]
    || acts == (if notified then [Select(None)] else [Select(None), EnterRound])
    || (acts != [] && acts[0].Select? && acts[0].found.Some?
        && (acts[1..] == [RunEnds, UpdateSucceeds] || acts[1..] == [RunEnds, UpdateFails, Rollback, Remember]))
  }

  /** One iteration of the (re)select loop: a transaction around one select and what it leads to.  Only
      a round that cannot be entered ends the thread. */
  predicate SelectTurn(acts: seq<Action>, notified: bool, next: Next) {
    match next
    case Stay => false
    case Exit => !notified && acts == [Begin, Select(None), EnterRoundFails]
    case _ =>
      && |acts| > 2 && acts[0] == Begin && Handles(acts[1..|acts| - 1], notified)
      && acts[|acts| - 1].Finish? && (next.GoBack? ==> !acts[|acts| - 1].ok)
  }

  lemma SelectTurnOf(handled: seq<Action>, notified: bool, end: Action)
    requires Handles(handled, notified) && end.Finish?
    ensures var acts := [Begin] + handled + [end];
            SelectTurn(acts, notified, GoOn) && (!end.ok ==> SelectTurn(acts, notified, GoBack))
  {
    var acts := [Begin] + handled + [end];
    assert acts[1..|acts| - 1] == handled;
  }

  /** One wait in poll().  Only its failing ends the thread at once. */
  predicate PollTurn(acts: seq<Action>, next: Next, told: bool) {
    && |acts| > 1 && acts[0] == StartPoll
    && match next
       case GoOn => !told && acts[1..] == [PollTimesOut]
       case Exit => !told && acts[1..] == [PollFails]
       case GoBack => !told && |acts| == 3 && acts[1].PollReports? && acts[1].input && acts[2] == InputLost
       case Stay =>
         if told then
           acts[1..] == [PollReports(false, true), HeedStop]
           || acts[1..] == [PollReports(true, true), Action.ConsumeInput, HeedStop]
         else
           acts[1..] == [PollInterrupted] || acts[1..] == [PollReports(true, false), Action.ConsumeInput, Resume]
  }

  lemma PollTurnsOf()
    ensures PollTurn([StartPoll, PollEnd(Interrupted)], Stay, false)
    ensures PollTurn([StartPoll, PollEnd(PollError)], Exit, false)
    ensures PollTurn([StartPoll, PollEnd(TimedOut)], GoOn, false)
  {
  }

  lemma PollTurnOf(input: bool, kill: bool, more: seq<Action>, next: Next)
    requires input || kill
    requires if next.GoBack? then input && more == [InputLost]
             else
               next.Stay?
               && more == (if input then [Action.ConsumeInput] else []) + [if kill then HeedStop else Resume]
    ensures PollTurn([StartPoll, PollEnd(Ready(input, kill))] + more, next, next.Stay? && kill)
  {
    var acts := [StartPoll, PollReports(input, kill)] + more;
    assert acts[1..] == [PollReports(input, kill)] + more;
  }

  predicate Ignored(acts: seq<Action>) {
    |acts| == 2 && acts[0].NotifyArrives? && acts[1] == IgnoreNotify
  }

  predicate Heeded(acts: seq<Action>) {
    |acts| == 2 && acts[0].NotifyArrives? && acts[1].TakeNotify?
  }

  /** Turns of the NOTIFY/poll loop after which it goes around again. */
  ghost predicate Stays(acts: seq<Action>) {
    acts == []
    || exists i | 0 <= i < |acts| :: Stays(acts[..i]) && (Ignored(acts[i..]) || PollTurn(acts[i..], Stay, false))
  }

  lemma OneMoreStays(acts: seq<Action>, turn: seq<Action>)
    requires Stays(acts) && (Ignored(turn) || PollTurn(turn, Stay, false))
    ensures Stays(acts + turn)
  {
    var all := acts + turn;
    assert all[..|acts|] == acts && all[|acts|..] == turn;
  }

  /** How often a runner asked for a session, took a notification, or went into poll(). */
  function Turns(acts: seq<Action>): nat {
    if acts == [] then 0
    else Turns(acts[..|acts| - 1]) + Count(Counted(acts[|acts| - 1]))
  }

  predicate Counted(act: Action) {
    act.Connect? || act.SessionStartFails? || act.NotifyArrives? || act.StartPoll?
  }

  lemma {:induction false} OneTurn(acts: seq<Action>)
    requires acts != [] && forall i | 0 < i < |acts| :: !Counted(acts[i])
    ensures Turns(acts) == Count(Counted(acts[0]))
  {
    if |acts| > 1 {
      OneTurn(acts[..|acts| - 1]);
    } else {
      assert acts[..0] == [];
    }
  }

  lemma HandlesUncounted(acts: seq<Action>, notified: bool)
    requires Handles(acts, notified)
    ensures forall i | 0 <= i < |acts| :: !Counted(acts[i])
  {
    assert acts == [acts[0]] + acts[1..];
  }

  lemma TurnsOfTurns(acts: seq<Action>, notified: bool, next: Next, told: bool)
    ensures Ignored(acts) || Heeded(acts) || PollTurn(acts, next, told) ==> Turns(acts) == 1
    ensures SelectTurn(acts, notified, next) ==> Turns(acts) == 0
  {
    hide Turns, SelectTurn;
    if Ignored(acts) || Heeded(acts) || PollTurn(acts, next, told) {
      assert acts == [acts[0]] + acts[1..];
      OneTurn(acts);
    }
    if SelectTurn(acts, notified, next) { NoTurnOfSelect(acts, notified, next); }
  }

  lemma NoTurnOfSelect(acts: seq<Action>, notified: bool, next: Next)
    requires SelectTurn(acts, notified, next)
    ensures Turns(acts) == 0
  {
    hide Turns, Handles;
    if !next.Exit? {
      var handled := acts[1..|acts| - 1];
      HandlesUncounted(handled, notified);
      assert forall i | 0 < i < |acts| - 1 :: acts[i] == handled[i - 1];
    }
    OneTurn(acts);
  }

  lemma {:induction false} TurnsOfBoth(a: seq<Action>, b: seq<Action>)
    ensures Turns(a + b) == Turns(a) + Turns(b)
  {
    if b == [] {
      assert a + b == a;
    } else {
      TurnsOfBoth(a, b[..|b| - 1]);
      assert (a + b)[..|a + b| - 1] == a + b[..|b| - 1];
    }
  }

  // ----- The loops -----

  class CmdQueueRunner {
    const me: nat
    const cfg: Config
    var keepRunning: bool
    var reselectRound: int
    var reselectNextWhen: int
    var notifyCmd: Option<NotifyCmd>
    var observed: nat  // how many more turns the thread is watched for

    constructor (me: nat, cfg: Config, observed: nat)
      ensures this.me == me && this.cfg == cfg && this.observed == observed && keepRunning
    {
      this.me, this.cfg, this.observed := me, cfg, observed;
      keepRunning, reselectRound, reselectNextWhen, notifyCmd := true, 0, 0, None;
    }

    /** What this runner has done so far. */
    ghost function Done(db: Postgres): seq<Action>
      reads db
    {
      Own(db.steps, me)
    }

    /** Part of a run of the protocol, in this phase. */
    ghost predicate In(db: Postgres, phase: Phase)
      reads db
    {
      db.Valid() && db.cfg == cfg && me in db.state.runners && db.state.runners[me].phase == phase
    }

    /** The runner's variables hold what the protocol says of it. */
    ghost predicate Agrees(db: Postgres)
      reads this, db
    {
      db.Valid() && db.cfg == cfg && me in db.state.runners
      && reselectRound == db.state.runners[me].round && reselectNextWhen == db.state.runners[me].deadline
    }

    ghost predicate AtSelect(db: Postgres)
      reads this, db
    {
      Agrees(db) && In(db, Phase.AtSelect) && db.state.runners[me].notify == KeyOf(notifyCmd)
    }

    method ReadPayload(payload: string) returns (heard: Option<NotifyCmd>)
      ensures Shaped(payload) ==> heard == Addressed(cfg.identity, Parsed(payload))
      ensures heard.Some? ==> heard.value.class_ == cfg.identity
    {
      var fields: seq<Field>;
      if Shaped(payload) {
        fields := FromTextCompositeValue(payload);
      } else {
        fields := SomeFields();
      }
      if |fields| != 3 {
        return None;
      }
      if fields[0].None? {
        return None;
      }
      if fields[1].None? {
        return None;
      }
      if fields[0].value == cfg.identity {
        heard := Some(NotifyCmd(fields[0].value, fields[1].value, fields[2]));
      } else {
        heard := None;
      }
    }

    method SomeFields() returns (fields: seq<Field>) {
      fields := *;
    }

    /** A selected row: run, updated, or rolled back and remembered. */
    method RunSelected(db: Postgres, key: Key) returns (ghost acts: seq<Action>)
      requires Agrees(db) && In(db, Executing(key))
      modifies db
      ensures Agrees(db) && AtEnd(db.state.runners[me].phase) && old(db.steps) <= db.steps
      ensures Done(db) == old(Done(db)) + acts
      ensures acts == [RunEnds, UpdateSucceeds] || acts == [RunEnds, UpdateFails, Rollback, Remember]
    {
      hide IsRun, Own;
      db.CommandRuns(me, key);
      var ok := db.ExecUpdate(me, key);
      acts := [RunEnds, UpdateSucceeds];
      if !ok {
        db.RollbackFailedUpdate(me, key);
        db.RememberFailedUpdate(me, key);
        acts := [RunEnds, UpdateFails, Rollback, Remember];
      }
    }

    /** The select that notification or round call for, and what its result calls for. */
    method SelectAndHandle(db: Postgres) returns (ok: bool, ghost acts: seq<Action>)
      requires Agrees(db) && In(db, InTransaction) && db.state.runners[me].notify == KeyOf(notifyCmd)
      modifies this`reselectRound, this`reselectNextWhen, db
      ensures old(db.steps) <= db.steps && Done(db) == old(Done(db)) + acts
      ensures ok ==> Agrees(db) && AtEnd(db.state.runners[me].phase) && Handles(acts, notifyCmd.Some?)
      ensures !ok ==> In(db, Leaving(NoRound)) && notifyCmd.None? && acts == [Select(None), EnterRoundFails]
    {
      hide IsRun, Own;
      ok := true;
      var kind, key := Oldest, None;
      if notifyCmd.Some? {
        kind, key := Notified, Some(Key(notifyCmd.value.id, notifyCmd.value.subid));
      } else if cfg.everyNth.Some? && reselectRound % cfg.everyNth.value == 0 {
        kind := Random;
      }
      var result, now := db.ExecSelect(me, kind, key);
      acts := [SelectEnd(result)];
      match result {
        case Failed =>
        case Row(key) =>
          ghost var ran := RunSelected(db, key);
          acts := acts + ran;
          assert acts[1..] == ran;
        case NoRow =>
          if notifyCmd.None? {
            reselectNextWhen := now + cfg.intervalMsec * NANOS_PER_MSEC;
            var round := db.EnterReselectRound(me);
            if round.None? {
              return false, [Select(None), EnterRoundFails];
            }
            reselectRound := round.value;
            acts := [Select(None), EnterRound];
          }
      }
    }

    /** One iteration of the (re)select loop, up to the end of its transaction. */
    method SelectAndRun(db: Postgres) returns (next: Next, ghost acts: seq<Action>)
      requires AtSelect(db)
      modifies this`reselectRound, this`reselectNextWhen, db
      ensures old(db.steps) <= db.steps && Done(db) == old(Done(db)) + acts
      ensures SelectTurn(acts, notifyCmd.Some?, next)
      ensures next.GoOn? ==> Agrees(db) && In(db, Polling)
      ensures next.GoBack? ==> In(db, Offline)
      ensures next.Exit? ==> In(db, Leaving(NoRound))
    {
      hide IsRun, Own, Handles;
      db.BeginTransaction(me);
      var ok;
      ghost var handled;
      ok, handled := SelectAndHandle(db);
      if !ok {
        acts := [Begin] + handled;
        assert acts == [Begin, Select(None), EnterRoundFails];
        return Exit, acts;
      }
      var status := db.Status(me);
      ghost var end := Finish(false);
      if status.Unknown? {
        next := GoBack;
      } else {
        ghost var done := db.EndTransaction(me, !status.InError?);
        end := Finish(done);
        next := GoOn;
      }
      acts := [Begin] + handled + [end];
      SelectTurnOf(handled, notifyCmd.Some?, end);
    }

    /** Waits for input, for a request to stop, or for the deadline. */
    method PollOnce(db: Postgres) returns (next: Next, ghost acts: seq<Action>)
      requires Agrees(db) && In(db, Polling) && notifyCmd.None? && keepRunning
      modifies this`keepRunning, db
      ensures old(db.steps) <= db.steps && Done(db) == old(Done(db)) + acts
      ensures PollTurn(acts, next, !keepRunning) && (!keepRunning ==> next.Stay?)
      ensures next.Stay? ==> if keepRunning then Agrees(db) && In(db, Polling) else In(db, Leaving(Told))
      ensures next.GoOn? ==> AtSelect(db)
      ensures next.GoBack? ==> In(db, Offline)
      ensures next.Exit? ==> In(db, Leaving(PollBroken))
    {
      hide IsRun, Own, PollTurn, PollEnd, WaitMsec, Truncated, MayHear;
      PollTurnsOf();
      var now := db.Now(me);
      var timeLeft := Truncated(reselectNextWhen - now);
      if timeLeft < 0 {
        timeLeft := 0;
      }
      WaitIs(reselectNextWhen, now);
      var polled := db.Poll(me, timeLeft);
      acts := [StartPoll, PollEnd(polled)];
      match polled {
        case Interrupted =>
          next := Stay;
        case PollError =>
          next := Exit;
        case TimedOut =>
          next := GoOn;
        case Ready(input, kill) =>
          ghost var more;
          next, more := Respond(db, input, kill);
          PollTurnOf(input, kill, more, next);
          acts := acts + more;
      }
    }

    /** poll() reported something. */
    method Respond(db: Postgres, input: bool, kill: bool) returns (next: Next, ghost acts: seq<Action>)
      requires Agrees(db) && In(db, Woken(input, kill)) && (input || kill) && keepRunning
      modifies this`keepRunning, db
      ensures old(db.steps) <= db.steps && Done(db) == old(Done(db)) + acts
      ensures next == Stay || next == GoBack
      ensures next.Stay? ==>
                acts == (if input then [Action.ConsumeInput] else []) + [if kill then HeedStop else Resume]
                && keepRunning == !kill
                && if keepRunning then Agrees(db) && In(db, Polling) else In(db, Leaving(Told))
      ensures next.GoBack? ==> input && keepRunning && acts == [InputLost] && In(db, Offline)
    {
      hide IsRun, Own;
      acts := [];
      if input {
        var ok := db.ConsumeInput(me);
        if !ok {
          return GoBack, [InputLost];
        }
        acts := [Action.ConsumeInput];
      }
      if kill {
        db.ReadKillPipe(me);
        keepRunning := false;
      } else {
        db.PollAgain(me);
      }
      acts := acts + [if kill then HeedStop else Resume];
      next := Stay;
    }

    /** A notification was taken from libpq's queue. */
    method TakeNotification(db: Postgres, payload: string) returns (next: Next, ghost acts: seq<Action>)
      requires Agrees(db) && In(db, Notice(payload)) && notifyCmd.None?
      modifies this`notifyCmd, db
      ensures old(db.steps) <= db.steps && Done(db) == old(Done(db)) + acts
      ensures next == Stay || next == GoOn
      ensures next.Stay? ==> Ignored([NotifyArrives(payload)] + acts) && Agrees(db) && In(db, Polling)
      ensures next.GoOn? ==> Heeded([NotifyArrives(payload)] + acts) && AtSelect(db)
    {
      hide IsRun, Own, Addressed, Parsed, Shaped, MayHear;
      var heard := ReadPayload(payload);
      Hears(cfg, payload, heard);
      if heard.Some? {
        notifyCmd := heard;
        db.Heed(me, Key(heard.value.id, heard.value.subid));
        return GoOn, [TakeNotify(Key(heard.value.id, heard.value.subid))];
      }
      db.Ignore(me);
      return Stay, [IgnoreNotify];
    }

    /** One turn of the NOTIFY/poll loop. */
    method AwaitTurn(db: Postgres) returns (next: Next, ghost acts: seq<Action>)
      requires Agrees(db) && In(db, Polling) && keepRunning
      modifies this`keepRunning, this`notifyCmd, db
      ensures old(db.steps) <= db.steps && Done(db) == old(Done(db)) + acts && Turns(acts) == 1
      ensures !keepRunning ==> next.Stay? && PollTurn(acts, Stay, true) && In(db, Leaving(Told))
      ensures keepRunning ==>
                match next
                case Stay => (Ignored(acts) || PollTurn(acts, Stay, false)) && Agrees(db) && In(db, Polling)
                case GoOn => (Heeded(acts) || PollTurn(acts, GoOn, false)) && AtSelect(db)
                case GoBack => PollTurn(acts, GoBack, false) && In(db, Offline)
                case Exit => PollTurn(acts, Exit, false) && In(db, Leaving(PollBroken))
    {
      hide IsRun, Own, PollTurn, Turns, Ignored, Heeded, KeyOf;
      notifyCmd := None;
      var payload := db.Notifies(me);
      if payload.Some? {
        next, acts := TakeNotification(db, payload.value);
        acts := [NotifyArrives(payload.value)] + acts;
      } else {
        next, acts := PollOnce(db);
      }
      TurnsOfTurns(acts, false, next, !keepRunning);
    }

    /** The NOTIFY/poll loop: until a command is heard of, the deadline comes, or the thread is to stop.
        `stays` are the turns after which it went around again. */
    method AwaitNext(db: Postgres) returns (next: Next, ghost stays: seq<Action>, ghost last: seq<Action>)
      requires Agrees(db) && In(db, Polling) && keepRunning
      modifies this`keepRunning, this`notifyCmd, this`observed, db
      ensures old(db.steps) <= db.steps && Done(db) == old(Done(db)) + (stays + last)
      ensures Stays(stays) && Turns(stays + last) + observed == old(observed)
      ensures !keepRunning ==> next.Stay? && PollTurn(last, Stay, true) && In(db, Leaving(Told))
      ensures keepRunning ==>
                match next
                case Stay => observed == 0 && last == [] && In(db, Polling)
                case GoOn => (Heeded(last) || PollTurn(last, GoOn, false)) && AtSelect(db)
                case GoBack => PollTurn(last, GoBack, false) && In(db, Offline)
                case Exit => PollTurn(last, Exit, false) && In(db, Leaving(PollBroken))
    {
      hide IsRun, Own, PollTurn, Ignored, Heeded;
      ghost var done := Done(db);
      next, stays, last := Stay, [], [];
      while observed > 0
        invariant Agrees(db) && In(db, Polling) && keepRunning && old(db.steps) <= db.steps
        invariant Done(db) == done + stays && next.Stay? && last == []
        invariant Stays(stays) && Turns(stays) + observed == old(observed)
        decreases observed
      {
        hide Stays, Turns;
        observed := observed - 1;
        next, last := AwaitTurn(db);
        assert done + stays + last == done + (stays + last);
        TurnsOfBoth(stays, last);
        if !next.Stay? || !keepRunning {
          return;
        }
        OneMoreStays(stays, last);
        stays, last := stays + last, [];
      }
      assert stays + last == stays;
    }

    /** The (re)select loop, from the start of a session: until it goes back to connecting, returns at
        once, or ends because the thread is told to stop. */
    method RunSession(db: Postgres) returns (next: Next, ghost acts: seq<Action>)
      requires AtSelect(db) && keepRunning
      modifies this`keepRunning, this`reselectRound, this`reselectNextWhen, this`notifyCmd, this`observed, db
      ensures old(db.steps) <= db.steps && Done(db) == old(Done(db)) + acts
      ensures Turns(acts) + observed == old(observed)
      ensures match next
              case Stay => if keepRunning then observed == 0 else In(db, Leaving(Told)) && EndsWith(acts, HeedStop)
              case GoBack => keepRunning && In(db, Offline)
              case Exit => keepRunning && ((In(db, Leaving(NoRound)) && EndsWith(acts, EnterRoundFails))
                                           || (In(db, Leaving(PollBroken)) && EndsWith(acts, PollFails)))
              case GoOn => false
      ensures db.Valid() && db.cfg == cfg && me in db.state.runners
      ensures next.Stay? && keepRunning ==> !db.state.runners[me].phase.Stopped?
    {
      hide IsRun, Own, Turns, SelectTurn, PollTurn, Heeded, Stays, KeyOf, EndsWith;
      ghost var done := Done(db);
      acts, next := [], Stay;
      NoTurns();
      while keepRunning && observed > 0
        invariant AtSelect(db) && keepRunning && old(db.steps) <= db.steps
        invariant Done(db) == done + acts && next.Stay?
        invariant Turns(acts) + observed == old(observed)
        decreases observed
      {
        ghost var turn;
        next, turn := SelectAndRun(db);
        SelectTurnEnds(acts, turn, notifyCmd.Some?, next);
        AddedTurn(done, acts, turn);
        acts := acts + turn;
        if !next.GoOn? {
          return;
        }
        ghost var stays, last;
        next, stays, last := AwaitNext(db);
        AwaitEnds(acts, stays, last, next, !keepRunning);
        AddedTurn(done, acts, stays + last);
        acts := acts + (stays + last);
        if !next.GoOn? {
          return;
        }
        next := Stay;
      }
    }

    /** The thread, for as long as it is watched: it takes every turn it is watched for, unless it
        returns, and it returns for a cause only. */
    method Run(db: Postgres) returns (ghost acts: seq<Action>)
      requires In(db, Offline) && keepRunning
      modifies this, db
      ensures db.Valid() && old(db.steps) <= db.steps && me in db.state.runners
      ensures Done(db) == old(Done(db)) + acts && Turns(acts) + observed == old(observed)
      ensures observed > 0 || !keepRunning ==> db.state.runners[me].phase.Stopped?
      ensures db.state.runners[me].phase.Stopped? ==> ReturnsFor(acts, keepRunning)
    {
      hide IsRun, Own, Turns, ReturnsFor, EndsWith, KeyOf;
      ghost var done := Done(db);
      acts := [];
      NoTurns();
      while keepRunning && observed > 0
        invariant In(db, Offline) && keepRunning && old(db.steps) <= db.steps
        invariant Done(db) == done + acts && Turns(acts) + observed == old(observed)
        decreases observed
      {
        observed := observed - 1;
        var ok, now := db.Connect(me);
        ghost var first := [if ok then Action.Connect else SessionStartFails];
        ConnectIsTurn(acts, ok);
        AddedTurn(done, acts, first);
        acts := acts + first;
        if !ok {
          db.Leave(me);
          Returned(done, acts, keepRunning);
          acts := acts + [Stop];
          return;
        }
        reselectRound := 0;
        reselectNextWhen := now;
        notifyCmd := None;
        NoKey();
        ghost var session;
        var next;
        next, session := RunSession(db);
        AddedTurn(done, acts, session);
        EndsLater(acts, session);
        acts := acts + session;
        if next.Exit? || !keepRunning {
          db.Leave(me);
          Returned(done, acts, keepRunning);
          acts := acts + [Stop];
          return;
        }
        if next.Stay? {
          return;
        }
      }
    }
  }

  predicate EndsWith(acts: seq<Action>, act: Action) {
    acts != [] && acts[|acts| - 1] == act
  }

  /** The last thing done before returning. */
  predicate ReturnsFor(acts: seq<Action>, keepRunning: bool) {
    EndsWith(acts, Stop)
    && var before := acts[..|acts| - 1];
       if keepRunning then
         EndsWith(before, SessionStartFails) || EndsWith(before, EnterRoundFails) || EndsWith(before, PollFails)
       else EndsWith(before, HeedStop)
  }

  lemma NoTurns()
    ensures Turns([]) == 0
  {
  }

  lemma NoKey()
    ensures KeyOf(None) == None
  {
  }

  lemma AddedTurn(done: seq<Action>, acts: seq<Action>, turn: seq<Action>)
    ensures done + acts + turn == done + (acts + turn)
    ensures Turns(acts + turn) == Turns(acts) + Turns(turn)
  {
    TurnsOfBoth(acts, turn);
  }

  lemma EndsLater(acts: seq<Action>, more: seq<Action>)
    ensures forall act :: EndsWith(more, act) ==> EndsWith(acts + more, act)
  {
  }

  lemma SelectTurnEnds(acts: seq<Action>, turn: seq<Action>, notified: bool, next: Next)
    requires SelectTurn(turn, notified, next)
    ensures !next.Stay? && Turns(turn) == 0 && (next.Exit? ==> EndsWith(acts + turn, EnterRoundFails))
  {
    TurnsOfTurns(turn, notified, next, false);
  }

  lemma AwaitEnds(acts: seq<Action>, stays: seq<Action>, last: seq<Action>, next: Next, told: bool)
    requires last == [] || Heeded(last) || PollTurn(last, next, told)
    ensures last != [] ==> Turns(stays + last) > 0
    ensures last != [] && next.Exit? && PollTurn(last, next, told) ==> EndsWith(acts + (stays + last), PollFails)
    ensures PollTurn(last, Stay, true) ==> EndsWith(acts + (stays + last), HeedStop)
    ensures Heeded(last) || PollTurn(last, next, told) ==> last != []
  {
    if last != [] {
      hide Turns;
      TurnsOfTurns(last, false, next, told);
      TurnsOfBoth(stays, last);
    }
  }

  lemma ConnectIsTurn(acts: seq<Action>, ok: bool)
    ensures Turns([if ok then Action.Connect else SessionStartFails]) == 1
    ensures !ok ==> EndsWith(acts + [if ok then Action.Connect else SessionStartFails], SessionStartFails)
  {
    OneTurn([if ok then Action.Connect else SessionStartFails]);
  }

  lemma Returned(done: seq<Action>, acts: seq<Action>, keepRunning: bool)
    requires if keepRunning then
               EndsWith(acts, SessionStartFails) || EndsWith(acts, EnterRoundFails) || EndsWith(acts, PollFails)
             else EndsWith(acts, HeedStop)
    ensures ReturnsFor(acts + [Stop], keepRunning) && Turns(acts + [Stop]) == Turns(acts)
    ensures done + acts + [Stop] == done + (acts + [Stop])
  {
    assert (acts + [Stop])[..|acts|] == acts;
    assert !Counted(Stop);
  }

  /** duration_cast to milliseconds, towards zero */
  function Truncated(nanos: int): int {
    if nanos >= 0 then nanos / NANOS_PER_MSEC else -(-nanos / NANOS_PER_MSEC)
  }

  lemma WaitIs(deadline: int, now: int)
    ensures WaitMsec(deadline, now) == if Truncated(deadline - now) < 0 then 0 else Truncated(deadline - now)
  {
  }
}
