/** Which command a select returns, for a notification and otherwise, in every run of the protocol. */
module QueueSelects {
  import opened Prelude
  import opened CompositeText
  import opened ReselectRound
  import opened QueueProtocol
  import opened QueueSafety
  import opened QueueRounds

  // ----- For a notification -----

  /** The select for a notification returns the very command notified of, NULL subids being equal, and
      nothing exactly if that one is not queued or is locked, whatever was executed in the round. */
  lemma NotifiedSelectIs(cfg: Config, states: seq<State>, steps: seq<Step>, i: nat, r: nat, found: Option<Key>)
    requires IsRun(cfg, states, steps) && i < |steps| && steps[i] == Of(r, Select(found))
    ensures r in states[i].runners
    ensures states[i].runners[r].notify.Some? ==>
              var k := states[i].runners[r].notify.value;
              (found == None || found == Some(k)) && (found == None <==> k !in states[i].queue || k in states[i].locks)
  {
    assert Happens(cfg, states, steps, i);
  }

  predicate TurnsElsewhere(act: Action) {
    act.TakeNotify? || act.StartPoll? || act.Connect?
  }

  lemma NotifyStep(cfg: Config, s: State, run: Runner, act: Action)
    requires MayAct(cfg, s, run, act) && !TurnsElsewhere(act)
    ensures RunnerAfter(cfg, s, run, act).notify == run.notify
  {
    hide MayHear, MayReturn;
  }

  lemma {:induction false} NotifyKept(cfg: Config, states: seq<State>, steps: seq<Step>, i: nat, j: nat, r: nat)
    requires IsRun(cfg, states, steps) && i <= j <= |steps| && r in states[i].runners
    requires Never(steps, r, i, j, TurnsElsewhere)
    ensures r in states[j].runners && states[j].runners[r].notify == states[i].runners[r].notify
  {
    if i < j {
      NotifyKept(cfg, states, steps, i, j - 1, r);
      RunnerMoves(cfg, states, steps, j - 1, r);
      hide IsRun, Apply, Enabled, MayAct, RunnerAfter, TurnsElsewhere;
      var last := steps[j - 1];
      if last.Of? && last.r == r { NotifyStep(cfg, states[j - 1], states[j - 1].runners[r], last.act); }
    }
  }

  /** A payload as `queue_cmd__notify` sends it reaches its queue as sent, and no other queue. */
  lemma PayloadReachesItsQueue(identity: string, class_: string, id: string, subid: Option<string>)
    requires Plain(Some(class_)) && Plain(Some(id)) && Plain(subid)
    ensures var payload := AsTextCompositeValue([Some(class_), Some(id), subid]);
            Shaped(payload)
            && Addressed(identity, Parsed(payload))
               == if class_ == identity then Some(NotifyCmd(class_, id, subid)) else None
  {
    hide Plain, Parsed, AsTextCompositeValue, Shaped;
    RoundTripIff([Some(class_), Some(id), subid]);
  }

  /** From the payload to the row: a runner that was handed such a payload heeds it exactly if it names
      its queue, and its next select is for that command: it returns that row, or none where it is not
      queued or is locked. */
  lemma NotifiedCommandIsSelected(
    cfg: Config, states: seq<State>, steps: seq<Step>, i: nat, j: nat, r: nat,
    class_: string, id: string, subid: Option<string>, found: Option<Key>)
    requires Plain(Some(class_)) && Plain(Some(id)) && Plain(subid)
    requires IsRun(cfg, states, steps) && i < j < |steps| && r in states[i].runners
    requires states[i].runners[r].phase == Notice(AsTextCompositeValue([Some(class_), Some(id), subid]))
    requires steps[i].Of? && steps[i].r == r && (steps[i].act.TakeNotify? || steps[i].act.IgnoreNotify?)
    requires Never(steps, r, i + 1, j, TurnsElsewhere) && steps[j] == Of(r, Select(found))
    ensures steps[i].act == if class_ == cfg.identity then TakeNotify(Key(id, subid)) else IgnoreNotify
    ensures class_ == cfg.identity ==>
              var k := Key(id, subid);
              (found == None || found == Some(k)) && (found == None <==> k !in states[j].queue || k in states[j].locks)
  {
    PayloadReachesItsQueue(cfg.identity, class_, id, subid);
    RunnerMoves(cfg, states, steps, i, r);
    HeedsPayload(cfg, states[i], states[i].runners[r], steps[i].act);
    hide IsRun, MayAct, RunnerAfter, Plain, AsTextCompositeValue, Shaped, Parsed, TurnsElsewhere;
    NotifyKept(cfg, states, steps, i + 1, j, r);
    NotifiedSelectIs(cfg, states, steps, j, r, found);
  }

  lemma HeedsPayload(cfg: Config, s: State, run: Runner, act: Action)
    requires MayAct(cfg, s, run, act) && run.phase.Notice? && Shaped(run.phase.payload)
    ensures var heard := Addressed(cfg.identity, Parsed(run.phase.payload));
            (act.TakeNotify? ==> heard.Some? && act.key == Key(heard.value.id, heard.value.subid)
                                 && RunnerAfter(cfg, s, run, act).notify == Some(act.key))
            && (act.IgnoreNotify? ==> heard.None?)
  {
  }

  // ----- For the round -----

  /** A regular select returns nothing exactly if every queued command is locked or was recorded in the
      round; else one that is neither, and unless the round is a random one, the oldest of those. */
  lemma RegularSelectIs(
    cfg: Config, states: seq<State>, steps: seq<Step>, r: nat, i: nat, j: nat, found: Option<Key>)
    requires IsRun(cfg, states, steps) && i <= j < |steps|
    requires RoundStarts(states[i], r) && Never(steps, r, i, j, ChangesRound)
    requires steps[j] == Of(r, Select(found)) && Regular(states[j], r)
    ensures var queue, locks := states[j].queue, states[j].locks;
            && (found == None <==> forall k | k in queue :: k in locks || Recorded(states, steps, r, k, i, j))
            && (found.Some? ==>
                  var k := found.value;
                  && k in queue && k !in locks && !Recorded(states, steps, r, k, i, j)
                  && (cfg.everyNth.None? || states[j].runners[r].round % cfg.everyNth.value != 0 ==>
                        forall other | other in queue && other !in locks && !Recorded(states, steps, r, other, i, j) ::
                          queue[k] <= queue[other]))
  {
    assert Happens(cfg, states, steps, j);
    var s := states[j];
    var run := s.runners[r];
    forall k ensures k in s.queue && k !in s.locks ==>
                       (Selectable(s, run, k) <==> !Recorded(states, steps, r, k, i, j))
    {
      if k in s.queue && k !in s.locks { QualifiesIff(cfg, states, steps, r, k, i, j); }
    }
    ReturnsOf(cfg, s, run, found);
    hide IsRun, Happens, Recorded, MayReturn;
  }

  lemma ReturnsOf(cfg: Config, s: State, run: Runner, found: Option<Key>)
    requires MayReturn(cfg, s, run, found) && run.notify.None?
    ensures forall k :: Selectable(s, run, k) ==> k in s.queue && k !in s.locks
    ensures found == None <==> forall k | k in s.queue :: !Selectable(s, run, k)
    ensures found.Some? ==> Selectable(s, run, found.value)
    ensures found.Some? && (cfg.everyNth.None? || run.round % cfg.everyNth.value != 0) ==>
              forall other | other in s.queue && Selectable(s, run, other) :: s.queue[found.value] <= s.queue[other]
  {
  }

  /** Which of the two statements a regular select is, throughout a session: without every-nth
      randomization always the oldest-first one; with it, the random one exactly in the rounds whose
      number says so. */
  lemma RegularKindIs(cfg: Config, states: seq<State>, steps: seq<Step>, r: nat, i: nat, j: nat)
    requires IsRun(cfg, states, steps) && i < j <= |steps|
    requires steps[i] == Of(r, Connect) && Never(steps, r, i + 1, j, RestartsCounter)
    requires Regular(states[j], r)
    ensures var kind := KindOf(cfg, states[j].runners[r]);
            if cfg.everyNth.None? then kind == Oldest
            else kind == if Randomized(RoundNumber(RoundsEntered(steps, r, i + 1, j)), cfg.everyNth.value) then Random
                         else Oldest
  {
    RoundIsNumbered(cfg, states, steps, r, i, j);
    hide IsRun, Happens, RoundNumber, RoundsEntered;
  }

  /** And the round after m others can be entered as long as its number fits 31 bits. */
  lemma RoundFitsIff(cfg: Config, states: seq<State>, steps: seq<Step>, r: nat, i: nat, j: nat)
    requires IsRun(cfg, states, steps) && i < j <= |steps|
    requires steps[i] == Of(r, Connect) && Never(steps, r, i + 1, j, RestartsCounter)
    requires r in states[j].runners && states[j].runners[r].phase.RoundOver? && states[j].runners[r].connected
    ensures Enabled(cfg, states[j], Of(r, EnterRound))
            <==> RoundNumber(RoundsEntered(steps, r, i + 1, j) + 1) < 0x8000_0000
  {
    var m := RoundsEntered(steps, r, i + 1, j);
    RoundIsNumbered(cfg, states, steps, r, i, j);
    MthCall(m + 1);
    hide IsRun, Happens, RoundsEntered, SettingAfter, Entered;
  }

  // ----- Where a round starts -----

  predicate NotOnlyTime(act: Action) {
    !act.Tick?
  }

  lemma {:induction false} OnlyTimePassed(cfg: Config, states: seq<State>, steps: seq<Step>, i: nat, j: nat, r: nat)
    requires IsRun(cfg, states, steps) && i <= j <= |steps| && r in states[i].runners
    requires Never(steps, r, i, j, NotOnlyTime)
    ensures r in states[j].runners
    ensures states[j].runners[r] == states[i].runners[r].(clock := states[j].runners[r].clock)
  {
    if i < j {
      OnlyTimePassed(cfg, states, steps, i, j - 1, r);
      RunnerMoves(cfg, states, steps, j - 1, r);
      hide IsRun, Apply, Enabled, MayAct;
    }
  }

  /** A new session starts a round with nothing recorded; so does entering a round, once its transaction
      is committed. */
  lemma ConnectStartsRound(cfg: Config, states: seq<State>, steps: seq<Step>, i: nat, r: nat)
    requires IsRun(cfg, states, steps) && i < |steps| && steps[i] == Of(r, Connect)
    ensures RoundStarts(states[i + 1], r)
  {
    assert Happens(cfg, states, steps, i);
    RunnerMoves(cfg, states, steps, i, r);
  }

  lemma EnteredRoundStarts(cfg: Config, states: seq<State>, steps: seq<Step>, i: nat, j: nat, r: nat)
    requires IsRun(cfg, states, steps) && i < j < |steps|
    requires steps[i] == Of(r, EnterRound) && Never(steps, r, i + 1, j, NotOnlyTime) && steps[j] == Of(r, Finish(true))
    ensures RoundStarts(states[j + 1], r) && states[j + 1].runners[r].connected
  {
    assert Happens(cfg, states, steps, i);
    RunnerMoves(cfg, states, steps, i, r);
    OnlyTimePassed(cfg, states, steps, i + 1, j, r);
    RunnerMoves(cfg, states, steps, j, r);
    hide IsRun, Apply, Enabled, Happens;
  }
}
