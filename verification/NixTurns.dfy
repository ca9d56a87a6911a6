/**
 * The poll loop of `NixQueueCmd::run_cmd` as the calls it makes: what one turn of it may be, and what
 * all its turns together come to.
 */
module NixTurns {
  import opened Prelude

  const SIGABRT := 6
  const SIGKILL := 9
  const SIGTERM := 15

  /** Clock readings and durations are in microseconds. */
  const GRACE_MICROS := 1_000_000

  const PIPE_BUFFER_SIZE := 512

  datatype Errno = EINTR | EAGAIN | OtherError(code: int)

  datatype WaitStatus = ExitedWith(code: int) | SignaledBy(sig: int) | Neither

  datatype Sent = Sent(sig: int, reading: int)

  datatype Events = Events(out: bool, inError: bool, outIn: bool, outHup: bool, errIn: bool, errHup: bool)

  datatype Fd = Out | Err

  /** What poll() is asked to look at. */
  datatype Interest = Interest(in0: bool, wantsOut: bool, out1: bool, err2: bool)

  /** A call that asks the kernel for something, with its answer. */
  datatype Call =
    | Waited(wait: bool, res: int, status: WaitStatus)
    | Polled(reading: int, interest: Interest, timeout: int, count: int, ev: Events, errno: Errno)
    | ReadFrom(fd: Fd, n: int, errno: Errno)
    | Wrote(n: int, errno: Errno)

  datatype Exit = StartFailed | WaitFailed | HardError | AfterKill | AllRead | Unfinished

  /** What the supervisor is asked to do. */
  datatype Job = Job(stdin: string, start: int, timeout: int)

  /** The variables of the loop: bytes of stdin sent, which descriptors are still polled, how far the
      command has been asked to stop, and what the last waitpid had to say. */
  datatype Loop = Loop(
    sent: int, in0: bool, out1: bool, err2: bool,
    triedTerm: bool, termTime: int,
    reaped: bool, res: int, status: WaitStatus)

  const AT_FIRST := Loop(0, true, true, true, false, 0, false, 0, Neither)

  function Truncated(micros: int): int {
    if micros >= 0 then micros / 1000 else -((-micros) / 1000)
  }

  /** Milliseconds to wait; -1 is for as long as it takes. */
  function PollTimeout(l: Loop, timeout: int, elapsed: int): (r: int)
    ensures r >= -1
    ensures r == -1 <==> !l.reaped && timeout == 0
    ensures !l.reaped && timeout != 0 ==>
              var left := timeout - elapsed + if l.triedTerm then GRACE_MICROS else 0;
              if left <= 0 then r == 0 else r * 1000 <= left < (r + 1) * 1000
  {
    if l.reaped then 0
    else if timeout == 0 then -1
    else
      var ms := Truncated(timeout - elapsed + if l.triedTerm then GRACE_MICROS else 0);
      if ms < 0 then 0 else ms
  }

  // ----- The calls, one by one -----

  /** How a series of calls ends: as it should, with a hard error, or with nobody watching any more. */
  datatype End = Finished | Failed | Cut

  /** Reads from one descriptor, each giving something, up to one that does not. */
  predicate Reads(calls: seq<Call>, fd: Fd, end: End) {
    && (forall i | 0 <= i < |calls| :: calls[i].ReadFrom? && calls[i].fd == fd)
    && (forall i | 0 <= i < |calls| - Count(!end.Cut?) :: calls[i].n > 0)
    && (!end.Cut? ==>
          calls != []
          && var last := calls[|calls| - 1];
             last.n <= 0 && (end.Failed? <==> last.n < 0 && last.errno != EAGAIN))
  }

  /** Writes, of which those that were interrupted count for nothing; any other error is the end. */
  predicate Writes(calls: seq<Call>, end: End) {
    && (forall i | 0 <= i < |calls| :: calls[i].Wrote?)
    && (forall i | 0 <= i < |calls| - Count(end.Failed?) :: calls[i].n >= 0 || calls[i].errno == EINTR)
    && (end.Failed? ==> calls != [] && var last := calls[|calls| - 1]; last.n < 0 && last.errno != EINTR)
  }

  function Written(calls: seq<Call>): nat {
    if calls == [] then 0
    else
      var last := calls[|calls| - 1];
      Written(calls[..|calls| - 1]) + if last.Wrote? && last.n > 0 then last.n else 0
  }

  /** What is made of the events of one poll: for each descriptor in turn, its calls and how they end. */
  datatype Answer = Answer(writes: seq<Call>, fed: End, outs: seq<Call>, out: End, errs: seq<Call>, err: End)
  {
    function Calls(): seq<Call> {
      writes + (outs + errs)
    }
  }

  predicate ReadStage(calls: seq<Call>, fd: Fd, wanted: bool, before: End, end: End) {
    if !before.Finished? then calls == [] && end == before
    else if !wanted then calls == [] && end.Finished?
    else Reads(calls, fd, end)
  }

  predicate Answers(a: Answer, ev: Events) {
    && (if ev.out then Writes(a.writes, a.fed) else a.writes == [] && a.fed.Finished?)
    && ReadStage(a.outs, Out, ev.outIn, a.fed, a.out)
    && ReadStage(a.errs, Err, ev.errIn, a.out, a.err)
  }

  /** When a poll reported nothing and the child still runs: what the clock calls for. */
  predicate Escalates(from: Loop, to: Loop, exit: Exit, before: seq<Sent>, after: seq<Sent>, reading: int, j: Job) {
    if reading - j.start < j.timeout then
      exit.Unfinished? && to == from && after == before
    else if !from.triedTerm then
      exit.Unfinished? && to == from.(triedTerm := true, termTime := reading)
      && after == before + [Sent(SIGTERM, reading)]
    else if reading - from.termTime > GRACE_MICROS then
      exit.AfterKill? && to == from.(res := to.res, status := to.status) && after == before + [Sent(SIGKILL, reading)]
    else
      exit.Unfinished? && to == from && after == before
  }

  /** Once around the loop: the call of waitpid unless the child was reaped, that of poll unless the wait
      failed, the answer to its events, and the wait after a SIGKILL. */
  datatype Turn = Turn(
    from: Loop, to: Loop, exit: Exit,
    wait: seq<Call>, poll: seq<Call>, answer: Answer, last: seq<Call>,
    before: seq<Sent>, after: seq<Sent>, reading: int)
  {
    function Calls(): seq<Call> {
      wait + poll + answer.Calls() + last
    }

    /** How many times it was watched for: waits do not count. */
    function Cost(): nat {
      |poll| + |answer.Calls()|
    }
  }

  const NOTHING := Answer([], Finished, [], Finished, [], Finished)

  /** The loop's variables after the first call. */
  function AfterWait(from: Loop, wait: seq<Call>): Loop {
    if wait != [] && wait[0].Waited? then
      from.(reaped := wait[0].res > 0, res := wait[0].res, status := wait[0].status)
    else from
  }

  /** The loop's variables after a poll's events were dealt with. */
  function AfterEvents(l: Loop, a: Answer, ev: Events): Loop {
    l.(sent := l.sent + Written(a.writes), in0 := l.in0 && !ev.out && !ev.inError,
       out1 := l.out1 && !ev.outHup, err2 := l.err2 && !ev.errHup)
  }

  /** What follows a poll, case by case. */
  predicate Reacts(poll: Call, l: Loop, to: Loop, exit: Exit, answer: Answer, last: seq<Call>,
                   before: seq<Sent>, after: seq<Sent>, reading: int, j: Job)
    requires poll.Polled?
  {
    && (if poll.count > 0 then Answers(answer, poll.ev) else answer == NOTHING)
    && (if exit.AfterKill? then |last| == 1 && last[0].Waited? && last[0].wait else last == [])
    && if poll.count == 0 && !l.reaped then Escalates(l, to, exit, before, after, reading, j)
       else
         && after == before
         && exit == (if poll.count < 0 then if poll.errno == EINTR then Unfinished else HardError
                     else if poll.count == 0 then AllRead
                     else if answer.err.Failed? then HardError else Unfinished)
         && (poll.count <= 0 ==> to == l)
         && (poll.count > 0 && answer.err.Finished? ==>
               to == AfterEvents(l, answer, poll.ev) && (poll.ev.out ==> to.sent == |j.stdin|))
  }

  /** Every branch of the loop's body: which calls it makes, what it asks for, and where it leads. */
  predicate Turned(t: Turn, j: Job) {
    var l := AfterWait(t.from, t.wait);
    && (if t.from.reaped then t.wait == [] else |t.wait| == 1 && t.wait[0].Waited? && !t.wait[0].wait)
    && if l.res < 0 then
         t.poll == [] && t.answer == NOTHING && t.last == [] && t.to == l && t.exit.WaitFailed? && t.after == t.before
       else
         && |t.poll| == 1 && t.poll[0].Polled?
         && t.poll[0].interest == Interest(l.in0, j.stdin != "", l.out1, l.err2)
         && t.poll[0].timeout == PollTimeout(l, j.timeout, t.poll[0].reading - j.start)
         && Reacts(t.poll[0], l, t.to, t.exit, t.answer, t.last, t.before, t.after, t.reading, j)
  }

  /** Turn after turn, from the loop's beginning. */
  predicate Run(turns: seq<Turn>, j: Job) {
    && (forall i | 0 <= i < |turns| :: Turned(turns[i], j))
    && (turns != [] ==> turns[0].from == AT_FIRST && turns[0].before == [])
    && forall i | 0 <= i < |turns| - 1 :: Leads(turns[i], turns[i + 1])
  }

  predicate Leads(t: Turn, u: Turn) {
    t.exit.Unfinished? && !t.answer.err.Cut? && u.from == t.to && u.before == t.after
  }

  // ----- What all turns together come to, without their variables -----

  /** The poll of this turn reported something of this kind. */
  predicate SawStdin(t: Turn) {
    t.poll != [] && t.poll[0].Polled? && t.poll[0].count > 0 && (t.poll[0].ev.out || t.poll[0].ev.inError)
  }

  predicate SawHangUp(t: Turn, fd: Fd) {
    t.poll != [] && t.poll[0].Polled? && t.poll[0].count > 0
    && if fd.Out? then t.poll[0].ev.outHup else t.poll[0].ev.errHup
  }

  /** The wait of this turn found the child gone. */
  predicate SawEnd(t: Turn) {
    t.wait != [] && t.wait[0].Waited? && t.wait[0].res > 0
  }

  /** The child is waited for until it was found gone.  Stdin is polled until a poll reported it writable
      or in error, and for writing only if there is input; the others until a poll reported them hung up. */
  predicate Asks(turns: seq<Turn>, i: nat, stdin: string)
    requires i < |turns|
  {
    && (turns[i].wait == [] <==> exists m | 0 <= m < i :: SawEnd(turns[m]))
    && (turns[i].poll != [] && turns[i].poll[0].Polled? ==>
          var interest := turns[i].poll[0].interest;
          && (interest.in0 <==> forall m | 0 <= m < i :: !SawStdin(turns[m]))
          && (interest.wantsOut <==> stdin != "")
          && (interest.out1 <==> forall m | 0 <= m < i :: !SawHangUp(turns[m], Out))
          && (interest.err2 <==> forall m | 0 <= m < i :: !SawHangUp(turns[m], Err)))
  }

  function WrittenBy(turns: seq<Turn>): nat {
    if turns == [] then 0 else WrittenBy(turns[..|turns| - 1]) + Written(turns[|turns| - 1].answer.writes)
  }

  predicate ReadToEnd(t: Turn, fd: Fd) {
    exists i | 0 <= i < |t.Calls()| :: t.Calls()[i].ReadFrom? && t.Calls()[i].fd == fd && t.Calls()[i].n <= 0
  }

  /** Whatever a poll reported is dealt with before the next turn. */
  predicate Serves(turns: seq<Turn>, i: nat, stdin: string)
    requires i < |turns|
  {
    var t := turns[i];
    t.poll != [] && t.poll[0].Polled? && t.poll[0].count > 0 && t.exit.Unfinished? && !t.answer.err.Cut? ==>
      && (t.poll[0].ev.out ==> WrittenBy(turns[..i + 1]) == |stdin|)
      && (t.poll[0].ev.outIn ==> ReadToEnd(t, Out))
      && (t.poll[0].ev.errIn ==> ReadToEnd(t, Err))
  }

  /** A poll that reported nothing, with the child still there and the timeout past. */
  predicate IsOverdue(turns: seq<Turn>, i: nat, j: Job)
    requires i < |turns|
  {
    && turns[i].poll != [] && turns[i].poll[0].Polled? && turns[i].poll[0].count == 0
    && (forall m | 0 <= m <= i :: !SawEnd(turns[m]))
    && turns[i].reading - j.start >= j.timeout
  }

  predicate FirstOverdue(turns: seq<Turn>, i: nat, j: Job)
    requires i < |turns|
  {
    IsOverdue(turns, i, j) && forall m | 0 <= m < i :: !IsOverdue(turns, m, j)
  }

  /** The last turn comes more than a second after the first overdue one, and is overdue too. */
  predicate KillIsDue(turns: seq<Turn>, first: nat, j: Job)
    requires first < |turns|
  {
    && first < |turns| - 1 && IsOverdue(turns, |turns| - 1, j)
    && turns[|turns| - 1].reading - turns[first].reading > 1_000_000
  }

  /** By the end of a turn: no signal while none is overdue; 15 from the first that is; 9 with the first
      overdue one that is more than a second later, which is the last. */
  predicate Signals(turns: seq<Turn>, j: Job)
    requires turns != []
  {
    var last := turns[|turns| - 1];
    && ((forall i | 0 <= i < |turns| :: !IsOverdue(turns, i, j)) ==> last.after == [] && !last.exit.AfterKill?)
    && (forall f | 0 <= f < |turns| && FirstOverdue(turns, f, j) ::
          && last.after == [Sent(15, turns[f].reading)]
                           + (if KillIsDue(turns, f, j) then [Sent(9, last.reading)] else [])
          && (last.exit.AfterKill? <==> KillIsDue(turns, f, j)))
  }

  /** An error that supervision does not survive. */
  predicate IsHard(c: Call) {
    match c
    case Waited(_, _, _) => false
    case Polled(_, _, _, count, _, errno) => count < 0 && errno != EINTR
    case ReadFrom(_, n, errno) => n < 0 && errno != EAGAIN
    case Wrote(n, errno) => n < 0 && errno != EINTR
  }

  predicate AnyHard(calls: seq<Call>) {
    exists i | 0 <= i < |calls| :: IsHard(calls[i])
  }

  /** How a turn ends. */
  predicate Ends(turns: seq<Turn>, i: nat)
    requires i < |turns|
  {
    var t := turns[i];
    && (t.exit.WaitFailed? <==> t.wait != [] && t.wait[0].Waited? && t.wait[0].res < 0)
    && (t.exit.HardError? <==> AnyHard(t.Calls()))
    && (t.exit.AllRead? <==> t.poll != [] && t.poll[0].Polled? && t.poll[0].count == 0
                             && exists m | 0 <= m <= i :: SawEnd(turns[m]))
  }

  ghost predicate Lawful(turns: seq<Turn>, j: Job) {
    && (forall i | 0 <= i < |turns| :: Asks(turns, i, j.stdin) && Serves(turns, i, j.stdin) && Ends(turns, i))
    && (forall n | 0 < n <= |turns| :: Signals(turns[..n], j))
  }

  function CallsOf(turns: seq<Turn>): seq<Call> {
    if turns == [] then [] else CallsOf(turns[..|turns| - 1]) + turns[|turns| - 1].Calls()
  }

  function CostOf(turns: seq<Turn>): nat {
    if turns == [] then 0 else CostOf(turns[..|turns| - 1]) + turns[|turns| - 1].Cost()
  }

  lemma NoReads(fd: Fd)
    ensures Reads([], fd, Cut)
  {
  }

  lemma OneMoreRead(calls: seq<Call>, fd: Fd, n: int, errno: Errno, end: End)
    requires Reads(calls, fd, Cut)
    requires if n > 0 then end.Cut? else end == if n < 0 && errno != EAGAIN then Failed else Finished
    ensures Reads(calls + [ReadFrom(fd, n, errno)], fd, end)
  {
  }

  lemma NoWrites()
    ensures Writes([], Cut) && Written([]) == 0
  {
  }

  lemma OneMoreWrite(calls: seq<Call>, n: int, errno: Errno, end: End)
    requires Writes(calls, Cut)
    requires end == if n < 0 && errno != EINTR then Failed else Cut
    ensures Writes(calls + [Wrote(n, errno)], end)
    ensures Written(calls + [Wrote(n, errno)]) == Written(calls) + if n > 0 then n else 0
  {
    assert (calls + [Wrote(n, errno)])[..|calls|] == calls;
  }

  lemma AllWritten(calls: seq<Call>)
    requires Writes(calls, Cut)
    ensures Writes(calls, Finished)
  {
  }

  lemma ReadStages()
    ensures ReadStage([], Out, false, Finished, Finished) && ReadStage([], Err, false, Finished, Finished)
    ensures forall calls, fd, end :: Reads(calls, fd, end) ==> ReadStage(calls, fd, true, Finished, end)
    ensures forall wanted: bool, before: End :: !before.Finished? ==> ReadStage([], Err, wanted, before, before)
  {
  }

  function Unfed(writes: seq<Call>, end: End, ev: Events): Answer {
    Answer(writes, end, [], end, [], end)
  }

  lemma UnfedAnswers(writes: seq<Call>, end: End, ev: Events)
    requires Writes(writes, end) && !end.Finished? && ev.out
    ensures Answers(Unfed(writes, end, ev), ev) && Unfed(writes, end, ev).Calls() == writes
    ensures Unfed(writes, end, ev).err == end
  {
  }

  lemma Answered(a: Answer, ev: Events)
    requires if ev.out then Writes(a.writes, Finished) else a.writes == []
    requires a.fed.Finished?
    requires ReadStage(a.outs, Out, ev.outIn, Finished, a.out) && ReadStage(a.errs, Err, ev.errIn, a.out, a.err)
    ensures Answers(a, ev) && a.Calls() == a.writes + (a.outs + a.errs)
  {
  }

  /** Which of the cases of Escalates it is. */
  lemma EscalatesHow(l: Loop, signals: seq<Sent>, reading: int, j: Job)
    ensures reading - j.start < j.timeout ==> Escalates(l, l, Unfinished, signals, signals, reading, j)
    ensures reading - j.start >= j.timeout && !l.triedTerm ==>
              Escalates(l, l.(triedTerm := true, termTime := reading), Unfinished,
                        signals, signals + [Sent(SIGTERM, reading)], reading, j)
    ensures reading - j.start >= j.timeout && l.triedTerm && reading - l.termTime <= GRACE_MICROS ==>
              Escalates(l, l, Unfinished, signals, signals, reading, j)
    ensures reading - j.start >= j.timeout && l.triedTerm && reading - l.termTime > GRACE_MICROS ==>
              forall res, status :: Escalates(l, l.(res := res, status := status), AfterKill,
                                              signals, signals + [Sent(SIGKILL, reading)], reading, j)
  {
  }

  lemma EventsLead(from: Loop, l: Loop, a: Answer, ev: Events)
    requires a.err.Finished? ==>
               l == from.(sent := from.sent + Written(a.writes), in0 := from.in0 && !ev.out && !ev.inError,
                          out1 := from.out1 && !ev.outHup, err2 := from.err2 && !ev.errHup)
    ensures a.err.Finished? ==> l == AfterEvents(from, a, ev)
  {
  }

  lemma WaitTurned(t: Turn, j: Job, trace: seq<Call>)
    requires t.to == AfterWait(t.from, t.wait) && t.to.res < 0 && t.exit.WaitFailed? && t.after == t.before
    requires if t.from.reaped then t.wait == [] else |t.wait| == 1 && t.wait[0].Waited? && !t.wait[0].wait
    requires t.poll == [] && t.answer == NOTHING && t.last == []
    ensures Turned(t, j) && trace + t.wait == trace + t.Calls() && t.Cost() == 0
  {
    assert t.Calls() == t.wait;
  }

  lemma PollTurned(t: Turn, j: Job, trace: seq<Call>)
    requires if t.from.reaped then t.wait == [] else |t.wait| == 1 && t.wait[0].Waited? && !t.wait[0].wait
    requires |t.poll| == 1 && t.poll[0].Polled?
    requires var l := AfterWait(t.from, t.wait);
             l.res >= 0
             && t.poll[0].interest == Interest(l.in0, j.stdin != "", l.out1, l.err2)
             && t.poll[0].timeout == PollTimeout(l, j.timeout, t.poll[0].reading - j.start)
             && Reacts(t.poll[0], l, t.to, t.exit, t.answer, t.last, t.before, t.after, t.reading, j)
    ensures Turned(t, j) && trace + t.wait + t.poll + (t.answer.Calls() + t.last) == trace + t.Calls()
    ensures t.Cost() == 1 + |t.answer.Calls()|
  {
    var calls := t.answer.Calls();
    assert trace + t.wait + t.poll + (calls + t.last) == trace + (t.wait + t.poll + calls + t.last);
  }

  /** Where the turns so far have led. */
  predicate LedTo(turns: seq<Turn>, l: Loop, exit: Exit, signals: seq<Sent>) {
    if turns == [] then l == AT_FIRST && exit.Unfinished? && signals == []
    else turns[|turns| - 1].to == l && turns[|turns| - 1].exit == exit && turns[|turns| - 1].after == signals
  }

  predicate EndsCut(turns: seq<Turn>) {
    turns != [] && turns[|turns| - 1].answer.err.Cut?
  }

  lemma LedToMeans(turns: seq<Turn>, l: Loop, exit: Exit, signals: seq<Sent>)
    requires LedTo(turns, l, exit, signals)
    ensures turns != [] ==> turns[|turns| - 1].to == l && turns[|turns| - 1].exit == exit
    ensures signals == if turns == [] then [] else turns[|turns| - 1].after
  {
  }

  lemma NoTurns(j: Job, trace: seq<Call>)
    ensures Run([], j) && CallsOf([]) == [] && CostOf([]) == 0 && LedTo([], AT_FIRST, Unfinished, []) && !EndsCut([])
    ensures trace + [] + [] == trace && trace + [] == trace
  {
  }

  lemma OneMoreTurn(trace: seq<Call>, turns: seq<Turn>, t: Turn, j: Job)
    requires Run(turns, j) && LedTo(turns, t.from, Unfinished, t.before) && !EndsCut(turns) && Turned(t, j)
    ensures Run(turns + [t], j) && LedTo(turns + [t], t.to, t.exit, t.after)
    ensures EndsCut(turns + [t]) <==> t.answer.err.Cut?
    ensures trace + CallsOf(turns) + t.Calls() == trace + CallsOf(turns + [t])
    ensures CostOf(turns + [t]) == CostOf(turns) + t.Cost()
  {
    hide Run, Turned, LedTo;
    RunGrows(turns, t, j);
    CallsGrow(trace, turns, t);
  }

  lemma RunGrows(turns: seq<Turn>, t: Turn, j: Job)
    requires Run(turns, j) && LedTo(turns, t.from, Unfinished, t.before) && !EndsCut(turns) && Turned(t, j)
    ensures Run(turns + [t], j) && LedTo(turns + [t], t.to, t.exit, t.after)
  {
    hide Turned, CallsOf, CostOf, AT_FIRST;
    var all := turns + [t];
    assert turns != [] ==> Leads(turns[|turns| - 1], t);
    forall i | 0 <= i < |all| - 1 ensures Leads(all[i], all[i + 1]) {
      if i < |turns| - 1 { assert Leads(turns[i], turns[i + 1]); }
    }
    forall i | 0 <= i < |all| ensures Turned(all[i], j) {}
    hide Leads;
  }

  lemma CallsGrow(trace: seq<Call>, turns: seq<Turn>, t: Turn)
    ensures trace + CallsOf(turns) + t.Calls() == trace + CallsOf(turns + [t])
    ensures CostOf(turns + [t]) == CostOf(turns) + t.Cost()
  {
    assert (turns + [t])[..|turns|] == turns;
    assert trace + CallsOf(turns) + t.Calls() == trace + (CallsOf(turns) + t.Calls());
  }

  // ----- The laws of a run of the loop -----

  lemma NothingIsLawful(j: Job)
    ensures Lawful([], j)
  {
  }

  /** One turn that leads on. */
  lemma TurnMoves(t: Turn, j: Job)
    requires Turned(t, j) && t.exit.Unfinished? && !t.answer.err.Cut?
    ensures t.to.in0 <==> t.from.in0 && !SawStdin(t)
    ensures t.to.out1 <==> t.from.out1 && !SawHangUp(t, Out)
    ensures t.to.err2 <==> t.from.err2 && !SawHangUp(t, Err)
    ensures t.to.reaped <==> t.from.reaped || SawEnd(t)
    ensures t.to.sent == t.from.sent + Written(t.answer.writes) && t.to.res >= 0
  {
    hide Answers, Written, PollTimeout;
    NothingWritten();
  }

  lemma NothingWritten()
    ensures Written(NOTHING.writes) == 0
  {
  }

  lemma LedOn(turns: seq<Turn>, j: Job, i: nat)
    requires Run(turns, j) && i < |turns|
    ensures Turned(turns[i], j)
    ensures if i == 0 then turns[i].from == AT_FIRST && turns[i].before == []
            else
              var t := turns[i - 1];
              t.exit.Unfinished? && !t.answer.err.Cut? && turns[i].from == t.to && turns[i].before == t.after
  {
    hide Turned;
    if i > 0 { assert Leads(turns[i - 1], turns[i]); }
  }

  lemma {:induction false} FromPolls(turns: seq<Turn>, j: Job, i: nat)
    requires Run(turns, j) && i < |turns|
    ensures turns[i].from.in0 <==> forall m | 0 <= m < i :: !SawStdin(turns[m])
    ensures turns[i].from.out1 <==> forall m | 0 <= m < i :: !SawHangUp(turns[m], Out)
    ensures turns[i].from.err2 <==> forall m | 0 <= m < i :: !SawHangUp(turns[m], Err)
  {
    hide Run, Turned, SawStdin, SawHangUp, SawEnd, Written, Leads;
    LedOn(turns, j, i);
    if i > 0 {
      FromPolls(turns, j, i - 1);
      LedOn(turns, j, i - 1);
      TurnMoves(turns[i - 1], j);
    }
  }

  lemma {:induction false} FromChild(turns: seq<Turn>, j: Job, i: nat)
    requires Run(turns, j) && i < |turns|
    ensures turns[i].from.reaped <==> exists m | 0 <= m < i :: SawEnd(turns[m])
    ensures turns[i].from.sent == WrittenBy(turns[..i]) && turns[i].from.res >= 0
  {
    hide Run, Turned, SawStdin, SawHangUp, SawEnd, Written, WrittenBy, Leads;
    LedOn(turns, j, i);
    if i > 0 {
      FromChild(turns, j, i - 1);
      LedOn(turns, j, i - 1);
      TurnMoves(turns[i - 1], j);
      WrittenMore(turns, i - 1);
    } else {
      assert WrittenBy(turns[..0]) == 0 by { NoneWritten(turns); }
    }
  }

  lemma NoneWritten(turns: seq<Turn>)
    ensures WrittenBy(turns[..0]) == 0
  {
  }

  lemma AsksHolds(turns: seq<Turn>, j: Job, i: nat)
    requires Run(turns, j) && i < |turns|
    ensures Asks(turns, i, j.stdin)
  {
    hide Run, Turned, SawStdin, SawHangUp, SawEnd, WrittenBy;
    FromPolls(turns, j, i);
    FromChild(turns, j, i);
    LedOn(turns, j, i);
    TurnAsks(turns[i], j);
  }

  lemma TurnAsks(t: Turn, j: Job)
    requires Turned(t, j)
    ensures t.wait == [] <==> t.from.reaped
    ensures t.poll != [] ==> t.poll[0].Polled?
                             && t.poll[0].interest == Interest(t.from.in0, j.stdin != "", t.from.out1, t.from.err2)
  {
    hide Answers, PollTimeout, Reacts;
  }

  lemma ReadStageToEnd(t: Turn, before: seq<Call>, calls: seq<Call>, after: seq<Call>, fd: Fd)
    requires t.Calls() == before + calls + after && Reads(calls, fd, Finished)
    ensures ReadToEnd(t, fd)
  {
    var k := |before| + |calls| - 1;
    assert t.Calls()[k] == calls[|calls| - 1];
  }

  lemma ServesHolds(turns: seq<Turn>, j: Job, i: nat)
    requires Run(turns, j) && i < |turns|
    ensures Serves(turns, i, j.stdin)
  {
    hide Run, Turned, ReadToEnd, WrittenBy, Written, SawStdin, SawHangUp, SawEnd;
    var t := turns[i];
    if t.poll != [] && t.poll[0].Polled? && t.poll[0].count > 0 && t.exit.Unfinished? && !t.answer.err.Cut? {
      FromChild(turns, j, i);
      LedOn(turns, j, i);
      TurnMoves(t, j);
      TurnServes(t, j);
      WrittenMore(turns, i);
    }
  }

  lemma WrittenMore(turns: seq<Turn>, i: nat)
    requires i < |turns|
    ensures WrittenBy(turns[..i + 1]) == WrittenBy(turns[..i]) + Written(turns[i].answer.writes)
  {
    assert turns[..i + 1][..i] == turns[..i];
  }

  lemma TurnServes(t: Turn, j: Job)
    requires Turned(t, j) && t.exit.Unfinished? && !t.answer.err.Cut?
    requires t.poll != [] && t.poll[0].Polled? && t.poll[0].count > 0
    ensures t.poll[0].ev.out ==> t.to.sent == |j.stdin|
    ensures t.poll[0].ev.outIn ==> ReadToEnd(t, Out)
    ensures t.poll[0].ev.errIn ==> ReadToEnd(t, Err)
  {
    hide Reads, Writes, Written, PollTimeout, ReadToEnd;
    var a := t.answer;
    assert Answers(a, t.poll[0].ev) && a.err.Finished?;
    if t.poll[0].ev.outIn {
      assert t.Calls() == (t.wait + t.poll + a.writes) + a.outs + (a.errs + t.last);
      ReadStageToEnd(t, t.wait + t.poll + a.writes, a.outs, a.errs + t.last, Out);
    }
    if t.poll[0].ev.errIn {
      assert t.Calls() == (t.wait + t.poll + a.writes + a.outs) + a.errs + t.last;
      ReadStageToEnd(t, t.wait + t.poll + a.writes + a.outs, a.errs, t.last, Err);
    }
  }

  // ----- How turns end -----

  lemma AnyHardOf(a: seq<Call>, b: seq<Call>)
    ensures AnyHard(a + b) <==> AnyHard(a) || AnyHard(b)
  {
    if i :| 0 <= i < |a + b| && IsHard((a + b)[i]) {
      if i < |a| { assert IsHard(a[i]); } else { assert IsHard(b[i - |a|]); }
    }
    if i :| 0 <= i < |a| && IsHard(a[i]) { assert IsHard((a + b)[i]); }
    if i :| 0 <= i < |b| && IsHard(b[i]) { assert IsHard((a + b)[|a| + i]); }
  }

  lemma ReadStageHard(calls: seq<Call>, fd: Fd, wanted: bool, before: End, end: End)
    requires ReadStage(calls, fd, wanted, before, end)
    ensures before.Finished? ==> (AnyHard(calls) <==> end.Failed?)
    ensures !before.Finished? ==> !AnyHard(calls) && end == before
  {
    if before.Finished? && wanted && end.Failed? { assert IsHard(calls[|calls| - 1]); }
  }

  lemma WritesHard(calls: seq<Call>, end: End)
    requires Writes(calls, end)
    ensures AnyHard(calls) <==> end.Failed?
  {
    if end.Failed? { assert IsHard(calls[|calls| - 1]); }
  }

  lemma AnswerHard(a: Answer, ev: Events)
    requires Answers(a, ev)
    ensures AnyHard(a.Calls()) <==> a.err.Failed?
  {
    if ev.out { WritesHard(a.writes, a.fed); }
    ReadStageHard(a.outs, Out, ev.outIn, a.fed, a.out);
    ReadStageHard(a.errs, Err, ev.errIn, a.out, a.err);
    AnyHardOf(a.outs, a.errs);
    AnyHardOf(a.writes, a.outs + a.errs);
    hide AnyHard, ReadStage, Writes;
  }

  lemma TurnHard(t: Turn, j: Job)
    requires Turned(t, j) && t.from.res >= 0
    ensures AnyHard(t.Calls()) <==> t.exit.HardError?
    ensures t.exit.WaitFailed? <==> t.wait != [] && t.wait[0].Waited? && t.wait[0].res < 0
    ensures t.exit.AllRead? <==>
              t.poll != [] && t.poll[0].Polled? && t.poll[0].count == 0 && (t.from.reaped || SawEnd(t))
    ensures t.from.reaped ==> t.wait == []
  {
    hide Answers, PollTimeout, AnyHard;
    AnyHardOf(t.wait + t.poll + t.answer.Calls(), t.last);
    AnyHardOf(t.wait + t.poll, t.answer.Calls());
    AnyHardOf(t.wait, t.poll);
    FewHard(t.wait);
    FewHard(t.poll);
    FewHard(t.last);
    assert !AnyHard(NOTHING.Calls()) by { assert NOTHING.Calls() == []; FewHard([]); }
    if t.poll != [] && t.poll[0].count > 0 { AnswerHard(t.answer, t.poll[0].ev); }
  }

  lemma FewHard(calls: seq<Call>)
    requires |calls| <= 1
    ensures AnyHard(calls) <==> calls != [] && IsHard(calls[0])
  {
  }

  lemma EndsHolds(turns: seq<Turn>, j: Job, i: nat)
    requires Run(turns, j) && i < |turns|
    ensures Ends(turns, i)
  {
    hide Run, Turned, SawEnd, AnyHard, WrittenBy;
    FromChild(turns, j, i);
    LedOn(turns, j, i);
    TurnHard(turns[i], j);
  }

  // ----- Which signals are sent -----

  lemma TurnSignals(t: Turn, j: Job)
    requires Turned(t, j)
    requires t.from.triedTerm <==> t.before != []
    requires t.before != [] ==> |t.before| == 1 && t.before[0] == Sent(15, t.from.termTime)
    ensures var due := t.poll != [] && t.poll[0].Polled? && t.poll[0].count == 0 && !t.from.reaped && !SawEnd(t)
                       && t.reading - j.start >= j.timeout;
            && (!due ==> t.after == t.before && !t.exit.AfterKill?)
            && (due && t.before == [] ==> t.after == [Sent(15, t.reading)] && !t.exit.AfterKill?)
            && (due && t.before != [] && t.reading - t.before[0].reading > 1_000_000 ==>
                  t.after == t.before + [Sent(9, t.reading)] && t.exit.AfterKill?)
            && (due && t.before != [] && t.reading - t.before[0].reading <= 1_000_000 ==>
                  t.after == t.before && !t.exit.AfterKill?)
    ensures t.exit.Unfinished? && !t.answer.err.Cut? ==>
              (t.to.triedTerm <==> t.after != [])
              && (t.after != [] ==> |t.after| == 1 && t.after[0] == Sent(15, t.to.termTime))
  {
    hide Answers, PollTimeout;
  }

  lemma PrefixRuns(turns: seq<Turn>, j: Job, n: nat)
    requires Run(turns, j) && n <= |turns|
    ensures Run(turns[..n], j)
  {
    var some := turns[..n];
    forall i | 0 <= i < |some| - 1 ensures Leads(some[i], some[i + 1]) { assert Leads(turns[i], turns[i + 1]); }
  }

  /** Where the first overdue turn is, if there is one. */
  lemma {:induction false} FirstOf(turns: seq<Turn>, j: Job, n: nat) returns (f: nat)
    requires n <= |turns|
    ensures f <= n && (forall m: nat | m < f :: !IsOverdue(turns, m, j))
    ensures f < n ==> FirstOverdue(turns, f, j)
  {
    if n == 0 {
      f := 0;
    } else {
      f := FirstOf(turns, j, n - 1);
      if f == n - 1 && !IsOverdue(turns, n - 1, j) { f := n; }
    }
  }

  /** What a turn starts from, as to signals. */
  lemma {:induction false} TriedIs(turns: seq<Turn>, j: Job, i: nat, f: nat)
    requires Run(turns, j) && i < |turns| && f <= i
    requires forall m: nat | m < f :: !IsOverdue(turns, m, j)
    requires f < i ==> FirstOverdue(turns, f, j)
    ensures turns[i].from.triedTerm <==> turns[i].before != []
    ensures turns[i].before == if f < i then [Sent(15, turns[f].reading)] else []
    ensures f < i ==> turns[i].from.termTime == turns[f].reading
  {
    hide Run, Turned, SawEnd, FirstOverdue, IsOverdue;
    LedOn(turns, j, i);
    if i > 0 {
      var t := turns[i - 1];
      TriedIs(turns, j, i - 1, if f < i then f else i - 1);
      LedOn(turns, j, i - 1);
      TurnSignals(t, j);
      OverdueIs(turns, j, i - 1);
      FirstIs(turns, j, f, i);
    }
  }

  lemma FirstIs(turns: seq<Turn>, j: Job, f: nat, i: nat)
    requires f < i <= |turns| ==> FirstOverdue(turns, f, j)
    ensures f < i <= |turns| ==> IsOverdue(turns, f, j)
  {
  }

  lemma OverdueIs(turns: seq<Turn>, j: Job, i: nat)
    requires Run(turns, j) && i < |turns|
    ensures var t := turns[i];
            IsOverdue(turns, i, j)
            <==> t.poll != [] && t.poll[0].Polled? && t.poll[0].count == 0 && !t.from.reaped && !SawEnd(t)
                 && t.reading - j.start >= j.timeout
  {
    hide Run, Turned, SawEnd, WrittenBy;
    FromChild(turns, j, i);
  }

  lemma SignalsHolds(turns: seq<Turn>, j: Job)
    requires Run(turns, j) && turns != []
    ensures Signals(turns, j)
  {
    hide Run, Turned, SawEnd, FirstOverdue, IsOverdue;
    var n := |turns| - 1;
    var last := turns[n];
    var f := FirstOf(turns, j, n);
    TriedIs(turns, j, n, f);
    LedOn(turns, j, n);
    TurnSignals(last, j);
    OverdueIs(turns, j, n);
    FirstIsOnly(turns, j, f, n);
  }

  lemma FirstIsOnly(turns: seq<Turn>, j: Job, f: nat, n: nat)
    requires n == |turns| - 1 && f <= n && (forall m: nat | m < f :: !IsOverdue(turns, m, j))
    requires f < n ==> FirstOverdue(turns, f, j)
    ensures forall g: nat | g <= n && FirstOverdue(turns, g, j) :: g == f && IsOverdue(turns, f, j)
    ensures (f < n || IsOverdue(turns, n, j)) ==> IsOverdue(turns, f, j)
  {
    hide IsOverdue;
  }

  /** Every run of the loop obeys them. */
  lemma RunIsLawful(turns: seq<Turn>, j: Job)
    requires Run(turns, j)
    ensures Lawful(turns, j)
  {
    hide Run, Asks, Serves, Ends, Signals;
    forall i | 0 <= i < |turns| ensures Asks(turns, i, j.stdin) && Serves(turns, i, j.stdin) && Ends(turns, i) {
      AsksHolds(turns, j, i);
      ServesHolds(turns, j, i);
      EndsHolds(turns, j, i);
    }
    forall n | 0 < n <= |turns| ensures Signals(turns[..n], j) {
      PrefixRuns(turns, j, n);
      SignalsHolds(turns[..n], j);
    }
  }
}
