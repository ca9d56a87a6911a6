/**
 * The supervisor of a nix command: `NixQueueCmd::run_cmd` against a kernel that does what it likes with
 * the child, the pipes and the clock between any two calls.
 */
module NixCommand {
  import opened Prelude
  import opened NixTurns
  import opened StderrLines

  // ----- The kernel -----

  datatype Child = Running | Zombie(status: WaitStatus) | Reaped(status: WaitStatus)

  /** A pipe the child (or a descendant) writes to: all that was ever written, what is still in it, and
      whether anybody still has it open for writing. */
  datatype Pipe = Pipe(written: string, contents: string, writers: bool)

  datatype World = World(
    stdout: Pipe,
    stderr: Pipe,
    delivered: string,
    stdinOpen: bool,
    child: Child,
    reading: int,
    signals: seq<Sent>)

  function PipeOf(w: World, fd: Fd): Pipe {
    if fd.Out? then w.stdout else w.stderr
  }

  predicate GrewBy(p: Pipe, q: Pipe, more: string) {
    q.written == p.written + more && q.contents == p.contents + more
    && (p.writers || more == "") && (q.writers ==> p.writers)
  }

  ghost predicate Grew(p: Pipe, q: Pipe) {
    exists more: string :: GrewBy(p, q, more)
  }

  /** What can happen outside the supervisor. */
  ghost predicate Drift(w: World, v: World) {
    Grew(w.stdout, v.stdout) && Grew(w.stderr, v.stderr)
    && v == w.(stdout := v.stdout, stderr := v.stderr, child := v.child)
    && (v.child == w.child || (w.child.Running? && v.child.Zombie?))
  }

  /** A hang-up is reported for a pipe nobody writes to any more; without input it is empty too. */
  predicate Hung(p: Pipe, input: bool, hup: bool) {
    hup ==> !p.writers && (input || p.contents == "")
  }

  /** Bytes are taken from the front of one pipe, and nothing else changes. */
  predicate Took(v: World, fd: Fd, bytes: string, w: World) {
    PipeOf(v, fd).contents == bytes + PipeOf(w, fd).contents
    && w == if fd.Out? then v.(stdout := v.stdout.(contents := w.stdout.contents))
            else v.(stderr := v.stderr.(contents := w.stderr.contents))
  }

  class Kernel {
    var w: World
    ghost var trace: seq<Call>

    constructor ()
      ensures w.signals == [] && trace == []
    {
      w, trace := Born(0, []), [];
    }

    method SomeText() returns (text: string) {
      text := *;
    }

    method Grow(p: Pipe) returns (q: Pipe)
      ensures Grew(p, q)
    {
      var more := SomeText();
      var still: bool := *;
      if p.writers {
        q := Pipe(p.written + more, p.contents + more, still);
        assert GrewBy(p, q, more);
      } else {
        q := p;
        assert GrewBy(p, q, "");
      }
    }

    method Tick()
      modifies this`w
      ensures Drift(old(w), w)
    {
      var stdout := Grow(w.stdout);
      var stderr := Grow(w.stderr);
      w := w.(stdout := stdout, stderr := stderr);
      var exits: bool := *;
      if w.child.Running? && exits {
        var status: WaitStatus := *;
        w := w.(child := Zombie(status));
      }
    }

    method Clock() returns (now: int)
      modifies this`w
      ensures w == old(w).(reading := now)
    {
      now := *;
      w := w.(reading := now);
    }

    /** Three pipes and a child, or no child. */
    method Fork() returns (ok: bool)
      modifies this`w
      ensures w == Born(old(w).reading, [])
    {
      w := Born(w.reading, []);
      ok := *;
    }

    /** Positive: the child is reaped; zero: it still runs; negative: an error. */
    method WaitPid(wait: bool) returns (res: int, status: WaitStatus)
      requires !w.child.Reaped?
      modifies this
      ensures res > 0 ==> w.child == Reaped(status) && Drift(old(w), w.(child := Zombie(status)))
      ensures res <= 0 ==> Drift(old(w), w)
      ensures wait ==> res != 0
      ensures trace == old(trace) + [Waited(wait, res, status)]
    {
      Tick();
      status := Neither;
      if * {
        res := -1;
      } else if w.child.Zombie? {
        res, status := 1, w.child.status;
        w := w.(child := Reaped(status));
      } else if wait {
        res := 1;
        status := *;
        w := w.(child := Reaped(status));
      } else {
        res := 0;
      }
      trace := trace + [Waited(wait, res, status)];
    }

    /** An endless wait comes back with an event or interrupted. */
    method Poll(interest: Interest, timeout: int) returns (count: int, ev: Events, errno: Errno)
      modifies this
      ensures Drift(old(w), w)
      ensures count > 0 ==> Hung(w.stdout, ev.outIn, ev.outHup) && Hung(w.stderr, ev.errIn, ev.errHup)
      ensures count > 0 && ev.out ==> interest.in0 && interest.wantsOut
      ensures count == 0 ==> timeout >= 0
      ensures count == 0 && interest.out1 ==> w.stdout.contents == ""
      ensures count == 0 && interest.err2 ==> w.stderr.contents == ""
      ensures w.reading == old(w).reading
      ensures trace == old(trace) + [Polled(w.reading, interest, timeout, count, ev, errno)]
    {
      Tick();
      var Interest(in0, wantsOut, out1, err2) := interest;
      errno := *;
      ev := *;
      ev := Events(in0 && wantsOut && ev.out, in0 && ev.inError,
                   out1 && (w.stdout.contents != "" || (!w.stdout.writers && ev.outIn)), out1 && !w.stdout.writers,
                   err2 && (w.stderr.contents != "" || (!w.stderr.writers && ev.errIn)), err2 && !w.stderr.writers);
      count := (if ev.out || ev.inError then 1 else 0) + (if ev.outIn || ev.outHup then 1 else 0)
               + (if ev.errIn || ev.errHup then 1 else 0);
      if * {
        count := -1;
      } else if count == 0 && timeout < 0 {
        count, errno := -1, EINTR;
      }
      trace := trace + [Polled(w.reading, interest, timeout, count, ev, errno)];
    }

    method Write(data: string) returns (n: int, errno: Errno)
      requires w.stdinOpen
      modifies this
      ensures n <= |data|
      ensures exists v :: Drift(old(w), v) && w == v.(delivered := v.delivered + if n < 0 then "" else data[..n])
      ensures trace == old(trace) + [Wrote(n, errno)]
    {
      Tick();
      errno := *;
      n := *;
      if n > |data| {
        n := |data|;
      }
      ghost var v := w;
      w := w.(delivered := w.delivered + if n < 0 then "" else data[..n]);
      assert Drift(old(w), v) && w == v.(delivered := v.delivered + if n < 0 then "" else data[..n]);
      trace := trace + [Wrote(n, errno)];
    }

    /** Zero is the end of the file; EAGAIN says that the pipe is empty for now. */
    method Read(fd: Fd, size: nat) returns (n: int, bytes: string, errno: Errno)
      requires size > 0
      modifies this
      ensures n == |bytes| || (n < 0 && bytes == "")
      ensures exists v :: Drift(old(w), v) && Took(v, fd, bytes, w)
      ensures n == 0 || (n < 0 && errno == EAGAIN) ==> PipeOf(w, fd).contents == ""
      ensures trace == old(trace) + [ReadFrom(fd, n, errno)]
    {
      Tick();
      ghost var v := w;
      bytes := "";
      errno := *;
      var contents := PipeOf(w, fd).contents;
      if * {
        n := -1;
        if errno == EAGAIN && contents != "" {
          errno := EINTR;
        }
      } else if contents != "" {
        n := *;
        if n <= 0 || n > size || n > |contents| {
          n := 1;
        }
        bytes := contents[..n];
        w := if fd.Out? then w.(stdout := w.stdout.(contents := contents[n..]))
             else w.(stderr := w.stderr.(contents := contents[n..]));
      } else if !PipeOf(w, fd).writers {
        n := 0;
      } else {
        n, errno := -1, EAGAIN;
      }
      assert contents == bytes + PipeOf(w, fd).contents;
      assert Drift(old(w), v) && Took(v, fd, bytes, w);
      trace := trace + [ReadFrom(fd, n, errno)];
    }

    /** Signalling a process that was reaped could hit a stranger. */
    method Kill(sig: int)
      requires !w.child.Reaped?
      modifies this`w
      ensures w == old(w).(signals := old(w).signals + [Sent(sig, old(w).reading)])
    {
      w := w.(signals := w.signals + [Sent(sig, w.reading)]);
    }

    method CloseStdin()
      requires w.stdinOpen
      modifies this`w
      ensures w == old(w).(stdinOpen := false)
    {
      w := w.(stdinOpen := false);
    }
  }

  function Born(reading: int, signals: seq<Sent>): World {
    World(Pipe("", "", true), Pipe("", "", true), "", true, Running, reading, signals)
  }

  // ----- What is kept -----

  /** Everything written was either captured or is still in the pipe. */
  predicate Conserved(captured: string, p: Pipe) {
    p.written == captured + p.contents
  }

  predicate DrainedAndClosed(p: Pipe) {
    p.contents == "" && !p.writers
  }

  /** Exactly the first bytes of the input were delivered, and the pipe is closed only after all of it. */
  predicate Fed(w: World, input: string, sent: int) {
    0 <= sent <= |input| && w.delivered == input[..sent]
    && (!w.stdinOpen ==> sent == |input| && input != "")
  }

  /** At most SIGTERM and then SIGKILL, each not before its time by the clock as it was read. */
  predicate Escalation(signals: seq<Sent>, start: int, timeout: int) {
    |signals| <= 2
    && (|signals| >= 1 ==>
          timeout != 0 && signals[0].sig == SIGTERM && signals[0].reading - start >= timeout)
    && (|signals| == 2 ==>
          signals[1].sig == SIGKILL && signals[1].reading - signals[0].reading > GRACE_MICROS)
  }

  /** Nothing comes into a pipe that is closed. */
  predicate StillClosed(p: Pipe, q: Pipe) {
    !p.writers ==> !q.writers && q.contents == p.contents
  }

  lemma GrownKeeps(p: Pipe, q: Pipe, captured: string)
    requires Grew(p, q)
    ensures StillClosed(p, q)
    ensures Conserved(captured, p) ==> Conserved(captured, q)
  {
    var more :| GrewBy(p, q, more);
    assert p.contents + "" == p.contents;
    assert captured + p.contents + more == captured + (p.contents + more);
  }

  // ----- The poll loop -----

  predicate Supervised(w: World, l: Loop, j: Job) {
    Fed(w, j.stdin, l.sent)
    && (l.in0 ==> w.stdinOpen)
    && (!l.out1 ==> DrainedAndClosed(w.stdout))
    && (!l.err2 ==> DrainedAndClosed(w.stderr))
    && Escalation(w.signals, j.start, j.timeout)
    && |w.signals| == (if l.triedTerm then 1 else 0)
    && (l.triedTerm ==> l.termTime == w.signals[0].reading)
    && l.res >= 0 && (l.reaped <==> l.res > 0)
    && (if l.reaped then w.child == Reaped(l.status) else !w.child.Reaped?)
  }

  /** While stdin is being written. A hard error writes its message over the captured stderr. */
  predicate Feeding(w: World, l: Loop, j: Job, out: string, err: string, failed: bool) {
    Supervised(w, l, j) && Conserved(out, w.stdout) && (!failed ==> Conserved(err, w.stderr))
  }

  /** Stdin is closed as soon as all of it is sent, if there is any. */
  predicate Prompt(w: World, l: Loop, j: Job) {
    l.sent == |j.stdin| && j.stdin != "" ==> !w.stdinOpen
  }

  /** The loop's invariant on the kernel and on what is captured. */
  predicate Sound(w: World, l: Loop, j: Job, out: string, err: string, failed: bool) {
    Feeding(w, l, j, out, err, failed) && Prompt(w, l, j)
  }

  /** Of the input nothing but a first part was delivered, its end was closed exactly if there was an
      input and all of it was delivered, and the signals that were sent were due. */
  predicate Kept(w: World, j: Job) {
    w.delivered <= j.stdin && (!w.stdinOpen <==> w.delivered == j.stdin && j.stdin != "")
    && Escalation(w.signals, j.start, j.timeout)
  }

  /** What holds where the loop is left. */
  predicate Stopped(w: World, l: Loop, j: Job, exit: Exit) {
    Kept(w, j)
    && (if l.res > 0 then w.child == Reaped(l.status) else !w.child.Reaped?)
    && (l.res == 0 ==> exit.HardError?)
    && (exit.AfterKill? ==> |w.signals| == 2)
    && (exit.AllRead? ==> l.res > 0 && w.stdout.contents == "" && w.stderr.contents == "")
  }

  /** What the outcome says of the child, once the loop is left. */
  predicate Outcome(child: Child, hardError: bool, exitCode: Option<int>, termSig: Option<int>) {
    if child.Reaped? then
      match child.status
      case ExitedWith(code) => exitCode == Some(code) && termSig == if hardError then Some(SIGABRT) else None
      case SignaledBy(sig) => exitCode.None? && termSig == Some(sig)
      case Neither => exitCode.None? && termSig == Some(-2)
    else exitCode.None? && (termSig == Some(-1) || (hardError && termSig == Some(SIGABRT)))
  }

  class NixQueueCmd {
    const stdin: string
    const start: int
    var stdout: string
    var stderr: string
    var exitCode: Option<int>
    var termSig: Option<int>
    var flushPos: nat
    var logged: seq<string>

    constructor (stdin: string, start: int)
      ensures this.stdin == stdin && this.start == start && Fresh() && logged == []
    {
      this.stdin, this.start := stdin, start;
      stdout, stderr, exitCode, termSig, flushPos, logged := "", "", None, None, 0, [];
    }

    /** As it is made for the row just selected. */
    predicate Fresh()
      reads this
    {
      stdout == "" && stderr == "" && exitCode.None? && termSig.None? && flushPos == 0
    }

    predicate Succeeded()
      reads this
    {
      exitCode == Some(0)
    }

    /** Beyond the end of the text std::string_view::substr would throw. */
    method FlushStderr(onEnd: bool)
      requires flushPos <= |stderr|
      modifies this`flushPos, this`logged
      ensures flushPos == |stderr|
      ensures logged == old(logged) + Flushed(stderr[old(flushPos)..], onEnd)
    {
      var v := stderr[flushPos..];
      var line := "";
      var i := 0;
      while i < |v|
        invariant 0 <= i <= |v|
        invariant flushPos == old(flushPos) + i
        invariant logged + Lines(v[i..], line) == old(logged) + Lines(v, "")
        invariant LastLine(v[i..], line) == LastLine(v, "")
      {
        var c := v[i];
        assert v[i..] == [c] + v[i + 1..];
        if c == '\n' || c == '\r' {
          if line != "" {
            logged := logged + [line];
          }
          line := "";
        } else {
          line := line + [c];
        }
        flushPos := flushPos + 1;
        i := i + 1;
      }
      assert v[i..] == "" && logged + [] == logged;
      assert old(logged) + Lines(v, "") + [line] == old(logged) + (Lines(v, "") + [line]);
      if onEnd && line != "" {
        logged := logged + [line];
      }
    }

    method Fail(k: Kernel)
      modifies this`stderr, this`termSig
      ensures termSig == Some(SIGABRT)
    {
      stderr := k.SomeText();
      termSig := Some(SIGABRT);
    }

    /** A descriptor with input: reads until its pipe is empty. */
    method Drain(k: Kernel, fd: Fd, ghost l: Loop, ghost j: Job, observed: nat)
      returns (end: End, left: nat, ghost calls: seq<Call>)
      requires Sound(k.w, l, j, stdout, stderr, false) && flushPos <= |stderr|
      modifies k, this`stdout, this`stderr, this`termSig, this`flushPos, this`logged
      ensures Sound(k.w, l, j, stdout, stderr, end.Failed?) && (!end.Failed? ==> flushPos <= |stderr|)
      ensures termSig == if end.Failed? then Some(SIGABRT) else old(termSig)
      ensures end.Finished? ==> Drained(old(k.w), k.w, fd)
      ensures k.w.signals == old(k.w).signals
      ensures k.trace == old(k.trace) + calls && Reads(calls, fd, end)
      ensures |calls| + left == observed && (end.Cut? ==> left == 0)
    {
      hide Sound, Drift, Took, Reads;
      end, left, calls := Cut, observed, [];
      NoReads(fd);
      while left > 0 && end.Cut?
        invariant Sound(k.w, l, j, stdout, stderr, end.Failed?) && (!end.Failed? ==> flushPos <= |stderr|)
        invariant termSig == if end.Failed? then Some(SIGABRT) else old(termSig)
        invariant end.Finished? ==> PipeOf(k.w, fd).contents == ""
        invariant StillClosed(PipeOf(old(k.w), Other(fd)), PipeOf(k.w, Other(fd)))
        invariant !PipeOf(old(k.w), fd).writers ==> !PipeOf(k.w, fd).writers
        invariant k.w.signals == old(k.w).signals
        invariant k.trace == old(k.trace) + calls && Reads(calls, fd, end)
        invariant |calls| + left == observed
        decreases left
      {
        left := left - 1;
        ghost var before := k.w;
        var n, bytes, errno := k.Read(fd, PIPE_BUFFER_SIZE);
        ReadKeeps(before, k.w, fd, bytes, l, j, stdout, stderr);
        if n > 0 {
          if fd.Out? {
            stdout := stdout + bytes;
          } else {
            stderr := stderr + bytes;
          }
        } else {
          end := Finished;
          if n < 0 && errno != EAGAIN {
            FailedSound(k.w, l, j, stdout, stderr);
            Fail(k);
            end := Failed;
          }
        }
        OneMoreRead(calls, fd, n, errno, end);
        calls := calls + [ReadFrom(fd, n, errno)];
      }
      if end.Finished? && fd.Err? {
        FlushStderr(false);
      }
    }

    /** Writes until everything is sent, or an error comes, or nobody watches any more. */
    method WriteOut(k: Kernel, from: Loop, ghost j: Job, observed: nat)
      returns (sent: int, failed: bool, left: nat, ghost calls: seq<Call>)
      requires j.stdin == stdin && 0 <= from.sent <= |stdin|
      requires Feeding(k.w, from, j, stdout, stderr, false) && k.w.stdinOpen
      modifies k, this`stderr, this`termSig
      ensures Feeding(k.w, from.(sent := sent), j, stdout, stderr, failed) && (!failed ==> stderr == old(stderr))
      ensures k.w.stdinOpen && sent == from.sent + Written(calls) && sent <= |stdin|
      ensures termSig == if failed then Some(SIGABRT) else old(termSig)
      ensures Undisturbed(old(k.w), k.w)
      ensures k.trace == old(k.trace) + calls && Writes(calls, if failed then Failed else Cut)
      ensures |calls| + left == observed && (failed ==> sent < |stdin|) && (left == 0 || failed || sent == |stdin|)
    {
      hide Feeding, Drift, Writes, Written, Undisturbed;
      sent, failed, left, calls := from.sent, false, observed, [];
      NoWrites();
      NotDisturbed(k.w, k.w, k.w);
      while left > 0 && !failed && sent < |stdin|
        invariant Feeding(k.w, from.(sent := sent), j, stdout, stderr, failed) && (!failed ==> stderr == old(stderr))
        invariant k.w.stdinOpen && 0 <= sent <= |stdin| && (failed ==> sent < |stdin|)
        invariant termSig == if failed then Some(SIGABRT) else old(termSig)
        invariant Undisturbed(old(k.w), k.w)
        invariant sent == from.sent + Written(calls)
        invariant k.trace == old(k.trace) + calls && Writes(calls, if failed then Failed else Cut)
        invariant |calls| + left == observed
        decreases left
      {
        left := left - 1;
        ghost var before := k.w;
        var n, errno := k.Write(stdin[sent..]);
        WriteKeeps(before, k.w, n, from.(sent := sent), j, stdout, stderr);
        NotDisturbed(old(k.w), before, k.w);
        if n >= 0 {
          sent := sent + n;
        } else if errno != EINTR {
          FailedFeeding(k.w, from.(sent := sent), j, stdout, stderr);
          Fail(k);
          failed := true;
        }
        OneMoreWrite(calls, n, errno, if failed then Failed else Cut);
        calls := calls + [Wrote(n, errno)];
      }
    }

    /** Stdin that can be written to: closed as soon as everything is sent. */
    method Feed(k: Kernel, from: Loop, ghost j: Job, observed: nat)
      returns (l: Loop, end: End, left: nat, ghost calls: seq<Call>)
      requires j.stdin == stdin != ""
      requires Sound(k.w, from, j, stdout, stderr, false) && from.in0
      modifies k, this`stderr, this`termSig
      ensures Sound(k.w, l, j, stdout, stderr, end.Failed?) && (!end.Failed? ==> stderr == old(stderr))
      ensures termSig == if end.Failed? then Some(SIGABRT) else old(termSig)
      ensures end.Finished? ==> !k.w.stdinOpen && l.sent == |stdin|
      ensures Undisturbed(old(k.w), k.w)
      ensures l == from.(sent := from.sent + Written(calls), in0 := !end.Finished?)
      ensures k.trace == old(k.trace) + calls && Writes(calls, end)
      ensures |calls| + left == observed && (end.Cut? ==> left == 0)
    {
      hide Sound, Feeding, Writes, Written;
      MayWrite(k.w, from, j, stdout, stderr);
      var sent, failed;
      sent, failed, left, calls := WriteOut(k, from, j, observed);
      l := from.(sent := sent);
      end := if failed then Failed else Cut;
      if sent == |stdin| {
        ClosesWhenSent(k.w, l, j, stdout, stderr);
        k.CloseStdin();
        l := l.(in0 := false);
        AllWritten(calls);
        end := Finished;
      } else {
        NotYetSent(k.w, l, j, stdout, stderr, failed);
      }
    }

    /** The output descriptors with input. */
    method HandleOutputs(k: Kernel, ev: Events, ghost l: Loop, ghost j: Job, observed: nat)
      returns (end: End, left: nat, ghost outs: seq<Call>, ghost out: End, ghost errs: seq<Call>)
      requires Sound(k.w, l, j, stdout, stderr, false) && flushPos <= |stderr|
      requires Hung(k.w.stdout, ev.outIn, ev.outHup) && Hung(k.w.stderr, ev.errIn, ev.errHup)
      modifies k, this`stdout, this`stderr, this`termSig, this`flushPos, this`logged
      ensures Sound(k.w, l, j, stdout, stderr, end.Failed?) && (!end.Failed? ==> flushPos <= |stderr|)
      ensures termSig == if end.Failed? then Some(SIGABRT) else old(termSig)
      ensures end.Finished? ==> Done(k.w.stdout, ev.outHup) && Done(k.w.stderr, ev.errHup)
      ensures k.w.signals == old(k.w).signals
      ensures ReadStage(outs, Out, ev.outIn, Finished, out) && ReadStage(errs, Err, ev.errIn, out, end)
      ensures k.trace == old(k.trace) + (outs + errs)
      ensures |outs + errs| + left == observed && (end.Cut? ==> left == 0)
    {
      hide *;
      ReadStages();
      end, left, outs, out, errs := Finished, observed, [], Finished, [];
      ghost var before := k.w;
      if ev.outIn {
        end, left, outs := Drain(k, Out, l, j, left);
        out := end;
        if !end.Finished? {
          return;
        }
      }
      OutDone(before, k.w, ev);
      before := k.w;
      if ev.errIn {
        end, left, errs := Drain(k, Err, l, j, left);
        if !end.Finished? {
          return;
        }
      }
      BothDone(before, k.w, ev);
    }

    /** One pass over the events of a poll. */
    method HandleEvents(k: Kernel, ev: Events, from: Loop, ghost j: Job, observed: nat)
      returns (l: Loop, end: End, left: nat, ghost answer: Answer)
      requires j.stdin == stdin
      requires Sound(k.w, from, j, stdout, stderr, false) && flushPos <= |stderr|
      requires Hung(k.w.stdout, ev.outIn, ev.outHup) && Hung(k.w.stderr, ev.errIn, ev.errHup)
      requires ev.out ==> from.in0 && stdin != ""
      modifies k, this`stdout, this`stderr, this`termSig, this`flushPos, this`logged
      ensures Sound(k.w, l, j, stdout, stderr, end.Failed?) && (!end.Failed? ==> flushPos <= |stderr|)
      ensures termSig == if end.Failed? then Some(SIGABRT) else old(termSig)
      ensures k.w.signals == old(k.w).signals
      ensures Answers(answer, ev) && answer.err == end
      ensures k.trace == old(k.trace) + answer.Calls()
      ensures |answer.Calls()| + left == observed && (end.Cut? ==> left == 0)
      ensures end.Finished? ==>
                l == from.(sent := from.sent + Written(answer.writes),
                           in0 := from.in0 && !ev.out && !ev.inError,
                           out1 := from.out1 && !ev.outHup, err2 := from.err2 && !ev.errHup)
                && (ev.out ==> l.sent == |stdin|)
    {
      hide *;
      l, end, left := from, Finished, observed;
      ghost var writes: seq<Call> := [];
      NoWrites();
      if ev.out {
        ghost var before := k.w;
        l, end, left, writes := Feed(k, l, j, left);
        HungStays(before, k.w, ev);
        if !end.Finished? {
          answer := Unfed(writes, end, ev);
          UnfedAnswers(writes, end, ev);
          return;
        }
      }
      ghost var outs, out, errs;
      end, left, outs, out, errs := HandleOutputs(k, ev, l, j, left);
      answer := Answer(writes, Finished, outs, out, errs, end);
      Answered(answer, ev);
      if !end.Finished? {
        return;
      }
      Disables(k.w, ev, l, j, stdout, stderr);
      if ev.inError {
        l := l.(in0 := false);
      }
      if ev.outHup {
        l := l.(out1 := false);
      }
      if ev.errHup {
        l := l.(err2 := false);
      }
    }

    /** A poll that reported nothing while the child runs: overdue, it is asked to stop once, and then
        killed. */
    method Overdue(k: Kernel, from: Loop, j: Job) returns (l: Loop, exit: Exit, ghost last: seq<Call>)
      requires j.timeout != 0
      requires Sound(k.w, from, j, stdout, stderr, false) && !from.reaped
      modifies k
      ensures exit == Unfinished || exit == AfterKill
      ensures exit.Unfinished? ==> Sound(k.w, l, j, stdout, stderr, false)
      ensures exit.AfterKill? ==>
                Stopped(k.w, l, j, exit) && Conserved(stdout, k.w.stdout) && Conserved(stderr, k.w.stderr)
      ensures Escalates(from, l, exit, old(k.w).signals, k.w.signals, k.w.reading, j)
      ensures k.trace == old(k.trace) + last
      ensures if exit.AfterKill? then |last| == 1 && last[0].Waited? && last[0].wait else last == []
    {
      hide *;
      l, exit, last := from, Unfinished, [];
      ghost var before := k.w;
      var now := k.Clock();
      ReadingKeeps(before, now, l, j, stdout, stderr);
      before := k.w;
      NotReaped(k.w, l, j, stdout, stderr);
      EscalatesHow(l, k.w.signals, now, j);
      if now - j.start >= j.timeout {
        if l.triedTerm {
          if now - l.termTime > GRACE_MICROS {
            k.Kill(SIGKILL);
            KillKeeps(before, k.w, l, j, stdout, stderr);
            before := k.w;
            var res, status := k.WaitPid(true);
            l := l.(res := res, status := status);
            exit := AfterKill;
            last := [Waited(true, res, status)];
            LastWait(before, k.w, l, j, stdout, stderr);
          }
        } else {
          k.Kill(SIGTERM);
          TermKeeps(before, k.w, l, j, stdout, stderr);
          l := l.(triedTerm := true, termTime := now);
        }
      }
    }

    /** Sees whether the child is still there, unless that is known. */
    method Reap(k: Kernel, from: Loop, ghost j: Job) returns (l: Loop, ghost wait: seq<Call>)
      requires Sound(k.w, from, j, stdout, stderr, false)
      modifies k
      ensures l == AfterWait(from, wait)
      ensures if from.reaped then wait == [] else |wait| == 1 && wait[0].Waited? && !wait[0].wait
      ensures if l.res < 0 then
                Stopped(k.w, l, j, WaitFailed) && Conserved(stdout, k.w.stdout) && Conserved(stderr, k.w.stderr)
              else Sound(k.w, l, j, stdout, stderr, false)
      ensures k.w.signals == old(k.w).signals && k.w.reading == old(k.w).reading
      ensures k.trace == old(k.trace) + wait
    {
      hide Sound, Stopped, Conserved, Drift;
      l, wait := from, [];
      ResKnown(k.w, l, j, stdout, stderr);
      if !l.reaped {
        NotReaped(k.w, l, j, stdout, stderr);
        ghost var before := k.w;
        var res, status := k.WaitPid(false);
        WaitKeeps(before, k.w, l, res, status, j, stdout, stderr);
        l := l.(reaped := res > 0, res := res, status := status);
        wait := [Waited(false, res, status)];
      }
    }

    /** What a poll reported. */
    method React(k: Kernel, from: Loop, j: Job, count: int, ev: Events, errno: Errno, observed: nat, ghost poll: Call)
      returns (l: Loop, exit: Exit, left: nat, ghost answer: Answer, ghost last: seq<Call>)
      requires j.stdin == stdin && poll.Polled? && poll.count == count && poll.ev == ev && poll.errno == errno
      requires Sound(k.w, from, j, stdout, stderr, false) && flushPos <= |stderr|
      requires count > 0 ==> Hung(k.w.stdout, ev.outIn, ev.outHup) && Hung(k.w.stderr, ev.errIn, ev.errHup)
      requires count > 0 && ev.out ==> from.in0 && stdin != ""
      requires count == 0 ==> (from.out1 ==> k.w.stdout.contents == "") && (from.err2 ==> k.w.stderr.contents == "")
      requires count == 0 ==> from.reaped || j.timeout != 0
      modifies k, this`stdout, this`stderr, this`termSig, this`flushPos, this`logged
      ensures exit.Unfinished? ==> Sound(k.w, l, j, stdout, stderr, false) && flushPos <= |stderr|
      ensures !exit.Unfinished? ==>
                Stopped(k.w, l, j, exit) && Conserved(stdout, k.w.stdout)
                && (!exit.HardError? ==> Conserved(stderr, k.w.stderr))
      ensures termSig == if exit.HardError? then Some(SIGABRT) else old(termSig)
      ensures !exit.StartFailed? && !exit.WaitFailed?
      ensures Reacts(poll, from, l, exit, answer, last, old(k.w).signals, k.w.signals, k.w.reading, j)
      ensures k.trace == old(k.trace) + (answer.Calls() + last)
      ensures |answer.Calls()| + left == observed && (answer.err.Cut? ==> left == 0)
    {
      hide Sound, Stopped, Conserved, Hung, Answers, Escalates, AfterEvents;
      l, exit, left, answer, last := from, Unfinished, observed, NOTHING, [];
      if count < 0 {
        if errno != EINTR {
          FailedSound(k.w, l, j, stdout, stderr);
          Fail(k);
          exit := HardError;
          Stops(k.w, l, j, stdout, stderr);
        }
      } else if count == 0 {
        if l.reaped {
          AllIsRead(k.w, l, j, stdout, stderr);
          exit := AllRead;
        } else {
          l, exit, last := Overdue(k, l, j);
        }
      } else {
        var end;
        l, end, left, answer := HandleEvents(k, ev, l, j, left);
        EventsLead(from, l, answer, ev);
        if end.Failed? {
          exit := HardError;
          Stops(k.w, l, j, stdout, stderr);
        }
      }
    }

    /** Once around the loop. */
    method Pass(k: Kernel, from: Loop, j: Job, observed: nat)
      returns (l: Loop, exit: Exit, left: nat, ghost t: Turn)
      requires j.stdin == stdin && observed > 0
      requires Sound(k.w, from, j, stdout, stderr, false) && flushPos <= |stderr|
      modifies k, this`stdout, this`stderr, this`termSig, this`flushPos, this`logged
      ensures exit.Unfinished? ==> Sound(k.w, l, j, stdout, stderr, false) && flushPos <= |stderr|
      ensures !exit.Unfinished? ==>
                Stopped(k.w, l, j, exit) && Conserved(stdout, k.w.stdout)
                && (!exit.HardError? ==> Conserved(stderr, k.w.stderr))
      ensures termSig == if exit.HardError? then Some(SIGABRT) else old(termSig)
      ensures !exit.StartFailed?
      ensures Turned(t, j) && t.from == from && t.to == l && t.exit == exit
      ensures t.before == old(k.w).signals && t.after == k.w.signals && t.reading == k.w.reading
      ensures k.trace == old(k.trace) + t.Calls() && t.Cost() + left == observed
      ensures (exit.Unfinished? ==> left < observed) && (t.answer.err.Cut? ==> left == 0)
    {
      hide Sound, Stopped, Conserved, Hung, Drift, Reacts, PollTimeout, AfterWait, Turned;
      ghost var before, signals, trace := k.w, k.w.signals, k.trace;
      var now := k.Clock();
      ReadingKeeps(before, now, from, j, stdout, stderr);
      ghost var wait;
      l, wait := Reap(k, from, j);
      if l.res < 0 {
        exit, left := WaitFailed, observed;
        t := Turn(from, l, exit, wait, [], NOTHING, [], signals, k.w.signals, k.w.reading);
        WaitTurned(t, j, trace);
        return;
      }
      var polled := l;
      before := k.w;
      var interest, timeout := Interest(l.in0, stdin != "", l.out1, l.err2), PollTimeout(l, j.timeout, now - j.start);
      var count, ev, errno := k.Poll(interest, timeout);
      DriftKeeps(before, k.w, l, j, stdout, stderr);
      ghost var poll := Polled(now, interest, timeout, count, ev, errno);
      ghost var answer, last;
      l, exit, left, answer, last := React(k, polled, j, count, ev, errno, observed - 1, poll);
      t := Turn(from, l, exit, wait, [poll], answer, last, signals, k.w.signals, k.w.reading);
      PollTurned(t, j, trace);
    }

    /** The poll loop. */
    method Supervise(k: Kernel, j: Job, observed: nat) returns (l: Loop, exit: Exit, ghost turns: seq<Turn>)
      requires j.stdin == stdin && Sound(k.w, AT_FIRST, j, stdout, stderr, false) && flushPos <= |stderr|
      requires k.w.signals == []
      modifies k, this`stdout, this`stderr, this`termSig, this`flushPos, this`logged
      ensures exit.Unfinished? ==> Sound(k.w, l, j, stdout, stderr, false) && flushPos <= |stderr|
      ensures !exit.Unfinished? ==>
                Stopped(k.w, l, j, exit) && Conserved(stdout, k.w.stdout)
                && (!exit.HardError? ==> Conserved(stderr, k.w.stderr))
      ensures termSig == if exit.HardError? then Some(SIGABRT) else old(termSig)
      ensures !exit.StartFailed? && (!exit.Unfinished? ==> turns != [])
      ensures Run(turns, j) && LedTo(turns, l, exit, k.w.signals) && k.trace == old(k.trace) + CallsOf(turns)
      ensures Lawful(turns, j)
      ensures if exit.Unfinished? then CostOf(turns) == observed else CostOf(turns) <= observed
    {
      hide *;
      turns := [];
      ghost var trace := k.trace;
      NoTurns(j, trace);
      var left := observed;
      l, exit := AT_FIRST, Unfinished;
      while left > 0 && exit.Unfinished?
        invariant exit.Unfinished? ==> Sound(k.w, l, j, stdout, stderr, false) && flushPos <= |stderr|
        invariant !exit.Unfinished? ==>
                    Stopped(k.w, l, j, exit) && Conserved(stdout, k.w.stdout)
                    && (!exit.HardError? ==> Conserved(stderr, k.w.stderr))
        invariant termSig == if exit.HardError? then Some(SIGABRT) else old(termSig)
        invariant !exit.StartFailed? && (!exit.Unfinished? ==> turns != [])
        invariant Run(turns, j) && LedTo(turns, l, exit, k.w.signals) && (left > 0 ==> !EndsCut(turns))
        invariant k.trace == trace + CallsOf(turns) && CostOf(turns) + left == observed
        decreases left, exit.Unfinished?
      {
        ghost var t;
        l, exit, left, t := Pass(k, l, j, left);
        OneMoreTurn(trace, turns, t, j);
        turns := turns + [t];
      }
      RunIsLawful(turns, j);
    }

    /** Takes in the child's status, once the loop is left. */
    method Decode(k: Kernel, l: Loop, ghost exit: Exit, ghost j: Job) returns (ghost late: seq<Call>)
      requires Stopped(k.w, l, j, exit) && Conserved(stdout, k.w.stdout)
      requires exitCode.None? && termSig == if exit.HardError? then Some(SIGABRT) else None
      modifies k, this`stderr, this`exitCode, this`termSig, this`flushPos, this`logged
      ensures Kept(k.w, j) && Conserved(stdout, k.w.stdout)
      ensures l.res != 0 ==> k.w == old(k.w)
      ensures k.w.signals == old(k.w).signals
      ensures Outcome(k.w.child, exit.HardError?, exitCode, termSig)
      ensures !k.w.child.Reaped? ==>
                termSig == Some(if l.res == 0 && late != [] && late[0].Waited? && late[0].res == 0 then 6 else -1)
      ensures old(stderr) <= stderr && (l.res > 0 ==> stderr == old(stderr))
      ensures exitCode != Some(0) ==> logged == old(logged) + Flushed(stderr, true)
      ensures k.trace == old(k.trace) + late
      ensures if l.res == 0 then |late| == 1 && late[0].Waited? && !late[0].wait else late == []
    {
      hide Conserved, Drift, Kept;
      late := [];
      var res, status := l.res, l.status;
      if res == 0 {
        ghost var before := k.w;
        res, status := k.WaitPid(false);
        late := [Waited(false, res, status)];
        LateWait(before, k.w, res, status, j, stdout);
      }
      if res < 0 {
        termSig := Some(-1);
        var message := k.SomeText();
        stderr := stderr + message;
      } else if res > 0 {
        match status
        case SignaledBy(sig) => termSig := Some(sig);
        case Neither => termSig := Some(-2);
        case ExitedWith(code) => exitCode := Some(code);
      }
      if !Succeeded() {
        flushPos := 0;
        FlushStderr(true);
      }
    }

    /** Every run, as far as it is observed: for so many calls of poll, read and write. */
    method RunCmd(k: Kernel, timeout: int, observed: nat)
      returns (exit: Exit, ghost turns: seq<Turn>, ghost late: seq<Call>)
      requires Fresh()
      modifies k, this
      ensures Conserved(stdout, k.w.stdout)
      ensures exit.AllRead? || exit.Unfinished? ==> Conserved(stderr, k.w.stderr)
      ensures exit.WaitFailed? || exit.AfterKill? ==>
                exists captured :: captured <= stderr && Conserved(captured, k.w.stderr)
      ensures exit.AllRead? ==> k.w.child.Reaped? && stdout == k.w.stdout.written && stderr == k.w.stderr.written
      ensures Kept(k.w, Job(stdin, start, timeout))
      ensures !exit.Unfinished? ==> Outcome(k.w.child, exit.HardError? || exit.StartFailed?, exitCode, termSig)
      ensures !exit.Unfinished? && k.w.child.Reaped? ==>
                match k.w.child.status
                case ExitedWith(code) => exitCode == Some(code) && termSig == if exit.HardError? then Some(6) else None
                case SignaledBy(sig) => exitCode == None && termSig == Some(sig)
                case Neither => exitCode == None && termSig == Some(-2)
      ensures !exit.Unfinished? && !k.w.child.Reaped? ==>
                exitCode == None
                && termSig == Some(if exit.StartFailed? || (late != [] && late[0].Waited? && late[0].res == 0) then 6
                                   else -1)
      ensures !exit.StartFailed? && !exit.Unfinished? && exitCode != Some(0) ==>
                exists before :: logged == before + Flushed(stderr, true)
      ensures Lawful(turns, Job(stdin, start, timeout))
      ensures k.w.signals == if turns == [] then [] else turns[|turns| - 1].after
      ensures Run(turns, Job(stdin, start, timeout)) && k.trace == old(k.trace) + CallsOf(turns) + late
      ensures if exit.StartFailed? then turns == [] else if exit.Unfinished? then CostOf(turns) == observed
              else turns != [] && turns[|turns| - 1].exit == exit && CostOf(turns) <= observed
      ensures if exit.HardError? && turns[|turns| - 1].to.res == 0 then |late| == 1 && late[0].Waited? && !late[0].wait
              else late == []
    {
      assert stdout == "" && stderr == "" && exitCode.None? && termSig.None? && flushPos == 0;
      var j := Job(stdin, start, timeout);
      hide *;
      turns, late := [], [];
      ghost var trace := k.trace;
      var forked := k.Fork();
      BornSound(k.w.reading, j);
      SoundKept(k.w, AT_FIRST, j, "", "");
      NoChildOutcome(k.w);
      NoTurns(j, trace);
      NothingIsLawful(j);
      if !forked {
        stdout := "";
        Fail(k);
        return StartFailed, turns, late;
      }
      var detached: bool := *;
      if !detached {
        Fail(k);
        return StartFailed, turns, late;
      }
      var l;
      l, exit, turns := Supervise(k, j, observed);
      LedToMeans(turns, l, exit, k.w.signals);
      assert k.trace + [] == k.trace;
      if exit.Unfinished? {
        SoundKept(k.w, l, j, stdout, stderr);
        return;
      }
      ghost var captured, w := stderr, k.w;
      StoppedMeans(w, l, j, exit, stdout, stderr);
      late := Decode(k, l, exit, j);
      assert captured <= stderr;
      OutcomeMeans(k.w.child, exit.HardError?, exitCode, termSig);
    }
  }

  // ----- The invariant, step by step -----

  function Other(fd: Fd): Fd {
    if fd.Out? then Err else Out
  }

  /** One pipe was seen empty; one that was closed stays so. */
  predicate Drained(w: World, v: World, fd: Fd) {
    PipeOf(v, fd).contents == "" && (!PipeOf(w, fd).writers ==> !PipeOf(v, fd).writers)
    && StillClosed(PipeOf(w, Other(fd)), PipeOf(v, Other(fd)))
  }

  lemma NoChildOutcome(w: World)
    requires w == Born(w.reading, [])
    ensures Outcome(w.child, true, None, Some(SIGABRT)) && !w.child.Reaped? && w.signals == [] && SIGABRT == 6
  {
  }

  lemma OutcomeMeans(child: Child, hardError: bool, exitCode: Option<int>, termSig: Option<int>)
    requires Outcome(child, hardError, exitCode, termSig)
    ensures child.Reaped? ==>
              match child.status
              case ExitedWith(code) => exitCode == Some(code) && termSig == if hardError then Some(6) else None
              case SignaledBy(sig) => exitCode == None && termSig == Some(sig)
              case Neither => exitCode == None && termSig == Some(-2)
    ensures !child.Reaped? ==> exitCode == None
  {
  }

  lemma BornSound(reading: int, j: Job)
    ensures Sound(Born(reading, []), AT_FIRST, j, "", "", false)
  {
  }

  lemma DriftKeeps(w: World, v: World, l: Loop, j: Job, out: string, err: string)
    requires Drift(w, v) && Sound(w, l, j, out, err, false)
    ensures Sound(v, l, j, out, err, false)
    ensures StillClosed(w.stdout, v.stdout) && StillClosed(w.stderr, v.stderr)
    ensures v.signals == w.signals && v.reading == w.reading
  {
    GrownKeeps(w.stdout, v.stdout, out);
    GrownKeeps(w.stderr, v.stderr, err);
  }

  lemma TookKeeps(v: World, u: World, fd: Fd, bytes: string, captured: string)
    requires Took(v, fd, bytes, u) && Conserved(captured, PipeOf(v, fd))
    ensures Conserved(captured + bytes, PipeOf(u, fd))
    ensures PipeOf(u, Other(fd)) == PipeOf(v, Other(fd)) && u.(stdout := v.stdout, stderr := v.stderr) == v
    ensures PipeOf(u, fd).writers == PipeOf(v, fd).writers && (PipeOf(v, fd).contents == "" ==> u == v)
  {
    assert captured + PipeOf(v, fd).contents == captured + bytes + PipeOf(u, fd).contents;
  }

  lemma ReadKeeps(w: World, u: World, fd: Fd, bytes: string, l: Loop, j: Job, out: string, err: string)
    requires exists v :: Drift(w, v) && Took(v, fd, bytes, u)
    requires Sound(w, l, j, out, err, false)
    ensures Sound(u, l, j, if fd.Out? then out + bytes else out, if fd.Err? then err + bytes else err, false)
    ensures StillClosed(PipeOf(w, Other(fd)), PipeOf(u, Other(fd)))
    ensures !PipeOf(w, fd).writers ==> !PipeOf(u, fd).writers
    ensures bytes == "" ==> Sound(u, l, j, out, err, false)
    ensures u.signals == w.signals
  {
    hide Drift, Took, Fed, Escalation, Conserved;
    var v :| Drift(w, v) && Took(v, fd, bytes, u);
    DriftKeeps(w, v, l, j, out, err);
    var captured := if fd.Out? then out else err;
    TookKeeps(v, u, fd, bytes, captured);
    FedDepends(u, v, j, l.sent);
    assert bytes == "" ==> captured + bytes == captured;
  }

  lemma FedDepends(u: World, v: World, j: Job, sent: int)
    requires u.(stdout := v.stdout, stderr := v.stderr) == v
    ensures Fed(u, j.stdin, sent) == Fed(v, j.stdin, sent)
  {
  }

  lemma WriteKeeps(w: World, u: World, n: int, l: Loop, j: Job, out: string, err: string)
    requires Feeding(w, l, j, out, err, false)
    requires w.stdinOpen && 0 <= l.sent && n <= |j.stdin| - l.sent
    requires exists v :: Drift(w, v) && u == v.(delivered := v.delivered + if n < 0 then "" else j.stdin[l.sent..][..n])
    ensures Feeding(u, l.(sent := if n < 0 then l.sent else l.sent + n), j, out, err, false)
    ensures u.stdinOpen && Undisturbed(w, u)
  {
    var v :| Drift(w, v) && u == v.(delivered := v.delivered + if n < 0 then "" else j.stdin[l.sent..][..n]);
    GrownKeeps(w.stdout, v.stdout, out);
    GrownKeeps(w.stderr, v.stderr, err);
    assert n >= 0 ==> j.stdin[..l.sent] + j.stdin[l.sent..][..n] == j.stdin[..l.sent + n];
  }

  lemma MayWrite(w: World, l: Loop, j: Job, out: string, err: string)
    requires Sound(w, l, j, out, err, false) && l.in0
    ensures w.stdinOpen && 0 <= l.sent <= |j.stdin| && Feeding(w, l, j, out, err, false)
  {
  }

  /** Nothing but the child has touched the output pipes, and no signal was sent. */
  predicate Undisturbed(w: World, v: World) {
    StillClosed(w.stdout, v.stdout) && StillClosed(w.stderr, v.stderr) && v.signals == w.signals
  }

  lemma NotDisturbed(w: World, v: World, u: World)
    ensures Undisturbed(w, w)
    ensures Undisturbed(w, v) && Undisturbed(v, u) ==> Undisturbed(w, u)
  {
  }

  lemma NotYetSent(w: World, l: Loop, j: Job, out: string, err: string, failed: bool)
    requires Feeding(w, l, j, out, err, failed) && l.sent < |j.stdin|
    ensures Sound(w, l, j, out, err, failed)
  {
  }

  lemma ResKnown(w: World, l: Loop, j: Job, out: string, err: string)
    requires Sound(w, l, j, out, err, false)
    ensures l.res >= 0 && l == AfterWait(l, [])
  {
  }

  lemma FailedFeeding(w: World, l: Loop, j: Job, out: string, err: string)
    requires Feeding(w, l, j, out, err, false)
    ensures forall message :: Feeding(w, l, j, out, message, true)
  {
  }

  lemma ClosesWhenSent(w: World, l: Loop, j: Job, out: string, err: string)
    requires Feeding(w, l, j, out, err, false) && l.sent == |j.stdin| && j.stdin != ""
    ensures Sound(w.(stdinOpen := false), l.(in0 := false), j, out, err, false)
  {
  }

  lemma FailedSound(w: World, l: Loop, j: Job, out: string, err: string)
    requires Sound(w, l, j, out, err, false)
    ensures forall message :: Sound(w, l, j, out, message, true)
  {
  }

  lemma Stops(w: World, l: Loop, j: Job, out: string, err: string)
    requires Sound(w, l, j, out, err, true)
    ensures Stopped(w, l, j, HardError) && Conserved(out, w.stdout)
  {
  }

  lemma SoundKept(w: World, l: Loop, j: Job, out: string, err: string)
    requires Sound(w, l, j, out, err, false)
    ensures Kept(w, j) && Conserved(out, w.stdout) && Conserved(err, w.stderr)
  {
  }

  lemma StoppedMeans(w: World, l: Loop, j: Job, exit: Exit, out: string, err: string)
    requires Stopped(w, l, j, exit) && Conserved(out, w.stdout)
    requires !exit.HardError? ==> Conserved(err, w.stderr)
    ensures Kept(w, j) && (l.res == 0 ==> exit.HardError?)
    ensures exit.AfterKill? ==> |w.signals| == 2
    ensures exit.AllRead? ==> l.res > 0 && w.child.Reaped? && out == w.stdout.written && err == w.stderr.written
  {
  }

  lemma NotReaped(w: World, l: Loop, j: Job, out: string, err: string)
    requires Sound(w, l, j, out, err, false) && !l.reaped
    ensures !w.child.Reaped? && l.res == 0
  {
  }

  lemma HungStays(w: World, v: World, ev: Events)
    requires Hung(w.stdout, ev.outIn, ev.outHup) && Hung(w.stderr, ev.errIn, ev.errHup)
    requires Undisturbed(w, v)
    ensures Hung(v.stdout, ev.outIn, ev.outHup) && Hung(v.stderr, ev.errIn, ev.errHup) && v.signals == w.signals
  {
  }

  /** A descriptor that hung up has come to its end once it is seen empty. */
  predicate Done(p: Pipe, hup: bool) {
    hup ==> DrainedAndClosed(p)
  }

  lemma OutDone(w: World, v: World, ev: Events)
    requires Hung(w.stdout, ev.outIn, ev.outHup) && Hung(w.stderr, ev.errIn, ev.errHup)
    requires if ev.outIn then Drained(w, v, Out) else v == w
    ensures Done(v.stdout, ev.outHup) && Hung(v.stderr, ev.errIn, ev.errHup)
  {
  }

  lemma BothDone(w: World, v: World, ev: Events)
    requires Done(w.stdout, ev.outHup) && Hung(w.stderr, ev.errIn, ev.errHup)
    requires if ev.errIn then Drained(w, v, Err) else v == w
    ensures Done(v.stdout, ev.outHup) && Done(v.stderr, ev.errHup)
  {
  }

  lemma Disables(w: World, ev: Events, l: Loop, j: Job, out: string, err: string)
    requires Sound(w, l, j, out, err, false)
    requires Done(w.stdout, ev.outHup) && Done(w.stderr, ev.errHup)
    ensures Sound(w, l.(in0 := l.in0 && !ev.inError, out1 := l.out1 && !ev.outHup, err2 := l.err2 && !ev.errHup),
                  j, out, err, false)
  {
  }

  lemma ReadingKeeps(w: World, now: int, l: Loop, j: Job, out: string, err: string)
    requires Sound(w, l, j, out, err, false)
    ensures Sound(w.(reading := now), l, j, out, err, false)
  {
  }

  lemma WaitKeeps(w: World, v: World, l: Loop, res: int, status: WaitStatus, j: Job, out: string, err: string)
    requires Sound(w, l, j, out, err, false) && !l.reaped
    requires if res > 0 then v.child == Reaped(status) && Drift(w, v.(child := Zombie(status))) else Drift(w, v)
    ensures var m := l.(reaped := res > 0, res := res, status := status);
            if res < 0 then Stopped(v, m, j, WaitFailed) && Conserved(out, v.stdout) && Conserved(err, v.stderr)
            else Sound(v, m, j, out, err, false)
  {
    DriftKeeps(w, if res > 0 then v.(child := Zombie(status)) else v, l, j, out, err);
  }

  lemma LateWait(w: World, v: World, res: int, status: WaitStatus, j: Job, out: string)
    requires if res > 0 then v.child == Reaped(status) && Drift(w, v.(child := Zombie(status))) else Drift(w, v)
    requires Kept(w, j) && Conserved(out, w.stdout) && !w.child.Reaped?
    ensures Kept(v, j) && Conserved(out, v.stdout) && (res <= 0 ==> !v.child.Reaped?)
    ensures v.signals == w.signals
  {
    GrownKeeps(w.stdout, v.stdout, out);
  }

  lemma TermKeeps(w: World, v: World, l: Loop, j: Job, out: string, err: string)
    requires Sound(w, l, j, out, err, false) && !l.triedTerm
    requires j.timeout != 0 && w.reading - j.start >= j.timeout
    requires v == w.(signals := w.signals + [Sent(SIGTERM, w.reading)])
    ensures Sound(v, l.(triedTerm := true, termTime := w.reading), j, out, err, false)
  {
  }

  lemma KillKeeps(w: World, v: World, l: Loop, j: Job, out: string, err: string)
    requires Sound(w, l, j, out, err, false) && l.triedTerm && !l.reaped && w.reading - l.termTime > GRACE_MICROS
    requires v == w.(signals := w.signals + [Sent(SIGKILL, w.reading)])
    ensures Kept(v, j) && |v.signals| == 2 && Conserved(out, v.stdout) && Conserved(err, v.stderr) && !v.child.Reaped?
  {
  }

  lemma LastWait(w: World, v: World, l: Loop, j: Job, out: string, err: string)
    requires Kept(w, j) && |w.signals| == 2 && Conserved(out, w.stdout) && Conserved(err, w.stderr) && !w.child.Reaped?
    requires if l.res > 0 then v.child == Reaped(l.status) && Drift(w, v.(child := Zombie(l.status)))
             else l.res < 0 && Drift(w, v)
    ensures Stopped(v, l, j, AfterKill) && Conserved(out, v.stdout) && Conserved(err, v.stderr)
  {
    GrownKeeps(w.stdout, v.stdout, out);
    GrownKeeps(w.stderr, v.stderr, err);
  }

  lemma AllIsRead(w: World, l: Loop, j: Job, out: string, err: string)
    requires Sound(w, l, j, out, err, false) && l.reaped
    requires (l.out1 ==> w.stdout.contents == "") && (l.err2 ==> w.stderr.contents == "")
    ensures Stopped(w, l, j, AllRead) && Conserved(out, w.stdout) && Conserved(err, w.stderr)
  {
  }

  // ----- The outcome and the table's constraints -----

  datatype Range = EmptyRange | FromTo(lower: int, upper: int)

  /** tstzrange(start, end): a range that starts where it ends is empty, and has no bounds; one that
      ends before it starts is an error. */
  function TsTzRange(start: int, end: int): Option<Range> {
    if start > end then None
    else if start == end then Some(EmptyRange)
    else Some(FromTo(start, end))
  }

  /** check_exited_normally_or_not */
  predicate ExitedNormallyOrNot(exitCode: Option<int>, termSig: Option<int>) {
    Count(exitCode.Some?) + Count(termSig.Some?) in {0, 1}
  }

  /** check_finished_in_full, for a row whose range, stdout and stderr are not NULL. */
  predicate FinishedInFull(runtime: Range, exitCode: Option<int>, termSig: Option<int>) {
    1 + Count(runtime.FromTo?) + Count(runtime.FromTo?) + Count(exitCode.Some?) + Count(termSig.Some?) + 1 + 1 in {0, 6}
  }

  predicate UpdateAccepted(start: int, end: int, exitCode: Option<int>, termSig: Option<int>) {
    TsTzRange(start, end).Some?
    && ExitedNormallyOrNot(exitCode, termSig)
    && FinishedInFull(TsTzRange(start, end).value, exitCode, termSig)
  }

  /** Every outcome has an exit code or a signal; the update of the row passes both constraints exactly
      when time has passed by the clock and no hard error met a child that exited by itself. */
  lemma UpdateAcceptedIff(
    child: Child, hardError: bool, exitCode: Option<int>, termSig: Option<int>, start: int, end: int)
    requires Outcome(child, hardError, exitCode, termSig)
    ensures exitCode.Some? || termSig.Some?
    ensures UpdateAccepted(start, end, exitCode, termSig)
            <==> start < end && !(hardError && child.Reaped? && child.status.ExitedWith?)
  {
  }
}
