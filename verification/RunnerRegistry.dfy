/**
 * Which queues have a runner: the two maps and two sets that `CmdQueueRunnerManager` keeps up to date
 * with the list of queues, over every sequence of refreshes.
 */
module RunnerRegistry {
  import opened Prelude

  const NIX_TEMPLATE := "nix_queue_cmd_template"
  const SQL_TEMPLATE := "sql_queue_cmd_template"

  /** A row of the queue list; it is not valid when some column of it cannot be parsed. */
  datatype Queue = Queue(identity: string, signature: string, valid: bool)

  /** A runner, with the number of its thread. */
  datatype Runner = Runner(queue: Queue, thread: nat)

  datatype Registry = Registry(
    nix: map<string, Runner>,
    sql: map<string, Runner>,
    listed: set<string>,
    threads: nat,
    asked: multiset<string>)

  const EMPTY := Registry(map[], map[], {}, 0, multiset{})

  predicate HasRunner(s: Registry, c: string) {
    c in s.nix || c in s.sql
  }

  function RunnerOf(s: Registry, c: string): Runner
    requires HasRunner(s, c)
  {
    if c in s.nix then s.nix[c] else s.sql[c]
  }

  predicate Known(signature: string) {
    signature == NIX_TEMPLATE || signature == SQL_TEMPLATE
  }

  function Add(s: Registry, q: Queue): Registry {
    if HasRunner(s, q.identity) then s
    else if q.signature == NIX_TEMPLATE then
      s.(nix := s.nix[q.identity := Runner(q, s.threads)], threads := s.threads + 1)
    else if q.signature == SQL_TEMPLATE then
      s.(sql := s.sql[q.identity := Runner(q, s.threads)], threads := s.threads + 1)
    else s
  }

  function AddAll(s: Registry, rows: seq<Queue>): Registry
    decreases |rows|
  {
    if rows == [] then s
    else AddAll(if rows[0].valid then Add(s, rows[0]) else s, rows[1..])
  }

  function Listed(rows: seq<Queue>): set<string> {
    set i | 0 <= i < |rows| && rows[i].valid :: rows[i].identity
  }

  /** Classes that were listed before and are not now. */
  function Gone(s: Registry, rows: seq<Queue>): set<string> {
    s.listed - Listed(rows)
  }

  predicate Stoppable(s: Registry, rows: seq<Queue>) {
    forall c | c in Gone(s, rows) :: HasRunner(s, c)
  }

  /** A refresh that gets through. */
  function Refreshed(s: Registry, rows: seq<Queue>): Registry {
    AddAll(s, rows).(listed := Listed(rows), asked := s.asked + multiset(Gone(s, rows)))
  }

  // ----- The query, with retries -----

  datatype Reply = Rows(rows: seq<Queue>) | Failure

  /** One attempt, and whether a signal to stop is there by the time the wait after it ends. */
  datatype Attempt = Attempt(reply: Reply, signalled: bool)

  datatype Selection = GivesUp | Retrying | Got(rows: seq<Queue>, keepRunning: bool)

  /** What becomes of the query: a manager told to stop goes on with no rows at all. */
  function Select(keepRunning: bool, retry: bool, attempts: seq<Attempt>): Selection {
    if !keepRunning then Got([], false)
    else if attempts == [] then Retrying
    else if attempts[0].reply.Rows? then Got(attempts[0].reply.rows, true)
    else if !retry then GivesUp
    else Select(!attempts[0].signalled, retry, attempts[1..])
  }

  /** The first n attempts failed, and no signal came after any of them. */
  predicate FailedQuietly(attempts: seq<Attempt>, n: nat)
    requires n <= |attempts|
  {
    forall i | 0 <= i < n :: attempts[i].reply.Failure? && !attempts[i].signalled
  }

  /** Attempt n is made at all: the first one always, a later one only to retry. */
  predicate Reaches(attempts: seq<Attempt>, retry: bool, n: nat)
    requires n <= |attempts|
  {
    FailedQuietly(attempts, n) && (retry || n == 0)
  }

  /** What becomes of the query, by what was answered when. */
  ghost predicate Comes(selection: Selection, keepRunning: bool, retry: bool, attempts: seq<Attempt>) {
    && (forall rows ::
          selection == Got(rows, true)
          <==> keepRunning
               && exists n: nat | n < |attempts| :: Reaches(attempts, retry, n) && attempts[n].reply == Rows(rows))
    && (selection == GivesUp <==> keepRunning && !retry && attempts != [] && attempts[0].reply.Failure?)
    && (selection == Got([], false)
        <==> !keepRunning
             || (retry && exists n: nat | n < |attempts| ::
                   Reaches(attempts, retry, n) && attempts[n].reply.Failure? && attempts[n].signalled))
    && (selection == Retrying <==> keepRunning && Reaches(attempts, retry, |attempts|))
    && (selection.Got? && !selection.keepRunning ==> selection.rows == [])
  }

  lemma ReachesFirst(attempts: seq<Attempt>, retry: bool, n: nat)
    requires 0 < n <= |attempts|
    ensures Reaches(attempts, retry, n)
            <==> retry && attempts[0].reply.Failure? && !attempts[0].signalled && Reaches(attempts[1..], retry, n - 1)
  {
    var rest := attempts[1..];
    assert forall i | 0 <= i < |rest| :: rest[i] == attempts[i + 1];
    if retry && attempts[0].reply.Failure? && !attempts[0].signalled && FailedQuietly(rest, n - 1) {
      forall i | 0 <= i < n ensures attempts[i].reply.Failure? && !attempts[i].signalled {
        if i > 0 { assert rest[i - 1] == attempts[i]; }
      }
    }
  }

  lemma {:induction false} SelectComes(keepRunning: bool, retry: bool, attempts: seq<Attempt>)
    ensures Comes(Select(keepRunning, retry, attempts), keepRunning, retry, attempts)
    decreases |attempts|
  {
    if keepRunning && attempts != [] {
      assert Reaches(attempts, retry, 0);
      var first, rest := attempts[0], attempts[1..];
      forall n: nat | 0 < n <= |attempts| { ReachesFirst(attempts, retry, n); }
      if first.reply.Failure? && retry {
        SelectComes(!first.signalled, retry, rest);
        Onwards(Select(!first.signalled, retry, rest), retry, attempts);
      }
    }
  }

  /** A first attempt that failed, with others to come. */
  lemma Onwards(selection: Selection, retry: bool, attempts: seq<Attempt>)
    requires attempts != [] && attempts[0].reply.Failure? && retry
    requires Comes(selection, !attempts[0].signalled, retry, attempts[1..])
    ensures Comes(selection, true, retry, attempts)
  {
  }

  class CmdQueueRunnerManager {
    var nix: map<string, Runner>
    var sql: map<string, Runner>
    var oldCmdClasses: set<string>
    var newCmdClasses: set<string>
    var keepRunning: bool
    var threads: nat
    var asked: multiset<string>

    constructor ()
      ensures State() == EMPTY && keepRunning
    {
      nix, sql, oldCmdClasses, newCmdClasses := map[], map[], {}, {};
      keepRunning, threads, asked := true, 0, multiset{};
    }

    function State(): Registry
      reads this
    {
      Registry(nix, sql, oldCmdClasses, threads, asked)
    }

    method QueueHasRunnerAlready(q: Queue) returns (b: bool)
      ensures b <==> HasRunner(State(), q.identity)
    {
      b := q.identity in nix || q.identity in sql;
    }

    /** A second runner of the same class and kind would not be put in. */
    method AddRunner(q: Queue)
      requires !HasRunner(State(), q.identity)
      modifies this`nix, this`sql, this`threads
      ensures State() == Add(old(State()), q)
    {
      if q.signature == NIX_TEMPLATE {
        nix := nix[q.identity := Runner(q, threads)];
        threads := threads + 1;
      } else if q.signature == SQL_TEMPLATE {
        sql := sql[q.identity := Runner(q, threads)];
        threads := threads + 1;
      }
    }

    method StopRunner(c: string) returns (throws: bool)
      modifies this`asked
      ensures throws <==> !HasRunner(State(), c)
      ensures asked == if throws then old(asked) else old(asked) + multiset{c}
    {
      if c in nix {
        asked := asked + multiset{c};
      } else if c in sql {
        asked := asked + multiset{c};
      } else {
        return true;
      }
      throws := false;
    }

    /** The query, again and again where that is asked for. */
    method SelectQueues(retrySelect: bool, attempts: seq<Attempt>) returns (selection: Selection)
      modifies this`keepRunning
      ensures selection == Select(old(keepRunning), retrySelect, attempts)
      ensures Comes(selection, old(keepRunning), retrySelect, attempts)
      ensures selection.Got? ==> keepRunning == selection.keepRunning
      ensures selection.GivesUp? ==> keepRunning == old(keepRunning)
    {
      hide Comes;
      SelectComes(keepRunning, retrySelect, attempts);
      var retrySeconds := 1;
      var i := 0;
      while keepRunning
        invariant 0 <= i <= |attempts|
        invariant 1 <= retrySeconds <= 60
        invariant keepRunning ==> old(keepRunning)
        invariant Select(keepRunning, retrySelect, attempts[i..]) == Select(old(keepRunning), retrySelect, attempts)
        decreases |attempts| - i, keepRunning
      {
        if i == |attempts| {
          return Retrying;
        }
        var attempt := attempts[i];
        assert attempts[i..][1..] == attempts[i + 1..];
        if attempt.reply.Rows? {
          return Got(attempt.reply.rows, true);
        }
        if !retrySelect {
          return GivesUp;
        }
        if attempt.signalled {
          keepRunning := false;
        }
        if retrySeconds * 2 <= 60 {
          retrySeconds := retrySeconds * 2;
        }
        i := i + 1;
      }
      return Got([], false);
    }

    /** One refresh. Attempts are the answers the query gets until it is given up or still being
        retried; an exception leaves the old classes as they were. */
    method RefreshQueueList(retrySelect: bool, attempts: seq<Attempt>) returns (selection: Selection, throws: bool)
      modifies this
      ensures selection == Select(old(keepRunning), retrySelect, attempts)
      ensures Comes(selection, old(keepRunning), retrySelect, attempts)
      ensures selection.Got? && !throws ==> RefreshedBy(old(State()), State(), selection.rows)
      ensures !selection.Got? ==> !throws && State() == old(State()) && (selection.GivesUp? ==>
                keepRunning == old(keepRunning))
      ensures selection.Got? ==>
                keepRunning == selection.keepRunning
                && (throws <==> !Stoppable(old(State()), selection.rows))
                && if throws then
                     State() == AddAll(old(State()), selection.rows).(asked := asked) && asked >= old(asked)
                   else State() == Refreshed(old(State()), selection.rows)
    {
      hide AddAll, Listed, Select, Stoppable, Gone, HasRunner, Refreshed, Add, Comes, RefreshedBy;
      throws := false;
      ghost var before := State();
      selection := SelectQueues(retrySelect, attempts);
      if !selection.Got? {
        return;
      }
      var rows := selection.rows;
      newCmdClasses := {};
      var r := 0;
      RowsStart(before, rows);
      while r < |rows|
        invariant 0 <= r <= |rows|
        invariant AddAll(State(), rows[r..]) == AddAll(before, rows)
        invariant newCmdClasses == Listed(rows[..r])
        invariant oldCmdClasses == before.listed && asked == before.asked
        invariant keepRunning == selection.keepRunning
      {
        var q := rows[r];
        RowsMore(State(), rows, r);
        r := r + 1;
        if !q.valid {
          continue;
        }
        var has := QueueHasRunnerAlready(q);
        if !has {
          AddRunner(q);
        }
        newCmdClasses := newCmdClasses + {q.identity};
      }
      RowsEnd(State(), rows);
      GoneAsBefore(before, rows);
      RefreshIs(before, rows);
      throws := StopGone(rows);
    }

    /** Stops those that disappeared, unless there is nothing to stop. */
    method StopGone(ghost rows: seq<Queue>) returns (throws: bool)
      requires newCmdClasses == Listed(rows)
      modifies this`asked, this`oldCmdClasses
      ensures throws <==> !Stoppable(old(State()), rows)
      ensures throws ==> oldCmdClasses == old(oldCmdClasses) && asked >= old(asked)
      ensures !throws ==> oldCmdClasses == Listed(rows) && asked == old(asked) + multiset(Gone(old(State()), rows))
    {
      hide Listed, HasRunner, Stoppable, Split, Gone;
      ghost var before := State();
      ghost var gone := Gone(before, rows);
      var left := oldCmdClasses - newCmdClasses;
      ghost var done: set<string> := {};
      SplitStart(before, rows);
      while left != {}
        invariant Split(left, done, gone)
        invariant forall c | c in done :: HasRunner(before, c)
        invariant oldCmdClasses == before.listed
        invariant asked == before.asked + multiset(done)
        decreases left
      {
        var c :| c in left;
        var failed := StopRunner(c);
        SameRunner(State(), before, c);
        if failed {
          SplitStep(left, done, gone, c);
          StoppableIff(before, rows);
          return true;
        }
        SplitStep(left, done, gone, c);
        left, done := left - {c}, done + {c};
      }
      SplitEnd(done, gone);
      StoppableIff(before, rows);
      oldCmdClasses := newCmdClasses;
      throws := false;
    }
  }

  predicate Split(left: set<string>, done: set<string>, gone: set<string>) {
    left + done == gone && left !! done
  }

  lemma SplitStart(s: Registry, rows: seq<Queue>)
    ensures Split(s.listed - Listed(rows), {}, Gone(s, rows))
  {
  }

  lemma SplitStep(left: set<string>, done: set<string>, gone: set<string>, c: string)
    requires Split(left, done, gone) && c in left
    ensures Split(left - {c}, done + {c}, gone) && c in gone
    ensures multiset(done + {c}) == multiset(done) + multiset{c}
  {
  }

  lemma SplitEnd(done: set<string>, gone: set<string>)
    requires Split({}, done, gone)
    ensures done == gone
  {
  }

  lemma StoppableIff(s: Registry, rows: seq<Queue>)
    ensures Stoppable(s, rows) <==> forall c | c in Gone(s, rows) :: HasRunner(s, c)
  {
  }

  lemma SameRunner(s: Registry, m: Registry, c: string)
    requires s.nix == m.nix && s.sql == m.sql
    ensures HasRunner(s, c) <==> HasRunner(m, c)
  {
  }

  lemma GoneAsBefore(s: Registry, rows: seq<Queue>)
    ensures Stoppable(AddAll(s, rows), rows) == Stoppable(s, rows)
    ensures var m := AddAll(s, rows);
            m.(listed := Listed(rows), asked := s.asked + multiset(Gone(m, rows))) == Refreshed(s, rows)
    ensures AddAll(s, rows).listed == s.listed && AddAll(s, rows).asked == s.asked
  {
    hide HasRunner, AddAll;
    var m := AddAll(s, rows);
    AddAllGrows(s, rows);
    assert Gone(m, rows) == Gone(s, rows);
    forall c | c in Gone(s, rows) ensures HasRunner(m, c) == HasRunner(s, c) {
      StartsListed(rows, c);
    }
  }

  lemma StartsListed(rows: seq<Queue>, c: string)
    ensures Starts(rows, c) ==> c in Listed(rows)
  {
  }

  lemma RowsEnd(s: Registry, rows: seq<Queue>)
    ensures AddAll(s, rows[|rows|..]) == s && rows[..|rows|] == rows
  {
  }

  lemma RowsStart(s: Registry, rows: seq<Queue>)
    ensures rows[0..] == rows && Listed(rows[..0]) == {}
  {
  }

  lemma RowsMore(s: Registry, rows: seq<Queue>, r: nat)
    requires r < |rows|
    ensures AddAll(s, rows[r..]) == AddAll(if rows[r].valid then Add(s, rows[r]) else s, rows[r + 1..])
    ensures HasRunner(s, rows[r].identity) ==> Add(s, rows[r]) == s
    ensures Listed(rows[..r + 1]) == Listed(rows[..r]) + if rows[r].valid then {rows[r].identity} else {}
  {
    assert rows[r..][1..] == rows[r + 1..];
    ListedMore(rows, r);
  }

  lemma ListedMore(rows: seq<Queue>, r: nat)
    requires r < |rows|
    ensures Listed(rows[..r + 1]) == Listed(rows[..r]) + if rows[r].valid then {rows[r].identity} else {}
  {
    var a, b := rows[..r], rows[..r + 1];
    assert forall i | 0 <= i < r :: a[i] == b[i];
    assert b[r] == rows[r];
  }

  // ----- One refresh -----

  predicate ValidlyLists(rows: seq<Queue>, c: string) {
    exists i | 0 <= i < |rows| :: rows[i].valid && rows[i].identity == c
  }

  predicate ListsAs(rows: seq<Queue>, c: string, signature: string) {
    exists i | 0 <= i < |rows| :: rows[i].valid && rows[i].identity == c && rows[i].signature == signature
  }

  /** What a refresh makes of the rows: the listed classes are those of the valid rows; every class that
      they list as a nix or SQL queue has a runner, each that had one has the same, and no other has; and
      those are asked to stop, once, that were listed and are not any more. */
  ghost predicate RefreshedBy(s: Registry, m: Registry, rows: seq<Queue>) {
    && (forall c :: c in m.listed <==> ValidlyLists(rows, c))
    && (forall c :: c in s.nix ==> c in m.nix && m.nix[c] == s.nix[c])
    && (forall c :: c in s.sql ==> c in m.sql && m.sql[c] == s.sql[c])
    && (forall c :: ListsAs(rows, c, "nix_queue_cmd_template") || ListsAs(rows, c, "sql_queue_cmd_template") ==>
          c in m.nix || c in m.sql)
    && (forall c :: c in m.nix && c !in s.nix ==> ListsAs(rows, c, "nix_queue_cmd_template") && c !in s.sql)
    && (forall c :: c in m.sql && c !in s.sql ==> ListsAs(rows, c, "sql_queue_cmd_template") && c !in s.nix)
    && (forall c :: m.asked[c] == s.asked[c] + if c in s.listed && !ValidlyLists(rows, c) then 1 else 0)
  }

  lemma ListsMore(rows: seq<Queue>, c: string, signature: string)
    requires rows != []
    ensures ListsAs(rows, c, signature)
            <==> (rows[0].valid && rows[0].identity == c && rows[0].signature == signature)
                 || ListsAs(rows[1..], c, signature)
  {
    var rest := rows[1..];
    assert forall i | 0 <= i < |rest| :: rest[i] == rows[i + 1];
    if i :| 0 <= i < |rows| && rows[i].valid && rows[i].identity == c && rows[i].signature == signature {
      if i > 0 { assert rest[i - 1] == rows[i]; }
    }
  }

  /** New entries are of rows of their kind, and of classes that had none. */
  lemma {:induction false} AddedFrom(s: Registry, rows: seq<Queue>)
    ensures var m := AddAll(s, rows);
            (forall c :: c in m.nix && c !in s.nix ==> ListsAs(rows, c, "nix_queue_cmd_template") && c !in s.sql)
            && (forall c :: c in m.sql && c !in s.sql ==> ListsAs(rows, c, "sql_queue_cmd_template") && c !in s.nix)
    decreases |rows|
  {
    if rows != [] {
      hide ListsAs;
      var next := if rows[0].valid then Add(s, rows[0]) else s;
      AddedFrom(next, rows[1..]);
      forall c, signature { ListsMore(rows, c, signature); }
      hide AddAll;
    }
  }

  lemma StartsIs(rows: seq<Queue>, c: string)
    ensures Starts(rows, c)
            <==> ListsAs(rows, c, "nix_queue_cmd_template") || ListsAs(rows, c, "sql_queue_cmd_template")
  {
  }

  lemma RefreshIs(s: Registry, rows: seq<Queue>)
    ensures RefreshedBy(s, Refreshed(s, rows), rows)
  {
    hide AddAll, Starts, ListsAs;
    AddAllGrows(s, rows);
    AddedFrom(s, rows);
    forall c { StartsIs(rows, c); }
  }

  /** A valid row of a kind that can be run. */
  predicate Starts(rows: seq<Queue>, c: string) {
    exists i | 0 <= i < |rows| :: rows[i].valid && rows[i].identity == c && Known(rows[i].signature)
  }

  predicate Grew(s: Registry, m: Registry) {
    s.threads <= m.threads
    && (forall c | c in s.nix :: c in m.nix && m.nix[c] == s.nix[c])
    && (forall c | c in s.sql :: c in m.sql && m.sql[c] == s.sql[c])
  }

  /** No class is in both maps, each entry is of its class and kind, and no two have one thread. */
  ghost predicate Consistent(s: Registry) {
    s.nix.Keys !! s.sql.Keys
    && (forall c | c in s.nix :: s.nix[c].queue.identity == c && s.nix[c].queue.signature == NIX_TEMPLATE)
    && (forall c | c in s.sql :: s.sql[c].queue.identity == c && s.sql[c].queue.signature == SQL_TEMPLATE)
    && (forall c | HasRunner(s, c) :: RunnerOf(s, c).thread < s.threads)
    && (forall c, d | HasRunner(s, c) && HasRunner(s, d) :: RunnerOf(s, c).thread == RunnerOf(s, d).thread ==> c == d)
  }

  lemma AddKeeps(s: Registry, q: Queue)
    ensures Grew(s, Add(s, q)) && (Consistent(s) ==> Consistent(Add(s, q)))
    ensures Add(s, q).listed == s.listed && Add(s, q).asked == s.asked
    ensures forall c :: HasRunner(Add(s, q), c) <==> HasRunner(s, c) || (c == q.identity && Known(q.signature))
  {
    if Consistent(s) { AddConsistent(s, q); }
  }

  lemma AddConsistent(s: Registry, q: Queue)
    requires Consistent(s)
    ensures Consistent(Add(s, q))
  {
    var m := Add(s, q);
    if HasRunner(s, q.identity) || !Known(q.signature) { return; }
    hide Known;
    forall c | HasRunner(m, c) ensures RunnerOf(m, c).thread < m.threads {
      if c != q.identity { assert HasRunner(s, c); }
    }
    forall c, d | HasRunner(m, c) && HasRunner(m, d) && RunnerOf(m, c).thread == RunnerOf(m, d).thread ensures c == d {
      assert c != q.identity ==> HasRunner(s, c);
      assert d != q.identity ==> HasRunner(s, d);
    }
  }

  lemma StartsFirst(rows: seq<Queue>, c: string)
    requires rows != []
    ensures Starts(rows, c) <==>
            (rows[0].valid && rows[0].identity == c && Known(rows[0].signature)) || Starts(rows[1..], c)
  {
    if i :| 0 <= i < |rows[1..]| && rows[1..][i].valid && rows[1..][i].identity == c && Known(rows[1..][i].signature) {
      assert rows[i + 1] == rows[1..][i];
    }
    if i :| 0 <= i < |rows| && rows[i].valid && rows[i].identity == c && Known(rows[i].signature) {
      if i > 0 { assert rows[1..][i - 1] == rows[i]; }
    }
  }

  lemma {:induction false} AddAllGrows(s: Registry, rows: seq<Queue>)
    ensures Grew(s, AddAll(s, rows)) && (Consistent(s) ==> Consistent(AddAll(s, rows)))
    ensures AddAll(s, rows).listed == s.listed && AddAll(s, rows).asked == s.asked
    ensures forall c :: HasRunner(AddAll(s, rows), c) <==> HasRunner(s, c) || Starts(rows, c)
    decreases |rows|
  {
    if rows != [] {
      hide Starts, Consistent, Known, Add;
      AddKeeps(s, rows[0]);
      AddAllGrows(if rows[0].valid then Add(s, rows[0]) else s, rows[1..]);
      forall c ensures HasRunner(AddAll(s, rows), c) <==> HasRunner(s, c) || Starts(rows, c) { StartsFirst(rows, c); }
    }
  }

  // ----- Every sequence of refreshes -----

  /** The registry after a sequence of lists, or None from the first refresh that throws: nobody
      catches the exception. */
  function After(history: seq<seq<Queue>>): Option<Registry> {
    if history == [] then Some(EMPTY)
    else
      match After(history[..|history| - 1])
      case None => None
      case Some(s) =>
        var rows := history[|history| - 1];
        if Stoppable(s, rows) then Some(Refreshed(s, rows)) else None
  }

  predicate EverStarts(history: seq<seq<Queue>>, c: string) {
    exists k | 0 <= k < |history| :: Starts(history[k], c)
  }

  /** How often a class was listed by one refresh and not by the next. */
  function Disappearances(history: seq<seq<Queue>>, c: string): nat {
    if |history| < 2 then 0
    else Disappearances(history[..|history| - 1], c)
         + Count(c in Listed(history[|history| - 2]) && c !in Listed(history[|history| - 1]))
  }

  /** Over every sequence of refreshes that gets through: the registry is consistent, the classes that
      have a runner are those that some list could start one for, and each was asked to stop once for
      every time it disappeared from the list. */
  lemma {:induction false} RegistryHolds(history: seq<seq<Queue>>)
    ensures After(history).Some? ==>
              var s := After(history).value;
              Consistent(s)
              && s.listed == (if history == [] then {} else Listed(history[|history| - 1]))
              && (forall c :: HasRunner(s, c) <==> EverStarts(history, c))
              && (forall c :: s.asked[c] == Disappearances(history, c))
  {
    hide Starts, Consistent, Listed, HasRunner, Refreshed, EverStarts, Stoppable;
    if history == [] {
      EmptyIsConsistent();
    } else if After(history).Some? {
      var n := |history| - 1;
      var before := history[..n];
      RegistryHolds(before);
      RefreshKeeps(After(before).value, history[n]);
      forall c ensures EverStarts(history, c) <==> EverStarts(before, c) || Starts(history[n], c) {
        EverStartsLast(history, c);
      }
      if n > 0 { assert before[n - 1] == history[n - 1]; }
    }
  }

  lemma RefreshKeeps(s: Registry, rows: seq<Queue>)
    ensures var m := Refreshed(s, rows);
            (Consistent(s) ==> Consistent(m))
            && m.listed == Listed(rows)
            && (forall c :: HasRunner(m, c) <==> HasRunner(s, c) || Starts(rows, c))
            && (forall c :: m.asked[c] == s.asked[c] + Count(c in s.listed && c !in Listed(rows)))
  {
    hide Starts, Consistent, Listed, HasRunner, AddAll;
    AddAllGrows(s, rows);
    SameRunners(AddAll(s, rows), Refreshed(s, rows));
  }

  lemma EmptyIsConsistent()
    ensures Consistent(EMPTY) && forall c :: !HasRunner(EMPTY, c) && !EverStarts([], c)
  {
  }

  lemma SameRunners(s: Registry, m: Registry)
    requires s.nix == m.nix && s.sql == m.sql && s.threads == m.threads
    ensures Consistent(s) ==> Consistent(m)
    ensures forall c :: HasRunner(s, c) == HasRunner(m, c)
  {
    if Consistent(s) {
      forall c | HasRunner(m, c) ensures RunnerOf(m, c).thread < m.threads { assert HasRunner(s, c); }
      forall c, d | HasRunner(m, c) && HasRunner(m, d) && RunnerOf(m, c).thread == RunnerOf(m, d).thread
        ensures c == d
      {
        assert HasRunner(s, c) && HasRunner(s, d);
      }
    }
  }

  lemma EverStartsLast(history: seq<seq<Queue>>, c: string)
    requires history != []
    ensures EverStarts(history, c) <==> EverStarts(history[..|history| - 1], c) || Starts(history[|history| - 1], c)
  {
    var n := |history| - 1;
    if k :| 0 <= k < |history| && Starts(history[k], c) {
      if k < n { assert history[..n][k] == history[k]; }
    }
    if k :| 0 <= k < n && Starts(history[..n][k], c) {
      assert history[..n][k] == history[k];
    }
  }

  /** A class that some refresh finds gone and can never have started. */
  predicate Unstoppable(history: seq<seq<Queue>>, k: nat, c: string)
    requires 0 < k < |history|
  {
    c in Listed(history[k - 1]) && c !in Listed(history[k]) && !EverStarts(history[..k], c)
  }

  lemma LastStoppableIff(history: seq<seq<Queue>>, n: nat)
    requires 0 < n == |history| - 1 && After(history[..n]).Some?
    ensures Stoppable(After(history[..n]).value, history[n]) <==> forall c :: !Unstoppable(history, n, c)
  {
    hide Listed, EverStarts, HasRunner, After, Stoppable;
    var s := After(history[..n]).value;
    RegistryHolds(history[..n]);
    StoppableIff(s, history[n]);
    assert history[..n][n - 1] == history[n - 1];
    forall c ensures Unstoppable(history, n, c) <==> c in Gone(s, history[n]) && !HasRunner(s, c) {}
  }

  /** Exactly when a sequence of refreshes gets through without throwing: no class ever disappears
      that was not listed, up to then, with a signature that can be run. */
  lemma {:induction false} GetsThroughIff(history: seq<seq<Queue>>)
    ensures After(history).Some? <==> forall k, c | 0 < k < |history| :: !Unstoppable(history, k, c)
  {
    hide Listed, EverStarts, Refreshed, HasRunner;
    if history != [] {
      var n := |history| - 1;
      var before := history[..n];
      GetsThroughIff(before);
      RegistryHolds(before);
      forall k, c | 0 < k < n ensures Unstoppable(before, k, c) == Unstoppable(history, k, c) {
        assert before[..k] == history[..k];
      }
      if n > 0 { assert before[n - 1] == history[n - 1]; }
      if n > 0 && After(before).Some? { LastStoppableIff(history, n); }
    }
  }

  /** With no signatures but those the table allows, no refresh ever throws. */
  lemma NeverThrows(history: seq<seq<Queue>>)
    requires forall k, i | 0 <= k < |history| && 0 <= i < |history[k]| :: Known(history[k][i].signature)
    ensures After(history).Some?
  {
    GetsThroughIff(history);
    forall k, c | 0 < k < |history| ensures !Unstoppable(history, k, c) {
      if c in Listed(history[k - 1]) {
        assert Starts(history[k - 1], c);
        assert history[..k][k - 1] == history[k - 1];
      }
    }
  }

  /** A runner once there is there for good, whatever lists follow. */
  lemma {:induction false} NeverReplaced(history: seq<seq<Queue>>, more: seq<seq<Queue>>)
    ensures After(history + more).Some? ==>
              After(history).Some? && Grew(After(history).value, After(history + more).value)
  {
    hide Starts, Consistent, HasRunner, Listed, AddAll, Stoppable;
    if more == [] {
      assert history + more == history;
    } else {
      var n := |more| - 1;
      var all := history + more;
      assert all[..|all| - 1] == history + more[..n] && all[|all| - 1] == more[n];
      NeverReplaced(history, more[..n]);
      if After(all).Some? { AddAllGrows(After(history + more[..n]).value, more[n]); }
    }
  }

  /** So a queue that was dropped from the list and is listed again gets no new runner: it keeps the
      one that was asked to stop. */
  lemma RelistedKeepsStoppedRunner(q: Queue)
    requires q.valid && Known(q.signature)
    ensures var once, again := After([[q]]), After([[q], [], [q]]);
            once.Some? && again.Some?
            && HasRunner(once.value, q.identity) && HasRunner(again.value, q.identity)
            && RunnerOf(again.value, q.identity) == RunnerOf(once.value, q.identity)
            && again.value.asked[q.identity] == 1
  {
    hide After, Disappearances;
    var h := [[q], [], [q]];
    NeverThrows(h);
    NeverReplaced([[q]], [[], [q]]);
    assert [[q]] + [[], [q]] == h;
    RegistryHolds([[q]]);
    RegistryHolds(h);
    assert Starts([q], q.identity) by { assert [q][0] == q; }
    assert EverStarts([[q]], q.identity) by { assert [[q]][0] == [q]; }
    DroppedOnce(q);
  }

  lemma DroppedOnce(q: Queue)
    requires q.valid
    ensures Disappearances([[q], [], [q]], q.identity) == 1
  {
    var h := [[q], [], [q]];
    assert h[..2] == [[q], []] && h[..2][..1] == [[q]];
    assert q.identity in Listed([q]) by { assert [q][0] == q; }
    assert Listed([]) == {};
    assert Disappearances([[q]], q.identity) == 0;
    assert Disappearances(h[..2], q.identity) == 1;
  }
}
