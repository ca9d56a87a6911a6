# A Dafny model of pg_cmd_queue

`pg_cmd_queue` keeps queues of commands in PostgreSQL tables. A daemon, `pg_cmdqd`, has one runner
thread per queue; a runner selects a command, runs it, updates its row and commits, over and over.
This project models the parts whose guarantees span several functions, or live half in C++ and half
in SQL, and proves those guarantees for every input, every run and every interleaving. Nothing here
runs the program, and nothing was executed: the statements are about the model, and the source
column below says which code each part of the model follows.

`dafny verify dfyconfig.toml` checks everything.

| file | what it holds |
|---|---|
| `QueueProtocol.dfy` | one queue, its row locks and any number of runner sessions, as a state machine with one step per SQL statement |
| `QueueSafety.dfy` | the invariant of that machine, mutual exclusion, transaction discipline |
| `QueueConservation.dfy` | no command is lost or duplicated between queue and log |
| `QueueRounds.dfy` | what a reselect round does and does not run, its pace and its number |
| `QueueSelects.dfy` | which command a select returns, for a notification and for a round, and where rounds start |
| `QueueWitnesses.dfy` | runs that show which conditions cannot be dropped |
| `QueueRunner.dfy` | the loops of `_run`, imperatively, proved to take only steps of the protocol |
| `ReselectRound.dfy` | the round counter |
| `SqlCommand.dfy` | an SQL command between savepoints |
| `SqlInQueue.dfy` | such a command as one step of the queue protocol |
| `NixCommand.dfy` | the poll loop around a child process, against a kernel that does what it likes |
| `NixTurns.dfy` | that loop as the calls it makes, and what all its turns together come to |
| `StderrLines.dfy` | lines of stderr |
| `RunnerRegistry.dfy` | which queues have a runner, over every sequence of refreshes |
| `CompositeText.dfy`, `ArrayText.dfy`, `HstoreText.dfy`, `Quoting.dfy` | printers and cursor-driven parsers of PostgreSQL's text forms |
| `ServerInput.dfy` | how the server reads the array and hstore texts that the runner prints |
| `CommandLine.dfy` | `cmd_line` against a POSIX shell, and the argument loop of `pg_nix_queue_cmd` |
| `Prelude.dfy` | shared vocabulary |

## How to read it

*Runs.* A run of the queue protocol is a sequence of states and steps, each step enabled where it
happens (`QueueProtocol.IsRun`). The steps of any number of runners, of clients that insert, and of
clients that lock rows are interleaved freely; a connection can be lost at any moment. The theorems
quantify over all runs and all positions in them. `QueueRunner` closes the gap to the loops of
`_run`: its class keeps the loop's own variables, calls the database through methods whose
preconditions are the protocol's, lets anything happen between two calls, and is proved to leave
behind a run of the protocol in which its own steps are, one by one, those that the source takes. A
thread returns only for a cause that was there.

*Arbitrary environments.* Where the source asks the outside world (kernel, clock, server, user SQL),
the model takes any answer. Loops that the world can keep going for ever are watched for an arbitrary
number of turns, so that their contracts hold of every finite part of every execution.

*Assumptions about the environment of the queue protocol.*
- An UPDATE that succeeds returns its row: no trigger returns NULL.
- Triggers do not change `cmd_id`, `cmd_subid` or `cmd_queued_since`.
- `remember_failed_update_for_this_reselect_round` succeeds or the key is remembered already; where
  the connection is lost it has no effect, and this case is part of the model.
- COMMIT succeeds; the step for a COMMIT that is refused is part of the model, and the theorems that
  need it not to happen say so.
- A reconnect starts a fresh session and a fresh round.
- Other clients insert rows and lock rows; they do not delete or update them.
- A row lock lives until the end of its transaction, as in section 13.3.2 of the PostgreSQL
  documentation. An UPDATE that fails aborts the transaction and frees the row at once, before the
  ROLLBACK; a lost connection frees it as soon as the server notices.
- The queue is a table with a unique key (cmd_id, cmd_subid). The table that
  `queue_cmd__insert_elsewhere` fills may have such a key or not: an UPDATE can fail for that reason,
  as for any other.
- Reading the steady clock after a select is one step with the select's return.

## Where the code does not do what one would expect

Each of these is a lemma or a clause below, not an opinion.
- `ROLLBACK TO SAVEPOINT` keeps the savepoint: after a failing SQL command the transaction is as
  before but for one savepoint more (`SqlCommand.AllOrNothing`). User SQL that uses the name
  `pre_run_cmd` itself defeats the rollback (`SqlCommand.OwnNameDefeatsRollback`).
- The result of COMMIT is not looked at; refused, it takes the entry in `updated_cmd` with it, and
  the round can run the command again (`QueueWitnesses.RefusedCommitRunsTwice`): exactly if no other
  execution of it in the round was committed or remembered (`QueueRounds.QualifiesIff`).
- A runner that loses its connection while its command runs does not notice, and another may start
  the same command beside it (`QueueWitnesses.LostConnectionRunsTwice`).
- Rounds are numbered 0, 0, 1, 2, …: with every-nth randomization the first two are both randomized
  (`ReselectRound.FirstTwoBothRandomized`).
- The pipe to a command's stdin is closed while it is supervised if and only if there was something to
  send and all of it was delivered; with an empty `cmd_stdin` the child never sees the end of its input
  (`NixCommand.NixQueueCmd.RunCmd`).
- A hard error (among them EAGAIN on write, and EINTR on read) sets the signal to SIGABRT; when the
  child had exited by itself both columns are set and the UPDATE is refused, as it is when start and
  end are read equal (`NixCommand.UpdateAcceptedIff`).
- A line of stderr that arrives in parts loses all parts but the last in the running log
  (`StderrLines.FlushInPartsIff`).
- A queue that disappears from the list and comes back gets no new runner; the stopped one stays
  (`RunnerRegistry.RelistedKeepsStoppedRunner`).
- A queue with a signature that cannot be run makes a refresh throw when it disappears
  (`RunnerRegistry.GetsThroughIff`).
- The parsers are not inverses on all texts; the exact domains are stated below.

## Model

| member | source | states |
|---|---|---|
| QueueSafety.LocksAgreeStep | sql/pg_cmd_queue--0.1.0.sql:1884-1904 | every step of anybody keeps row locks and runners' phases in agreement: a lock is held by the one connected runner that is at work on the row |
| QueueSafety.InvHolds | pg_cmdqd/cmdqueuerunner.h:85-327 | locks, sessions and pacing are consistent in every state of every run |
| QueueSafety.LockHeldToTransactionEnd | pg_cmdqd/cmdqueuerunner.h:90-203 | from the select that returned a row until its transaction ends, by COMMIT, by the error of a failing UPDATE or with the connection, and through a failing command, the row stays queued and locked, and no select of any runner returns it |
| QueueSafety.FailedUpdateFreesRow | pg_cmdqd/cmdqueuerunner.h:139-148 | after a failing UPDATE the runner holds no lock any more, ROLLBACK or not |
| QueueSafety.MutualExclusion | sql/pg_cmd_queue--0.1.0.sql:1903 | no two runners with a live connection are at work on the same (cmd_id, cmd_subid) |
| QueueSafety.SelectStartsIdle | pg_cmdqd/cmdqueuerunner.h:85-92 | every iteration of the select loop begins with nothing locked and nothing unsaved |
| QueueSafety.ExecutionsAccountedFor | pg_cmdqd/cmdqueuerunner.h:123-159 | executions of a command by a runner = committed updates + remembered failures + forfeited ones + at most one in flight |
| QueueSafety.NothingForfeited | pg_cmdqd/cmdqueuerunner.h:139-158 | with the connection up and commits succeeding, no execution ends without a committed update or a remembered failure |
| QueueConservation.AtMostOneUpdatePerInsertion | sql/pg_cmd_queue--0.1.0.sql:1382-1409 | with delete-after-update, over any run of any number of runners: committed updates + still queued = queued at first + insertions |
| QueueConservation.LoggedIffCommitted | sql/pg_cmd_queue--0.1.0.sql:1292-1312 | with insert-elsewhere, whether or not the other table has a unique key, it gains one row of a command for each committed update of it and no other |
| QueueConservation.CommandsConserved | sql/pg_cmd_queue--0.1.0.sql:1292-1409 | with both triggers, in every committed state: rows in queue and log = those at first + insertions, whatever failed or was rolled back |
| QueueConservation.InExactlyOneTable | sql/pg_cmd_queue--0.1.0.sql:1292-1409 | a command put in once is always in exactly one of the two tables, once |
| QueueRounds.NeverTwicePerRound | sql/pg_cmd_queue--0.1.0.sql:1886-1893 | once executed in a round, by whichever select and with whichever result, a command is not returned by the regular select before the next round, NULL subids being equal, unless its COMMIT was refused |
| QueueRounds.UpdatedIff | sql/pg_cmd_queue--0.1.0.sql:1948-1964 | throughout a round, `updated_cmd` holds exactly the commands of which an update was committed or a failure remembered in it, and the one updated in the open transaction |
| QueueRounds.QualifiesIff | sql/pg_cmd_queue--0.1.0.sql:1884-1904 | a queued, unlocked command qualifies for the regular select if and only if none of its executions in the round was committed or remembered |
| QueueRounds.QueueGrowsByInsertion | sql/pg_cmd_queue--0.1.0.sql:1923-1966 | no runner's step ever puts a row into the queue |
| QueueRounds.RoundIsBounded | pg_cmdqd/cmdqueuerunner.h:94-158 | regular executions of any round are at most the keys pending at its start plus those inserted during it, plus one for every COMMIT of the round that was refused |
| QueueRounds.QuietRoundRunsEverything | sql/pg_cmd_queue--0.1.0.sql:1908-1919 | an undisturbed round sees the empty select exactly when all that was pending has been executed, each once, sorted by cmd_queued_since unless randomized |
| QueueRounds.DeadlineMoves | pg_cmdqd/cmdqueuerunner.h:164-172 | the deadline moves only on an empty select that was not for a NOTIFY, and at connect |
| QueueRounds.NextRegularSelectWaits | pg_cmdqd/cmdqueuerunner.h:205-285 | whatever notifications intervene, the regular select after an empty one begins later than the interval less one millisecond after it |
| QueueRounds.WaitIsAtMostInterval | pg_cmdqd/cmdqueuerunner.h:269-275 | poll() is never asked to wait longer than the interval, nor for a negative time |
| QueueRounds.RoundIsNumbered | pg_cmdqd/cmdqueuerunner.h:183-184 | the runner's `reselect_round` and the session's setting are those of the number of rounds entered since the connect |
| QueueSelects.NotifiedSelectIs | sql/pg_cmd_queue--0.1.0.sql:1916-1917 | the select for a notification returns the very (cmd_id, cmd_subid) notified of, NULL subids being equal, or nothing, and that exactly if it is not queued or is locked, whatever was executed in the round |
| QueueSelects.PayloadReachesItsQueue | sql/pg_cmd_queue--0.1.0.sql:1240 | a payload of fields that need no quoting gives back (class, id, subid) when, and only when, it is addressed to this queue |
| QueueSelects.NotifiedCommandIsSelected | pg_cmdqd/cmdqueuerunner.h:94-267 | from payload to row: it is heeded exactly if it names this queue, and the next select then returns that row, or none where it is not queued or is locked |
| QueueSelects.RegularSelectIs | sql/pg_cmd_queue--0.1.0.sql:1884-1919 | a regular select returns nothing exactly if every queued command is locked or recorded in the round; else one that is neither, and outside random rounds the oldest of those |
| QueueSelects.RegularKindIs | pg_cmdqd/cmdqueuerunner.h:94-116 | without every-nth randomization every regular select is the oldest-first one; with it, it is the random one exactly in the rounds with a multiple of n for a number |
| QueueSelects.RoundFitsIff | pg_cmdqd/cmdqueuerunner.h:183-184 | a round can be entered exactly while its number fits 31 bits |
| QueueSelects.ConnectStartsRound | sql/pg_cmd_queue--0.1.0.sql:2053 | a new session starts a round with nothing recorded |
| QueueSelects.EnteredRoundStarts | sql/pg_cmd_queue--0.1.0.sql:2053 | so does entering a round, once its transaction is committed |
| QueueWitnesses.LostConnectionRunsTwice | pg_cmdqd/cmdqueuerunner.h:123-142 | a run in which two runners execute one command at once, one of them without a connection |
| QueueWitnesses.RefusedCommitRunsTwice | pg_cmdqd/cmdqueuerunner.h:198-203 | a run in which one round executes a command twice because a COMMIT was refused |
| ReselectRound.RoundSetting.EnterReselectRound | sql/pg_cmd_queue--0.1.0.sql:2043-2062 | the m-th call of a session returns (m-1) mod (2^63-1), and the setting stays a positive bigint |
| ReselectRound.MthCall | sql/pg_cmd_queue--0.1.0.sql:2051-2060 | closed form of the counter for every m |
| ReselectRound.OneInEveryNth | pg_cmdqd/cmdqueuerunner.h:107 | any n consecutive rounds after the initial one hold exactly one randomized round, while the number fits an int |
| ReselectRound.FirstTwoBothRandomized | pg_cmdqd/cmdqueuerunner.h:80-107 | the initial round and the first one entered are both randomized, for every n |
| QueueRunner.Postgres.ExecSelect | pg_cmdqd/cmdqueuerunner.h:94-121 | requires the statement and the key that round and notification call for; afterwards the runner executes the returned row, which for a notification is the one with that key, or its round is over with the deadline one interval on, or only a NOTIFY came too late, or the select failed |
| QueueRunner.Postgres.Poll | pg_cmdqd/cmdqueuerunner.h:269-285 | requires the truncated, non-negative time left to the deadline; the wait ends interrupted, broken, with input or a request to stop, or at the deadline with no notification pending |
| QueueRunner.Postgres.Ignore | pg_cmdqd/cmdqueuerunner.h:219-266 | requires that the payload at hand does not address this queue |
| QueueRunner.Postgres.Heed | pg_cmdqd/cmdqueuerunner.h:248-261 | requires that the payload at hand addresses this queue with that very key |
| QueueRunner.CmdQueueRunner.RunSelected | pg_cmdqd/cmdqueuerunner.h:123-159 | a selected row is run and updated, or rolled back and remembered, and nothing else is done |
| QueueRunner.CmdQueueRunner.SelectAndHandle | pg_cmdqd/cmdqueuerunner.h:92-196 | exactly one select, of the kind that notification and round call for, followed by exactly what its result calls for |
| QueueRunner.CmdQueueRunner.SelectAndRun | pg_cmdqd/cmdqueuerunner.h:85-203 | the steps of one iteration, one by one: BEGIN, the select and what it leads to, the end of the transaction; the thread ends only where a round cannot be entered; round and deadline are the protocol's |
| QueueRunner.CmdQueueRunner.ReadPayload | pg_cmdqd/cmdqueuerunner.h:219-267 | a payload is heeded exactly if it has three fields, the first two not NULL, the first of them this queue |
| QueueRunner.CmdQueueRunner.PollOnce | pg_cmdqd/cmdqueuerunner.h:269-324 | the steps of one wait: on a timeout to the select, on lost input to reconnecting, out at once only if poll() fails, to stop only when the kill pipe says so, and around again otherwise |
| QueueRunner.CmdQueueRunner.AwaitNext | pg_cmdqd/cmdqueuerunner.h:205-325 | after any number of ignored notifications and waits that lead nowhere, what ends the loop is a heeded notification, the deadline, lost input, a failing poll() or a request to stop, and the protocol has it so |
| QueueRunner.CmdQueueRunner.RunSession | pg_cmdqd/cmdqueuerunner.h:85-327 | a session goes on until its input is lost, a round cannot be entered, poll() fails or the thread is told to stop; every turn it was watched for is accounted for |
| QueueRunner.CmdQueueRunner.Run | pg_cmdqd/cmdqueuerunner.h:51-331 | for any other runners and clients, the whole thread extends a run of the protocol, takes every turn it is watched for, and returns only after a session that could not start, a round that could not be entered, a failing poll(), or, exactly when it is no longer to keep running, a request to stop |
| SqlCommand.SqlQueueCmd.RunCmd | pg_cmdqd/sqlqueuecmd.cpp:113-195 | for any SQL and any connection, lost or not: every statement sent, given what came back, and the status, fatal error and flags that follow; over a connection that holds, the transaction at the end too, which for SQL that keeps to itself has the effect exactly if its statements run through, its status is PGRES_TUPLES_OK or PGRES_COMMAND_OK, and its pending checks pass; a lost connection always counts as failed bookkeeping |
| SqlCommand.RunUnder | pg_cmdqd/sqlqueuecmd.cpp:131-158 | SQL that is silent about the outer savepoints runs the same inside them as without them |
| SqlCommand.RunKeeps | pg_cmdqd/sqlqueuecmd.cpp:132-134 | whatever the SQL does with savepoints of its own, earlier locks are kept |
| SqlCommand.AllOrNothing | pg_cmdqd/sqlqueuecmd.cpp:131-192 | the transaction ends as before the command plus one savepoint, or as the command run by itself with its constraints fired and none pending and the same savepoints; never in error, earlier locks kept, a fatal error exactly in the first case |
| SqlCommand.EffectIff | pg_cmdqd/sqlqueuecmd.cpp:143-192 | exactly when a command takes effect, and the transaction, status, fatal error and flags in either case, spelled out |
| SqlInQueue.CommandKeepsRow | pg_cmdqd/sqlqueuecmd.cpp:132-134 | that the protocol's step for a finished command leaves the row locked is what the savepoint is for: whatever SQL was run and however it failed, the transaction goes on with the lock |
| SqlCommand.BookkeepingFailsIff | pg_cmdqd/sqlqueuecmd.cpp:172-192 | the bookkeeping fails exactly if the transaction was in error already |
| SqlCommand.SafeNamesIff | pg_cmdqd/sqlqueuecmd.cpp:131-192 | all SQL that uses only certain savepoint names is run all or nothing if and only if none of them is the wrapper's or already there |
| SqlCommand.OwnNameDefeatsRollback | pg_cmdqd/sqlqueuecmd.cpp:134-176 | SQL using the wrapper's savepoint name can fail and leave its writes behind |
| NixCommand.NixQueueCmd.FlushStderr | pg_cmdqd/nixqueuecmd.cpp:168-194 | logs the non-empty complete lines from the position on, at the end the incomplete one too, and moves the position to the end |
| StderrLines.FlushInPartsIff | pg_cmdqd/nixqueuecmd.cpp:168-194 | two flushes log what one would exactly if the first part ends a line or the second has no line end |
| StderrLines.LinesAre | pg_cmdqd/nixqueuecmd.cpp:172-187 | newline and carriage return each make a line of what came after the one before, unless that is nothing, and nothing else does |
| StderrLines.LoggedLinesAreClean | pg_cmdqd/nixqueuecmd.cpp:172-187 | no logged line is empty or holds a line end |
| StderrLines.NothingLeftOut | pg_cmdqd/nixqueuecmd.cpp:168-194 | a flush at the end logs the whole text but for its line ends, and one before it all but the incomplete line |
| NixTurns.PollTimeout | pg_cmdqd/nixqueuecmd.cpp:373-388 | the wait is endless exactly for a child not yet reaped and no timeout; with a timeout it is the time left, with the grace after SIGTERM, in whole milliseconds |
| NixCommand.NixQueueCmd.Drain | pg_cmdqd/nixqueuecmd.cpp:469-501 | reads on, keeping every byte, until a read gives nothing, an error, or nobody watches any more; captured plus pipe is what was written, and an error-free end has seen the pipe empty |
| NixCommand.NixQueueCmd.WriteOut | pg_cmdqd/nixqueuecmd.cpp:443-460 | writes on, after interruptions too, until all is sent or an error comes; partial writes deliver exactly a prefix |
| NixCommand.NixQueueCmd.Feed | pg_cmdqd/nixqueuecmd.cpp:439-468 | stdin is closed exactly when all of it was sent |
| NixCommand.NixQueueCmd.HandleOutputs | pg_cmdqd/nixqueuecmd.cpp:469-517 | each descriptor with input is read to its end, stdout first, unless a hard error comes before; one that hung up is drained and closed by then |
| NixCommand.NixQueueCmd.HandleEvents | pg_cmdqd/nixqueuecmd.cpp:435-518 | which calls answer which events, how they end, and which descriptors are polled afterwards |
| NixCommand.NixQueueCmd.Overdue | pg_cmdqd/nixqueuecmd.cpp:403-433 | exactly by the clock: nothing before the timeout; then SIGTERM, if there was none; then SIGKILL once more than the grace has passed; never to a child that was reaped |
| NixCommand.NixQueueCmd.React | pg_cmdqd/nixqueuecmd.cpp:390-518 | what follows a poll, case by case: where it leads, the calls it takes and the signals it sends |
| NixCommand.NixQueueCmd.Pass | pg_cmdqd/nixqueuecmd.cpp:360-519 | once around the loop: a wait unless reaped, a poll with these descriptors and that timeout, and the answer to it; the invariant on pipes, stdin, signals and the child is kept, and leaving it reaped means both pipes are empty |
| NixCommand.NixQueueCmd.Supervise | pg_cmdqd/nixqueuecmd.cpp:360-519 | turn after turn from the first state on, each beginning where the last one led, until one of them ends it or all calls it is watched for are made; and all laws of such runs hold of it |
| NixTurns.AsksHolds | pg_cmdqd/nixqueuecmd.cpp:344-389 | the child is waited for until it was found gone; stdin is polled until a poll reported it writable or in error, for writing only if there is input, and stdout and stderr until a poll reported them hung up |
| NixTurns.ServesHolds | pg_cmdqd/nixqueuecmd.cpp:439-501 | before the next turn, stdin reported writable is written to the end of the input, and a descriptor reported readable is read until it gives nothing |
| NixTurns.EndsHolds | pg_cmdqd/nixqueuecmd.cpp:365-402 | a turn ends it with a hard error exactly if one of its calls failed with an error that is not passed over, with a failed wait exactly if waitpid failed, and as done exactly if a poll reported nothing after the child was found gone |
| NixTurns.SignalsHolds | pg_cmdqd/nixqueuecmd.cpp:403-433 | over all turns: no signal while none is overdue, 15 at the first that is, 9 at the first overdue one more than a second later, which is the last |
| NixCommand.NixQueueCmd.Decode | pg_cmdqd/nixqueuecmd.cpp:521-578 | exit code and signal say what the kernel says of the child; unless the exit code is 0 the whole stderr is logged |
| NixCommand.NixQueueCmd.RunCmd | pg_cmdqd/nixqueuecmd.cpp:210-581 | at every moment stdout written = captured + in the pipe (stderr too, short of hard errors); stdin delivered is a prefix, and it is closed if and only if there was any and all was delivered; signals are none, SIGTERM, or SIGTERM and more than 1 s later SIGKILL, and none without a timeout; the normal end has captured everything; exit code and signal for every end, case by case; the calls made are those of a chain of turns of the loop, and the laws of asking, serving, ending and signalling hold of them |
| NixCommand.UpdateAcceptedIff | sql/pg_cmd_queue--0.1.0.sql:1464-1480 | every outcome has an exit code or a signal, and the row's update passes both CHECKs exactly if time has passed and no hard error met a child that exited by itself |
| RunnerRegistry.CmdQueueRunnerManager.QueueHasRunnerAlready | pg_cmdqd/cmdqueuerunnermanager.cpp:70-74 | true exactly if either map has the class |
| RunnerRegistry.CmdQueueRunnerManager.AddRunner | pg_cmdqd/cmdqueuerunnermanager.cpp:219-254 | the new registry, for nix, sql and other signatures |
| RunnerRegistry.CmdQueueRunnerManager.StopRunner | pg_cmdqd/cmdqueuerunnermanager.cpp:256-266 | throws exactly if the class has no runner, and otherwise asks that one once |
| RunnerRegistry.CmdQueueRunnerManager.SelectQueues | pg_cmdqd/cmdqueuerunnermanager.cpp:77-102 | by what was answered when: the rows exactly of the first attempt that gave any, if it was made; given up exactly if the first failed and is not retried; no rows exactly if told to stop before there were any |
| RunnerRegistry.CmdQueueRunnerManager.RefreshQueueList | pg_cmdqd/cmdqueuerunnermanager.cpp:77-131 | afterwards the listed classes are those of the valid rows that the query gave, every nix or SQL queue among them has a runner, those there were are the same, no others are new, and exactly old minus new are asked to stop; unchanged if the query is given up; when it throws |
| RunnerRegistry.RegistryHolds | pg_cmdqd/cmdqueuerunnermanager.cpp:104-130 | over every sequence of refreshes that gets through: disjoint maps of the right kind, one thread per class, runners for exactly the classes some list could start one for, and one stop request per disappearance |
| RunnerRegistry.NeverReplaced | pg_cmdqd/cmdqueuerunnermanager.cpp:116-117 | the maps only grow and never replace an entry |
| RunnerRegistry.GetsThroughIff | pg_cmdqd/cmdqueuerunnermanager.cpp:121-129 | a sequence of refreshes gets through without throwing exactly if no class disappears that was not listed before with a signature that can be run |
| RunnerRegistry.NeverThrows | pg_cmdqd/cmdqueuerunnermanager.cpp:121-129 | with nix and sql signatures only, no refresh ever throws |
| RunnerRegistry.RelistedKeepsStoppedRunner | pg_cmdqd/cmdqueuerunnermanager.cpp:116-127 | dropped and listed again, a queue keeps the runner that was asked to stop |
| Quoting.StripEscape | pg_cmdqd/pq-raii/libpq-raii.hpp:631-637 | deleting backslashes from an escaped text gives the text without its own backslashes |
| Quoting.StripConcat | pg_cmdqd/pq-raii/libpq-raii.hpp:662-731 | deleting backslashes goes character by character |
| CompositeText.FromTextCompositeValue | pg_cmdqd/pq-raii/libpq-raii.hpp:839-900 | the cursor loop computes the fields of the specification |
| CompositeText.RoundTripIff | pg_cmdqd/pq-raii/libpq-raii.hpp:839-900 | for fields that need no quoting the parser inverts the composite text form exactly if the first is not NULL |
| ArrayText.AsTextArray | pg_cmdqd/pq-raii/libpq-raii.hpp:755-772 | prints all members quoted |
| ArrayText.FromTextArray | pg_cmdqd/pq-raii/libpq-raii.hpp:662-731 | the cursor loop computes the members of the specification |
| ArrayText.ParsesArrayOut | pg_cmdqd/pq-raii/libpq-raii.hpp:662-731 | for any mix of quoted members not ending in a backslash and bare ones free of delimiters, the parser gives the texts without backslashes |
| ArrayText.RoundTripIff | pg_cmdqd/pq-raii/libpq-raii.hpp:662-772 | printing and parsing a list gives it without its backslashes exactly if no member ends in one, and the list itself exactly if there are none |
| HstoreText.AsTextHstore | pg_cmdqd/pq-raii/libpq-raii.hpp:988-1001 | prints all entries quoted, in the order of iteration |
| HstoreText.UnescapeHstoreText | pg_cmdqd/pq-raii/libpq-raii.hpp:902-917 | the loop computes the unescaped text of the specification |
| HstoreText.UnescapeIff | pg_cmdqd/pq-raii/libpq-raii.hpp:902-917 | unescaping undoes escaping exactly if no backslash stands before a backslash or quote |
| HstoreText.FromTextHstore | pg_cmdqd/pq-raii/libpq-raii.hpp:919-968 | the cursor loop computes the map of the specification |
| HstoreText.ParsesPrinted | pg_cmdqd/pq-raii/libpq-raii.hpp:919-968 | good entries are parsed to what they are, whoever printed them, with whatever free of quotes and not ending in a backslash around the arrow and between them |
| HstoreText.RoundTrip | pg_cmdqd/pq-raii/libpq-raii.hpp:919-1001 | good entries are parsed back, printed in any order by the runner or, with a space after each comma, by the server |
| HstoreText.MapRoundTrip | pg_cmdqd/pq-raii/libpq-raii.hpp:919-1001 | a map with good keys and values comes back, however its entries are iterated and whichever of the two prints it |
| HstoreText.StoresAtMost | pg_cmdqd/pq-raii/libpq-raii.hpp:926-965 | on any input whatever, every entry that is stored takes four quotes that are not preceded by a backslash |
| HstoreText.MapRoundTripIff | pg_cmdqd/pq-raii/libpq-raii.hpp:919-1001 | the domain is exact: a map comes back from every order of iteration if and only if its keys are non-empty and free of quotes and backslashes, and no value ends in a backslash, has one before a backslash or quote, or is a case variant of NULL |
| ServerInput.HstoreReadByServer | pg_cmdqd/pq-raii/libpq-raii.hpp:988-1001 | whatever keys and values, the server reads the printed hstore as what was printed |
| ServerInput.ArrayReadByServer | pg_cmdqd/pq-raii/libpq-raii.hpp:755-772 | whatever members, the server reads the printed array as what was printed |
| CommandLine.FeedArg | sql/pg_cmd_queue--0.1.0.sql:1556-1560 | a surviving argument is read as the word it was, wherever it stands |
| CommandLine.FeedGains | sql/pg_cmd_queue--0.1.0.sql:1552-1565 | no text gives a shell more words and characters than it has characters other than single quotes |
| CommandLine.ReadBackIff | sql/pg_cmd_queue--0.1.0.sql:1552-1565 | a printed argument list is read back as it was if and only if every argument triggers quoting, or is not empty and has no character that does not stand for itself in its place |
| CommandLine.ParseArguments | pg_cmdqd/pg_nix_queue_cmd.cpp:53-96 | the nested loops compute the outcome, errors included, that scanning the arguments in order gives |
| CommandLine.ScanIs | pg_cmdqd/pg_nix_queue_cmd.cpp:55-96 | the first argument that is neither flag nor one of the first three fields decides: help, an unknown option, a fourth field, or `--` and the command after it; fields and flags are those before it; too few fields or no command are errors |
| CommandLine.DecidedAt | pg_cmdqd/pg_nix_queue_cmd.cpp:55-88 | there is always such an argument, or the end |
| CommandLine.FieldsAreNotOptions | pg_cmdqd/pg_nix_queue_cmd.cpp:53-88 | whatever the arguments, recognized fields never start with `--` and there is a command |
| CommandLine.UnwrappedIff | sql/pg_cmd_queue--0.1.0.sql:1577-1590 | the loop recovers class, id, subid and argv from the wrapped form exactly if none of the three starts with `--` and argv is not empty |
| CommandLine.PrintedReadAndUnwrapped | sql/pg_cmd_queue--0.1.0.sql:1552-1590 | printed, read by a shell and taken apart by the loop, a queue entry comes out as it went in |

## Left out

- libpq, connecting and its retries, RAII wrappers, logging, usage texts, option parsing of the daemon: plumbing.
- fork, exec, setpgid, signal masks and closing of descriptors inside the child: foreign calls; their failing in the parent is one arbitrary choice in `NixCommand.NixQueueCmd.RunCmd`.
- The byte encoding of the kill pipe and errors in reading it: a delivered request to stop is one event.
- Stopping all runners at once and joining their threads: nothing to state beyond the loop over both maps.
- Liveness of the poll loop and starvation of regular selects by notifications: the code promises neither.
- Deletion or change of queue rows by other clients: the protocol's environment only inserts and locks.
- Several rows with one (cmd_id, cmd_subid), as a view-based queue could show them: the model's queue is a map.
- QueueRunner.CmdQueueRunner.ReadPayload: payloads that are not in parentheses, which the source excludes by an assertion, give arbitrary fields.
- QueueRunner.CmdQueueRunner.Run: the command itself is one step here; what it does is in `SqlCommand` and `NixCommand`, which are not put together with it.
- CompositeText.RoundTripIff: fields that need quoting are outside; the parser emits an extra NULL after each.
- ArrayText.RoundTripIff: NULL members, which the runner would print unquoted, are outside.
- HstoreText.MapRoundTripIff: NULL values, which are printed unquoted, are outside.
- CommandLine.ReadBackIff: the environment and stdin parts of `cmd_line` are outside, and so are aliases; `*`, `?` and bracket expressions outside quotes count as more than characters, since what they turn into depends on the files there are.
- SqlCommand.AllOrNothing: SQL that ends the transaction itself is outside. A single command may use a name that is not safe and still be run all or nothing; `SqlCommand.SafeNamesIff` is about all commands that use certain names.
- Result rows and notices of SQL commands are not modelled: `run_cmd` does not collect the former and only appends the latter.
- HTTP queues are not implemented in the daemon.
- Views, DDL triggers for extension membership, `run_sql_cmd_queue`, generated documentation and test procedures: catalog plumbing.
