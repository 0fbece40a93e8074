# SparkDB: verified models

SparkDB is an SQL server over SQLite files, with asynchronous primary/replica replication, an
audit log, request and login limiters, and a command-line importer. This project models its
stateful protocols and its print and parse loops in Dafny and proves what they are for.

`dafny verify dfyconfig.toml` checks everything.

## The parts

**Replication.** The primary offers every write statement to `replication_log` and then runs
it; a replica fetches pages of 500 entries above its cursor, applies them in order, moves the
cursor in memory and saves it at the end of a batch.

- `Statements` has the three places that tell reads from writes; `Executor` runs statements and
  transactions over an abstract engine whose errors are part of its answers; `ReplicationLog`
  has the two tables and their queries; `Handlers` has the request handlers.
- `ReplicaMachine` is the replica as a state machine: poll, execute, advance the cursor, open
  failure, save, save failure, crash and restart. `PollLoop` has the poll as the program writes
  it, with its loop and its recursion, and proves that it refines the machine; `PollFaults` says what
  a poll achieves under faults. `Redelivery` counts what crashes cost.
- `Cluster` puts primary and replica together, with any number of requests advancing in small
  steps; `Requests` shows that an uninterrupted request there is what a handler does.
  `Agreement` has the exact condition for the two sides to agree, over every run; `Orderly` the
  runs that meet it; `Convergence` the main results; `Divergence` two ways to miss it.

**Audit.** `Audit` is the bounded channel with its droppers, flushers, worker and `Close`.

**Limiters.** `RateLimiter` is the sliding window, `RequestGate` the middleware with two of
them, `LoginLimiter` the lockout with concurrent logins, and `LoginHistory` what it answers in terms
of the history of logins.

**Text.** `CsvImport`, `Numerals`, `SplitSql`, `PasswordHash` and `Base64`, over the Go string
functions of `Text`. **Monitor.** The latency window, its average and its 99th percentile.

Faults (a failing insert, open, begin, commit, save or request), random bytes, the clock and the
key derivation function are inputs of the members concerned. `Executor.Engine` stands for
SQLite: a statement's effect and answer depend on the database and the statement alone.
`ReadsAreNeutral` says that what the executor sends to its query call changes nothing; it is
assumed only where a member requires it. `Redelivery.Recorder` is an engine that tells any two
histories apart; it serves to show that a condition is necessary.

## Where the code does less than its documentation says

- `docs/replication.md` line 3 says that every write on the primary is logged and that replicas
  apply it. In the code a failed log insert is audited and ignored, parameters are dropped
  from the log, a logged transaction stays logged when its commit fails, and two requests for one
  database can be logged in one order and executed in the other. `Agreement.AgreementIff` is the
  exact condition for agreement over every run, `Agreement.OrderIff` the one on the order,
  `Handlers.QueryInStepIff` and `Handlers.TransactionInStepIff` the ones on a single request, and
  `Divergence.OverlapDiverges` shows an overlap that leaves the sides different, for any two
  different writes.
- After a crash the replica executes again whatever lay beyond the saved position.
  `Convergence.ConvergenceIff` states exactly when the databases still agree, and
  `Divergence.CrashDiverges` gives a run in which they do not, for every write statement.
- `docs/security.md` line 54 describes a limit per authenticated user. The limiters wrap the
  routes from outside (`internal/server/server.go` line 129), before authentication, so no request
  carries a user there. `RequestGate.HeldToUserLimitIff` states when a person is held to the limit
  for users all the same: with the default limits, exactly when the person sends from one address.
  `RequestGate.PersonBoundReached` has the runs in which the person gets through that many times
  as often as there are addresses.
- If the audit worker cannot prepare its statement it ends at once. What is sent afterwards stays
  in the channel, and a flush whose marker got into it never returns: `Audit.CloseDrains` has the
  exact condition and `Audit.FlushNeverReturns` the case.
- `escapeValue` turns the text "null", in any case, into NULL, and prints every text that Go
  parses as a float bare in a numeric column, so also "NaN", "Inf" and hexadecimal floats, which
  SQL does not read as numbers. `CsvImport.ImportRoundTrip` holds for exactly the tables without
  such a cell, and `CsvImport.NaNIsPrintedBare` shows a column that has one.
- The screening knows nine words. A text that starts with none of them needs no permission, also where
  it is a write: `Statements.QueryRoleAdmits` says exactly what a role that may only query gets through.
- A blank query is a write for the log but nothing for the executor. It is logged and is harmless
  when it is applied again, which is why the conditions above speak of non-blank statements.
- `VerifyPassword` reads the version number and ignores it, and does not look at the algorithm's name.

## Model

| member | source | states |
|---|---|---|
| Statements.ClassifiersAgree | internal/replication/replication.go:15-20 | for every string, being logged, being sent to exec by the executor, and needing another permission than query are the same thing |
| Statements.ReadKeywordTypes | internal/query/validator.go:33-78 | no write keyword that is tested earlier hides a read keyword: the types whose permission is query are those of the three read prefixes |
| Statements.ClassificationIgnoresOuterSpace | internal/server/routes.go:143-157 | logging the trimmed or the raw text is decided alike; a blank text counts as a write |
| Statements.ReadIff | internal/replication/replication.go:15-20 | a text is a read exactly when, after white space and in any mixture of cases, it starts with SELECT, PRAGMA or EXPLAIN |
| Statements.LacksIff | internal/query/validator.go:33-78 | a role lacks the permission for a text exactly when the text starts with one of the nine words and the permission of that word is not granted |
| Statements.RefusedIgnoresOuterSpace | internal/server/routes.go:108-136 | a transaction's trimmed queries are screened as the raw ones would be |
| Statements.QueryRoleAdmits | internal/server/routes.go:61-73 | a role that may only query gets exactly the reads through, and the texts that start with none of the nine words |
| Statements.ReplaceIsAdmitted | internal/query/validator.go:61-78 | such a text exists that is a write: a REPLACE passes for every role |
| Statements.DangerousIff | internal/query/validator.go:94-116 | a text is refused as dangerous exactly when one of the five blocked patterns occurs somewhere in its upper-case form |
| Executor.CollectMeaning | internal/database/executor.go:196-214 | an answer holds every row in order if all rows scan, otherwise the error of the first row that does not |
| Executor.WritesAlone | internal/database/executor.go:80-105 | the final state of a list of statements is the fold of its write statements alone, when reads are neutral |
| Executor.BlanksAreNeutral | internal/database/executor.go:80-84 | running the trimmed non-blank queries is running all the raw queries one by one |
| Executor.RunIsSubmitted | internal/database/executor.go:43-62 | a text that is not blank makes one query or exec call with the trimmed text and the parameters; the state is that call's, and the answer has its columns and rows in order, its two numbers under their names, or only its error |
| Executor.PicksOf | internal/database/executor.go:80-84 | the queries that are run are the trimmed texts of exactly the positions that are not blank, in order |
| Executor.TransactionMeaning | internal/database/executor.go:80-105 | a transaction submits exactly those queries, each in the state its predecessor left, from the old state to the new, with one answer each |
| Executor.Executor.QueryTx | internal/database/executor.go:186-217 | never returns an error value; state and answer are those of the engine's query call, row by row |
| Executor.Executor.ExecTx | internal/database/executor.go:223-237 | never returns an error value; state and answer are those of the engine's exec call |
| Executor.Executor.StatementsTx | internal/database/executor.go:80-105 | one answer per non-blank query, the i-th from the state its predecessors left; the final state is their fold; the early return is unreachable |
| Executor.Executor.ExecuteContext | internal/database/executor.go:35-62 | which state and answer a single query leaves, by the engine's own calls, with blank text and open failure; no other database changes |
| Executor.Executor.ExecuteTransactionContext | internal/database/executor.go:68-111 | fails exactly on open, begin or commit failure, and then every database is as before; otherwise exactly the non-blank queries have been submitted in order, with an answer each |
| ReplicationLog.RankSeparates | internal/database/system.go:514-536 | in an ascending log the number of identifiers up to x is the position that separates them at x |
| ReplicationLog.AfterIsSuffix | internal/database/system.go:514-536 | the entries with a greater identifier are a suffix of the log |
| ReplicationLog.BetweenIsSlice | internal/database/system.go:514-536 | the entries of an identifier range are a contiguous slice of the log |
| ReplicationLog.PageIsSlice | internal/database/system.go:514-536 | a page is the run of entries right after `since`, and short only at the end of the log |
| ReplicationLog.SystemDB.LogReplication | internal/database/system.go:503-512 | appends one entry with an identifier greater than all before, or changes nothing in the log and reports the failure |
| ReplicationLog.SystemDB.GetReplicationLog | internal/database/system.go:514-536 | ascending entries above `since`, none left out up to the last one returned, and none at all if fewer than the limit are returned; or the failure |
| ReplicationLog.SystemDB.HandleReplicationLog | internal/server/routes.go:656-697 | answers exactly for admins with well-formed parameters and a limit in 1..5000, with the page and its defaults |
| ReplicationLog.SystemDB.InitReplicationState | internal/database/system.go:553-560 | a restart keeps the position saved by an earlier process |
| ReplicationLog.SystemDB.UpdateReplicationAppliedID | internal/database/system.go:562-568 | sets the position of the row and nothing else; without a row, or on failure, nothing |
| ReplicaMachine.InvStep | internal/replication/replication.go:99-149 | every step of the replica, failures and crashes included, keeps the invariant: page, history, saved position, bound on redelivery, and databases equal to the replay of what was applied |
| ReplicaMachine.InvAppend | internal/database/system.go:503-512 | the primary may append at any moment, also in the middle of a batch, without breaking it |
| ReplicaMachine.CursorSafety | internal/replication/replication.go:99-149 | over every run: within a lifetime exactly the entries with start < id <= frontier have been applied, in order, no gap and no duplicate, and start <= saved <= cursor |
| ReplicaMachine.OneLifetimeSafety | internal/replication/replication.go:99-149 | without a crash that is everything that has ever been applied |
| ReplicaMachine.SavedNeverDecreases | internal/database/system.go:562-568 | the saved position never decreases over a run with any number of crashes |
| ReplicaMachine.BetweenCounts | internal/database/system.go:514-536 | a range holds each of its entries exactly once and nothing else |
| ReplicaMachine.BetweenAscends | internal/database/system.go:514-536 | a range is in increasing order of identifier |
| ReplicaMachine.DeliveryCount | internal/replication/replication.go:70-157 | over every run, how often an entry has been executed is the number of lifetimes whose range covers it; none up to the frontier is skipped |
| ReplicaMachine.OneCrash | internal/replication/replication.go:70-93 | after one crash the entries executed twice are exactly those beyond the saved position up to where both lifetimes have come |
| ReplicaMachine.RedeliveryBound | internal/replication/replication.go:134-144 | a crash repeats at most 500 entries, plus 500 for each batch since the last save that failed to apply or to save |
| Redelivery.ExecutionsCount | internal/replication/replication.go:70-93 | over any number of crashes: executions = entries + redone entries; what was applied is each non-blank entry once, in order, if and only if no non-blank entry was redone |
| Redelivery.RedoneBound | internal/replication/replication.go:70-93 | over every run: at most 500 entries are redone per crash, and 500 per failure to apply or to save |
| PollLoop.ReplicaEngine.constructor | internal/replication/replication.go:70-79 | a replica starts from the saved position, or from the start of the log if there is no row, with an empty history |
| PollLoop.ReplicaEngine.Start | internal/replication/replication.go:70-79 | a restart is the machine's crash step: back to the saved position |
| PollLoop.ReplicaEngine.ApplyEntry | internal/replication/replication.go:151-157 | runs the entry on its database alone; a failing open changes nothing |
| PollLoop.ReplicaEngine.ApplyBatch | internal/replication/replication.go:134-140 | executes exactly the entries before the first that cannot be opened, each on its database in order, passes them with the cursor and stops there; a run of the machine |
| PollLoop.ReplicaEngine.SavePosition | internal/replication/replication.go:142-144 | the position is the cursor's if the save works and there is a row, and the old one otherwise; the machine's step |
| PollLoop.ReplicaEngine.TakeBatch | internal/replication/replication.go:134-148 | the batch, and the position saved if all of it was applied; a failing save does not undo or stop anything |
| PollLoop.ReplicaEngine.PollPage | internal/replication/replication.go:99-149 | one request under any faults: nothing if it fails, otherwise its page's batch; a further request is made exactly after a full page that was applied to its end, whether or not its position could be saved |
| PollLoop.ReplicaEngine.PollOnce | internal/replication/replication.go:99-149 | the recursive paging terminates, is a crash-free run of the machine, and under any faults does what one scan would: execute the entries above the cursor up to the first that cannot be opened or whose page cannot be fetched, and have saved the end of the last finished page whose save worked |
| PollLoop.PageThenRest | internal/replication/replication.go:146-148 | a page and what lies after its last entry make up the unbounded scan |
| PollFaults.PollGoesOn | internal/replication/replication.go:142-148 | after a full page that passes, what the rest of the poll achieves makes up one scan with it, whether or not the page's position was saved |
| PollFaults.PollIsQuiet | internal/replication/replication.go:99-149 | without a fault that scan is all entries above the cursor, and their last position saved |
| Cluster.PrimaryStep | internal/server/routes.go:75-95 | every step of every request, overlapping or failing, keeps each database equal to what has taken effect on it and each open transaction to what it has run on top |
| Cluster.ReplicaStep | internal/replication/replication.go:70-157 | every step keeps the log's and the replica's invariant |
| Agreement.CorePerforms | internal/database/executor.go:43-46 | blank statements make no difference to what a history of entries performs |
| Agreement.SameHistoryAgrees | internal/replication/replication.go:151-157 | over every run and for every engine: a replica that has executed what took effect on the primary, in that order, agrees on the database |
| Agreement.AgreementIff | internal/replication/replication.go:151-157 | over every run, for the recording engine: the sides agree on a database if and only if the replica has executed there what took effect on the primary, in that order |
| Agreement.OrderIff | internal/server/routes.go:80-86 | over every run, caught up and nothing redone: they agree if and only if the writes took effect in the order in which they were logged, with the same texts and no parameters |
| Orderly.InLineStep | internal/server/routes.go:138-166 | every orderly step keeps the log of each idle database equal to what took effect there, and of each busy one up to what its request has added |
| Convergence.Convergence | internal/server/routes.go:138-166 | over every orderly run: when the replica has caught up, every database without a pending request is equal on both sides, if no crash made it redo a non-blank statement |
| Convergence.ConvergenceWithoutCrash | internal/replication/replication.go:99-149 | without a crash, no request pending and the whole log applied means every database agrees |
| Convergence.ConvergenceIff | internal/replication/replication.go:134-144 | for the recording engine, in orderly runs: all databases agree if and only if no crash made the replica redo a non-blank statement |
| Convergence.CleanRunsAreOrderly | internal/server/routes.go:138-166 | runs without failures on the primary, without parameters on writes and without overlap on one database are orderly |
| Divergence.CrashDiverges | internal/replication/replication.go:134-144 | for every non-blank write, a crash between executing it and saving the position leaves the two sides different although the log is applied |
| Divergence.OverlapDiverges | internal/server/routes.go:80-86 | for any two different writes to one database, an overlap of their requests without any failure leaves the two sides different although the log is applied |
| Requests.QueryServed | internal/server/routes.go:75-95 | a query request's small steps, uninterrupted, log and execute what the handler does, whatever fails, and change nothing else; it is in step exactly when `QueryInStep` says so |
| Requests.TransactionServed | internal/server/routes.go:138-166 | the same for a transaction: its writes logged as their inserts work, then all its queries run on a working copy and committed, or given up; in step exactly when `TransactionInStep` says so |
| Handlers.Handler.LogOne | internal/server/routes.go:80-84 | a write is appended for this database unless the insert fails; nothing else is logged |
| Handlers.Handler.HandleQuery | internal/server/routes.go:41-95 | forbidden exactly if a blocked pattern occurs or the role lacks the permission of the text's word, and then nothing is logged or executed; otherwise logged first and executed whether or not the insert worked, with exactly one answer, by the engine's own calls; a logged text stays when the open fails |
| Handlers.Handler.HandleTransaction | internal/server/routes.go:97-166 | forbidden exactly if a non-blank query is; all queries are screened before any is logged, the log gets the writes whose insert works, and then exactly the non-blank queries are submitted in order with an answer each; on failure every database is unchanged though the log has grown |
| Handlers.QueryInStepIff | internal/server/routes.go:80-86 | a query request keeps replayed log and database equal if and only if it is a read or blank, or logged exactly when it runs and without parameters |
| Handlers.TransactionInStepIff | internal/server/routes.go:143-157 | a transaction keeps them equal if and only if each of its writes is logged exactly when it commits |
| Handlers.LoggedIff | internal/server/routes.go:143-154 | the logged texts are all the writes exactly when no insert of a write failed, and none exactly when all did |
| Handlers.FatesAgreeMeaning | internal/server/routes.go:143-154 | being in step means, for each query that the log should have, that it is there exactly if the transaction commits |
| Handlers.LoggedQueries | internal/server/routes.go:143-154 | the logged texts are those of exactly the positions that are not blank, are writes and whose insert works, trimmed and in order |
| Audit.InvStep | internal/database/system.go:439-477 | every action of senders, flushers, worker and Close keeps conservation, order and the flushers' bookkeeping |
| Audit.Conservation | internal/database/system.go:439-477 | in every reachable state: accepted = handled, in hand, queued, in order; submitted = accepted + dropped; at most 1024 queued |
| Audit.RowsInOrder | internal/database/system.go:456-477 | in every reachable state the rows are the handled entries whose insert worked, in order; all of them if none failed |
| Audit.FlushBarrier | internal/database/system.go:447-454 | a flush has returned exactly when its marker is handled, and then so is everything enqueued before |
| Audit.CloseDrains | internal/database/system.go:101-105 | when Close returns, all is handled and every flusher released if and only if the statement was prepared or nothing was sent |
| Audit.StuckForEver | internal/database/system.go:447-463 | a flush that waits on a worker that could not prepare is released by no continuation |
| Audit.FlushNeverReturns | internal/database/system.go:447-463 | it happens: Close returns with such a flush waiting, whatever follows |
| Audit.AuditDB.LogAudit | internal/database/system.go:439-445 | never waits; appended if there is room, dropped and counted otherwise; the machine's action, from any state |
| Audit.AuditDB.SendMarker | internal/database/system.go:447-454 | the marker goes in behind everything sent before; the machine's action, from any state |
| Audit.AuditDB.CloseChannel | internal/database/system.go:101-105 | closing leaves the queue to the worker; the machine's action, from any state |
| Audit.AuditDB.HandleNext | internal/database/system.go:466-475 | one round of the worker's loop, from any state: the first message is handled, stored or released; the machine's actions |
| Audit.AuditDB.AuditWorker | internal/database/system.go:456-477 | over a closed channel: handles all of it, releases every flusher and ends; or ends at once if it cannot prepare, and changes nothing; a run of the machine either way |
| RateLimiter.RateLimiter.Prune | internal/query/validator.go:140-146 | the filtering loop keeps exactly the recent times, in order |
| RateLimiter.RateLimiter.Allow | internal/query/validator.go:133-156 | answers and updates as the specification step; no other key changes |
| RateLimiter.RateLimiter.Reset | internal/query/validator.go:158-162 | forgets the key and no other |
| RateLimiter.PruningUnobservable | internal/query/validator.go:133-156 | on every sequence of calls the answers are those of a limiter that keeps every admitted time since the last Reset; never more than limit times are stored |
| RateLimiter.AdmittedIff | internal/query/validator.go:133-156 | a call is admitted if and only if fewer than limit admissions of the key lie in (now - window, now] |
| RateLimiter.AdmittedCalls | internal/query/validator.go:133-162 | the admissions that count are exactly the attempts of the key that were answered yes since its last Reset |
| RateLimiter.WindowBound | internal/query/validator.go:133-156 | every interval (a, a + window] holds at most limit admitted requests of a key |
| RequestGate.Middleware.Pass | internal/server/middleware.go:85-103 | one request, with each limiter's own time, takes its steps of the gate: the address is charged also when the user is refused, the user only when the address was admitted; passes exactly when both admit |
| RequestGate.BothBounds | internal/server/middleware.go:85-103 | over every interleaving of the two steps of any requests, those that pass obey the window bound of each limiter for their keys |
| RequestGate.WithoutUsers | internal/server/server.go:86-129 | outside authentication every address is held to the smaller limit |
| RequestGate.PersonBound | internal/server/server.go:86-129 | there a person gets at most the smaller limit times the number of addresses used through in a window |
| RequestGate.PersonBoundReached | internal/server/server.go:86-129 | for every set of addresses some run reaches that number |
| RequestGate.HeldToUserLimitIff | internal/server/server.go:86-129 | a person is held to the limit for users in all runs over a set of addresses if and only if their number times the smaller limit is within it; with a user limit that is the smaller, if and only if there is at most one address or the limit is zero |
| LoginLimiter.LoginRateLimiter.IsLocked | internal/auth/password.go:75-90 | locked exactly while the failures reach the limit and the lockout has not passed; deletes only what has expired |
| LoginLimiter.LoginRateLimiter.RecordFail | internal/auth/password.go:92-108 | adds one to the count of a live key, or starts it anew at one and now when there is none or it has expired; no other key changes |
| LoginLimiter.LoginRateLimiter.Reset | internal/auth/password.go:110-114 | forgets the key and no other |
| LoginLimiter.LazyDeletionUnobservable | internal/auth/password.go:75-90 | on every sequence of calls the answers are those of a limiter whose check deletes nothing |
| LoginLimiter.LockDuration | internal/auth/password.go:75-108 | a lock holds up to FirstFail + lockout and no longer, whatever failures are recorded meanwhile |
| LoginHistory.CountIsFailures | internal/auth/password.go:92-108 | over every clock-ordered history: the stored count is the number of failures of the key since the one that opened the count, and FirstFail is that one's time |
| LoginHistory.LockedIff | internal/auth/password.go:75-108 | over every history: a key is locked if and only if a failure opened a count within the lockout before now, the key has not been reset since, and there have been at least limit failures from that one on |
| LoginHistory.FailuresBounded | internal/auth/auth.go:85-108 | any interleaving of n callers over any keys: at most limit + n - 1 failed logins of a key come to count together (a limit below 1 acting as 1) |
| LoginHistory.FailuresBoundReached | internal/auth/auth.go:85-108 | for every limit and n some interleaving reaches that number, if and only if the lockout is not negative or it is one failure |
| LoginLimiter.Authenticator.Login | internal/auth/auth.go:85-108 | one login is one caller's two steps of the machine; which answer is given when, and that a failed one counts, a successful one clears, and no other key changes |
| Monitor.Monitor.RecordQuery | internal/monitor/monitor.go:55-63 | after any run the buffer is the last min(total, 10000) durations in order |
| Monitor.Monitor.Latencies | internal/monitor/monitor.go:79-95 | the average and the percentile are those of the last min(total, 10000) durations, in whole microseconds over 1000; zero when there are none |
| Monitor.SumAdds | internal/monitor/monitor.go:81-84 | the sum that is averaged takes every duration once |
| Monitor.P99Rank | internal/monitor/monitor.go:86-95 | the chosen element is a sample, at least floor(99 n / 100) + 1 samples are not above it, and nothing smaller has that many; the index is in range |
| Monitor.P99Unique | internal/monitor/monitor.go:86-95 | the percentile does not depend on the sorting algorithm |
| CsvImport.ColumnTypeNext | cmd/sparkdb/commands/import.go:254-285 | the class of the first numeric cell after the last non-numeric one follows the loop cell by cell |
| CsvImport.InferTypes | cmd/sparkdb/commands/import.go:254-285 | of every column: TEXT if no cell decides, INTEGER if the deciding cell parses as an integer and REAL otherwise, the deciding cell being the first that parses after the last non-blank one that does not |
| CsvImport.ColumnCells | cmd/sparkdb/commands/import.go:260-263 | a column is the i-th cells of the rows, in order |
| CsvImport.InferredColumn | cmd/sparkdb/commands/import.go:254-285 | a column is TEXT exactly when every cell after the last non-numeric one is empty |
| CsvImport.BareIffNumeric | cmd/sparkdb/commands/import.go:305-316 | in a numeric column the printer prints exactly the cells bare that count as numeric, in a TEXT column none, and quotes every other cell that is not NULL |
| Numerals.SqlTakesDecimals | cmd/sparkdb/commands/import.go:305-316 | of the texts that Go takes for a float, SQL takes all but the special words and hexadecimal floats |
| CsvImport.QuotedRoundTrip | cmd/sparkdb/commands/import.go:315 | doubling the quotes is undone by the reader, for every text, and nothing behind the closing quote is touched |
| CsvImport.QuotingExample | cmd/sparkdb/commands/import.go:315 | the text it's is printed with its quote doubled, between quotes |
| CsvImport.RowsExample | cmd/sparkdb/commands/import.go:128-142 | how two cells and two rows are put together |
| CsvImport.CellRoundTrip | cmd/sparkdb/commands/import.go:305-316 | a printed cell reads back as NULL, its number or its trimmed text, and reading stops at the delimiter, if and only if it is not a special word or hexadecimal float in a numeric column |
| CsvImport.CellsRoundTrip | cmd/sparkdb/commands/import.go:129-136 | a printed row reads back cell by cell, none merging into its neighbour, unless one is unreadable; then the row is refused |
| CsvImport.RowsRoundTrip | cmd/sparkdb/commands/import.go:128-142 | a printed row list reads back row by row, unless a cell is unreadable; then the list is refused |
| CsvImport.ImportRoundTrip | cmd/sparkdb/commands/import.go:120-150 | the statements together read back as the whole table if and only if no cell is unreadable; every cell arrives, in its place, as NULL, as its trimmed text, or as its number where its column is numeric |
| CsvImport.NaNIsPrintedBare | cmd/sparkdb/commands/import.go:254-316 | a column of "1" and "NaN" is inferred INTEGER, and its second cell is printed bare and unreadable |
| CsvImport.PrintBatch | cmd/sparkdb/commands/import.go:128-136 | the loops print the specified rows |
| CsvImport.ImportBatches | cmd/sparkdb/commands/import.go:120-150 | what has been sent and the statements for the rows left are all statements; no rows are left unless one was refused, which ends the import |
| SplitSql.SplitSQL | cmd/sparkdb/commands/import.go:318-336 | the builder loop computes the specified statements |
| SplitSql.KeepIff | cmd/sparkdb/commands/import.go:322-325 | a line is kept exactly if it has a character that is not white space and does not start there with two dashes |
| SplitSql.EndsIff | cmd/sparkdb/commands/import.go:327-329 | a line ends a statement exactly if its last character that is not white space is a semicolon |
| SplitSql.KeptLines | cmd/sparkdb/commands/import.go:321-326 | the kept lines are the lines at exactly the positions where a line is kept, in order |
| SplitSql.GroupsMeaning | cmd/sparkdb/commands/import.go:318-336 | the statements' lines are exactly the kept lines in order; every statement but possibly the last ends at its first line that ends in a semicolon |
| SplitSql.StatementsHoldTheLines | cmd/sparkdb/commands/import.go:318-336 | each statement's text has exactly its lines, up to the outer trimming |
| SplitSql.Regroup | cmd/sparkdb/commands/import.go:318-336 | the grouping is determined by the lines: well-formed groups come back when they are split again |
| SplitSql.SplitIsStable | cmd/sparkdb/commands/import.go:318-336 | splitting the newline-joined statements again gives the same statements |
| Base64.DecodeEncode | internal/auth/password.go:46-52 | unpadded base 64 decodes to what was encoded, for all bytes, and prints no dollar sign |
| Base64.RfcVectors | internal/auth/password.go:46-47 | four test vectors of section 10 of RFC 4648 |
| PasswordHash.PrintedValue | internal/auth/password.go:46-52 | the decimal digits printed for a number have its value |
| PasswordHash.ParamsRoundTrip | internal/auth/password.go:156-158 | printed parameters scan back, for all values of their widths |
| PasswordHash.HashStringRoundTrip | internal/auth/password.go:145-177 | for all parameters, salts and hashes the printed string reads back as what was printed |
| PasswordHash.HashPassword | internal/auth/password.go:37-53 | the six fields of the string made, written out: version 19, 65536 KiB, 3 passes, 4 threads, the salt and the derived key of 32 bytes |
| PasswordHash.SaltsDiffer | internal/auth/password.go:29-35 | different random bytes give different salts |
| PasswordHash.PrintedAcceptance | internal/auth/password.go:145-177 | a printed string is accepted exactly for passwords that derive its hash with its parameters and salt, and panics exactly if the derivation does |
| PasswordHash.HashThenVerify | internal/auth/password.go:37-177 | a password is accepted against a hash exactly when it derives the same key; always its own |

## Left out

- SQLite: statements and states are abstract. Explicit BEGIN and COMMIT, PRAGMAs that change state, nondeterministic SQL and cancellation of requests are excluded by taking a statement's outcome as a function of the database and the statement. `ReadsAreNeutral` also excludes texts of several statements that start with a read, such as a SELECT followed by a DELETE: all three classifiers take them for reads, and such a text that changes a database would not be logged.
- Cluster.PrimaryStep: while a transaction is open on a database, no other transaction and no write starts there; the errors that SQLite gives to such a conflict, and the order in which it lets waiting requests go on, are left out.
- Agreement.AgreementIff: the converse is for one engine that distinguishes all histories; another engine may agree by chance, for instance when repeating or swapping its statements changes nothing. The same holds for Agreement.OrderIff and Convergence.ConvergenceIff.
- ReplicationLog.SystemDB.LogReplication: identifiers are unbounded; exhaustion of the 64-bit range is not modelled. Time stamps are left out.
- ReplicationLog.SystemDB.GetReplicationLog: a failure in the middle of reading rows, which the code does not check for, would look like a shorter page; it is not modelled. The same holds for `Executor.Executor.QueryTx`.
- PollLoop.ReplicaEngine.PollOnce: the log does not grow during one call; growth between the steps of a poll is in `ReplicaMachine` and `Cluster`. Timers and the stop channel are left out.
- CleanReplicationLog: nothing calls it.
- Audit.AuditDB.AuditWorker: the method is the loop over a channel that is closed; the worker beside its senders is `Audit.AuditDB.HandleNext` and the state machine. That `FlushAuditLog` may also return because the worker has ended is not a step.
- Handlers.Handler.HandleQuery: decoding of requests, audit entries, the execution time in answers and the wording of refusals and failures are left out; the permissions of the caller's role are an input.
- RequestGate.Middleware.Pass: the method runs without interruption; what other requests do between its two steps is in the gate.
- LoginLimiter.Authenticator.Login: the clock is read once per login, and making the token, after the limiter has been reset, is left out.
- Monitor.Monitor.Latencies: floating-point rounding; the average and the percentile are real numbers, and the float product of the index is the integer floor. The other counters are left out.
- CsvImport.ImportBatches: creating the table, quoting identifiers and the network are left out. A NUL character in a cell, at which SQLite would stop reading, is not modelled.
- PasswordHash.VerifyPassword: Argon2id is an uninterpreted function that may panic on parameters it does not accept; constant time is not modelled.
- Text.ToUpper: exact for ASCII and for the two other characters whose upper case is ASCII; other characters are compared with ASCII words only, where their case does not matter.
- import of JSON, encryption of database files, backups, key and token handling, roles and their permission tables, configuration, TLS, the web console and the client: separate code with little state of its own.
