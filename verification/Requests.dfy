/**
 A request served without interruption: the small steps that module Cluster gives it amount to
 what the handlers of module Handlers are proved to do, whatever fails, so the interleavings
 there are interleavings of these handlers.
 */
module Requests {
  import opened Text
  import opened Statements
  import opened Executor
  import opened ReplicationLog
  import opened Handlers
  import opened Cluster
  import opened Orderly
  import opened Wrappers

  /** The same happening several times in a row. */
  function Repeat<S>(e: Engine<S>, s: System<S>, h: Happening, n: nat): System<S> {
    if n == 0 then s else Next(e, Repeat(e, s, h, n - 1), h)
  }

  function Offer(id: nat, fault: Option<string>): Happening {
    if fault.None? then LogNext(id) else LogFails(id)
  }

  /** The first `k` queries of a transaction are offered to the log. */
  function LogQueries<S>(e: Engine<S>, s: System<S>, id: nat, queries: seq<string>, fault: nat -> Option<string>, k: nat): System<S>
    requires k <= |queries|
  {
    if k == 0 then s
    else
      var s' := LogQueries(e, s, id, queries, fault, k - 1);
      if Blank(queries[k - 1]) then s' else Next(e, s', Offer(id, fault(k - 1)))
  }

  /** A request up to the end of its logging. */
  function LogRequest<S>(e: Engine<S>, s: System<S>, id: nat, request: Request, fault: nat -> Option<string>): System<S> {
    var arrived := Next(e, s, Arrive(id, request));
    match request
    case QueryRequest(_, _, _) => Next(e, arrived, Offer(id, fault(0)))
    case TransactionRequest(_, queries) => LogQueries(e, arrived, id, queries, fault, |queries|)
  }

  /** A request from its arrival to its end; `ran` says whether it opens, begins and commits. */
  function Serve<S>(e: Engine<S>, s: System<S>, id: nat, request: Request, fault: nat -> Option<string>, ran: bool): System<S> {
    var logged := LogRequest(e, s, id, request, fault);
    if !ran then Next(e, logged, Abort(id))
    else
      match request
      case QueryRequest(_, _, _) => Next(e, logged, RunQuery(id))
      case TransactionRequest(_, queries) =>
        Next(e, Repeat(e, Next(e, logged, Begin(id)), RunNext(id), |NonBlank(queries)|), Commit(id))
  }

  /** The request has been logged, and nothing else has happened. */
  ghost predicate JustLogged<S>(s: System<S>, s': System<S>, id: nat, job: Job<S>) {
    && s'.databases == s.databases && s'.performed == s.performed && s'.replica == s.replica
    && s'.jobs == s.jobs[id := job]
    && Appended(s.log, s'.log, job.database, job.inserted)
  }

  /** The request is over: only its database has changed, and only if it ran. */
  ghost predicate Served<S>(s: System<S>, s': System<S>, d: string, state: S, ran: bool, texts: seq<string>) {
    && s'.jobs == s.jobs && s'.replica == s.replica
    && s'.databases == (if ran then s.databases[d := state] else s.databases)
    && Appended(s.log, s'.log, d, texts)
  }

  /** A statement is offered to the log. */
  lemma OfferStep<S>(e: Engine<S>, s: System<S>, id: nat, fault: Option<string>, job: Job<S>, job': Job<S>, s': System<S>)
    requires Logging(s, id) && job == s.jobs[id] && s' == Next(e, s, Offer(id, fault))
    requires var q := job.stmts[job.logged];
             job' == job.(logged := job.logged + 1,
                          inserted := if fault.None? && IsWriteQuery(q) then job.inserted + [q] else job.inserted)
    ensures s'.databases == s.databases && s'.performed == s.performed && s'.replica == s.replica
    ensures s'.jobs == s.jobs[id := job']
    ensures var q := job.stmts[job.logged];
            s'.log == if fault.None? && IsWriteQuery(q) then s.log + [Entry(LastID(s.log) + 1, job.database, q)] else s.log
  {
  }

  lemma JustLoggedNext<S>(e: Engine<S>, s: System<S>, s1: System<S>, id: nat, fault: Option<string>, job: Job<S>, job': Job<S>, s': System<S>)
    requires JustLogged(s, s1, id, job) && job.logged < |job.stmts| && s' == Next(e, s1, Offer(id, fault))
    requires var q := job.stmts[job.logged];
             job' == job.(logged := job.logged + 1,
                          inserted := if fault.None? && IsWriteQuery(q) then job.inserted + [q] else job.inserted)
    ensures JustLogged(s, s', id, job')
  {
    OfferStep(e, s1, id, fault, job, job', s');
    OneMoreAppended(s.log, s1.log, job.database, job.inserted, Entry(LastID(s1.log) + 1, job.database, job.stmts[job.logged]));
    PutAgain(s.jobs, id, job, job');
  }

  lemma PutAgain<T>(m: map<nat, T>, id: nat, a: T, b: T)
    ensures m[id := a][id := b] == m[id := b]
  {
  }

  // ---------------------------------------------------------------- queries

  function LoggedQueryJob<S>(database: string, text: string, params: seq<Value>, works: bool): Job<S> {
    Job(Target(database), false, [text], params, 1, LoggedQuery(text, works), None, 0)
  }

  lemma QueryLogged<S>(e: Engine<S>, s: System<S>, id: nat, database: string, text: string, params: seq<Value>, fault: nat -> Option<string>)
    requires text != "" && id !in s.jobs
    ensures JustLogged(s, LogRequest(e, s, id, QueryRequest(database, text, params), fault), id,
                       LoggedQueryJob(database, text, params, fault(0).None?))
  {
    var job := NewJob<S>(QueryRequest(database, text, params));
    var s1 := Put(s, id, job);
    NothingAppended(s.log, job.database);
    assert [] + [text] == [text];
    JustLoggedNext(e, s, s1, id, fault(0), job, LoggedQueryJob(database, text, params, fault(0).None?),
                   Next(e, s1, Offer(id, fault(0))));
  }

  lemma EndedJobs<S>(s: System<S>, id: nat, job: Job<S>)
    requires id !in s.jobs
    ensures s.jobs[id := job] - {id} == s.jobs
  {
  }

  /**
   A query request, as `Handler.HandleQuery` does it when it is admitted. It is in step, as the
   cluster sees it, exactly when `QueryInStep` says so.
   */
  lemma QueryServed<S>(e: Engine<S>, s: System<S>, id: nat, database: string, text: string, params: seq<Value>,
                       fault: nat -> Option<string>, ran: bool)
    requires text != "" && id !in s.jobs && !Busy(s, Target(database))
    ensures var d := Target(database);
            Served(s, Serve(e, s, id, QueryRequest(database, text, params), fault, ran), d,
                   Effect(e, Find(s.databases, d, e.empty), Stmt(text, params)), ran,
                   LoggedQuery(text, fault(0).None?))
    ensures var logged := LogRequest(e, s, id, QueryRequest(database, text, params), fault);
            id in logged.jobs && (JobInStep(logged.jobs[id], ran) <==> QueryInStep(text, params, fault(0).None?, ran))
  {
    QueryLogged(e, s, id, database, text, params, fault);
    var logged := LogRequest(e, s, id, QueryRequest(database, text, params), fault);
    EndedJobs(s, id, logged.jobs[id]);
    if ran {
      StillFree(s, logged, id, logged.jobs[id], Target(database));
    }
  }

  lemma StillFree<S>(s: System<S>, s': System<S>, id: nat, job: Job<S>, d: string)
    requires !Busy(s, d) && s'.jobs == s.jobs[id := job] && job.work.None?
    ensures !Busy(s', d)
  {
  }

  // ---------------------------------------------------------------- transactions

  lemma {:induction false} NonBlankPrefix(queries: seq<string>, k: nat)
    requires k <= |queries|
    ensures NonBlank(queries[..k]) <= NonBlank(queries)
    decreases |queries|
  {
    if k < |queries| {
      var init := queries[..|queries| - 1];
      NonBlankPrefix(init, k);
      assert init[..k] == queries[..k];
    } else {
      assert queries[..k] == queries;
    }
  }

  /** The k-th query, if it is not blank, is the next statement of the request. */
  lemma NextStatement(queries: seq<string>, k: nat)
    requires k < |queries| && !Blank(queries[k])
    ensures var n := |NonBlank(queries[..k])|;
            n < |NonBlank(queries)| && NonBlank(queries)[n] == TrimSpace(queries[k]) && |NonBlank(queries[..k + 1])| == n + 1
  {
    NonBlankNext(queries, k);
    NonBlankPrefix(queries, k + 1);
  }

  function LoggedTxJob<S>(database: string, queries: seq<string>, fault: nat -> Option<string>, k: nat): Job<S>
    requires k <= |queries|
  {
    Job(Target(database), true, NonBlank(queries), [], |NonBlank(queries[..k])|, LoggedOf(queries[..k], fault), None, 0)
  }

  lemma OfferNext<S>(e: Engine<S>, s: System<S>, s1: System<S>, id: nat, database: string, queries: seq<string>,
                     fault: nat -> Option<string>, k: nat, s': System<S>)
    requires k < |queries| && !Blank(queries[k])
    requires JustLogged(s, s1, id, LoggedTxJob(database, queries, fault, k))
    requires s' == Next(e, s1, Offer(id, fault(k)))
    ensures JustLogged(s, s', id, LoggedTxJob(database, queries, fault, k + 1))
  {
    var job := LoggedTxJob<S>(database, queries, fault, k);
    NextStatement(queries, k);
    LoggedOfNext(queries, k, fault);
    assert job.inserted + [] == job.inserted;
    JustLoggedNext(e, s, s1, id, fault(k), job, LoggedTxJob(database, queries, fault, k + 1), s');
  }

  lemma SkipNext<S>(queries: seq<string>, database: string, fault: nat -> Option<string>, k: nat)
    requires k < |queries| && Blank(queries[k])
    ensures LoggedTxJob<S>(database, queries, fault, k + 1) == LoggedTxJob<S>(database, queries, fault, k)
  {
    NonBlankNext(queries, k);
    LoggedOfNext(queries, k, fault);
    assert LoggedOf(queries[..k], fault) + [] == LoggedOf(queries[..k], fault);
  }

  lemma {:induction false} QueriesLogged<S>(e: Engine<S>, s: System<S>, id: nat, database: string, queries: seq<string>,
                                            fault: nat -> Option<string>, k: nat, s0: System<S>)
    requires id !in s.jobs && k <= |queries| && s0 == Put(s, id, NewJob(TransactionRequest(database, queries)))
    ensures JustLogged(s, LogQueries(e, s0, id, queries, fault, k), id, LoggedTxJob(database, queries, fault, k))
  {
    if k == 0 {
      NothingAppended(s.log, Target(database));
      assert queries[..0] == [];
    } else {
      QueriesLogged(e, s, id, database, queries, fault, k - 1, s0);
      if Blank(queries[k - 1]) {
        SkipNext<S>(queries, database, fault, k - 1);
      } else {
        OfferNext(e, s, LogQueries(e, s0, id, queries, fault, k - 1), id, database, queries, fault, k - 1,
                  LogQueries(e, s0, id, queries, fault, k));
      }
    }
  }

  lemma RunOneMore<S>(e: Engine<S>, s: System<S>, id: nat, job: Job<S>, begin: S, job': Job<S>)
    requires job.done < |job.stmts| && job.work == Some(Replay(e, begin, job.stmts[..job.done]))
    requires job' == job.(work := Some(Replay(e, begin, job.stmts[..job.done + 1])), done := job.done + 1)
    ensures Next(e, Put(s, id, job), RunNext(id)) == Put(s, id, job')
  {
    assert job.stmts[..job.done + 1][..job.done] == job.stmts[..job.done];
    PutAgain(s.jobs, id, job, job');
  }

  /** The working copy after the first `k` statements. */
  function Working<S>(e: Engine<S>, job: Job<S>, begin: S, k: nat): Job<S>
    requires k <= |job.stmts|
  {
    job.(work := Some(Replay(e, begin, job.stmts[..k])), done := k)
  }

  lemma {:induction false} StatementsRun<S>(e: Engine<S>, s: System<S>, id: nat, job: Job<S>, begin: S, k: nat)
    requires k <= |job.stmts|
    ensures Repeat(e, Put(s, id, Working(e, job, begin, 0)), RunNext(id), k) == Put(s, id, Working(e, job, begin, k))
  {
    if k > 0 {
      StatementsRun(e, s, id, job, begin, k - 1);
      RunOneMore(e, s, id, Working(e, job, begin, k - 1), begin, Working(e, job, begin, k));
    }
  }

  lemma Begins<S>(e: Engine<S>, s: System<S>, id: nat, job: Job<S>)
    requires id in s.jobs && s.jobs[id] == job && !Busy(s, job.database)
    requires job.tx && AllLogged(job) && job.work.None?
    ensures Next(e, s, Begin(id)) == Put(s, id, Working(e, job, Find(s.databases, job.database, e.empty), 0))
  {
    assert job.stmts[..0] == [];
  }

  lemma Commits<S>(e: Engine<S>, s: System<S>, id: nat, job: Job<S>, begin: S)
    requires id in s.jobs
    ensures Next(e, Put(s, id, Working(e, job, begin, |job.stmts|)), Commit(id))
         == Finish(s, id, job.database, Replay(e, begin, job.stmts), Performs(job.stmts, []))
  {
    var done := Working(e, job, begin, |job.stmts|);
    assert job.stmts[..|job.stmts|] == job.stmts;
    assert s.jobs[id := done] - {id} == s.jobs - {id};
  }

  /** A transaction whose statements have been offered to the log runs to its commit. */
  lemma TransactionRuns<S>(e: Engine<S>, s: System<S>, id: nat, job: Job<S>)
    requires id in s.jobs && s.jobs[id] == job && !Busy(s, job.database)
    requires job.tx && AllLogged(job) && job.work.None?
    ensures var state := Replay(e, Find(s.databases, job.database, e.empty), job.stmts);
            Next(e, Repeat(e, Next(e, s, Begin(id)), RunNext(id), |job.stmts|), Commit(id))
            == Finish(s, id, job.database, state, Performs(job.stmts, []))
  {
    var begin := Find(s.databases, job.database, e.empty);
    Begins(e, s, id, job);
    StatementsRun(e, s, id, job, begin, |job.stmts|);
    Commits(e, s, id, job, begin);
  }

  /** A logged transaction is in step exactly when each of its writes is logged if and only if it commits. */
  lemma TransactionInStepHere<S>(database: string, queries: seq<string>, fault: nat -> Option<string>, ran: bool)
    ensures JobInStep(LoggedTxJob<S>(database, queries, fault, |queries|), ran) <==> TransactionInStep(queries, fault, ran)
  {
    assert queries[..|queries|] == queries;
    LoggedIff(queries, fault, |queries|);
  }

  lemma TransactionLogged<S>(e: Engine<S>, s: System<S>, id: nat, database: string, queries: seq<string>, fault: nat -> Option<string>)
    requires queries != [] && id !in s.jobs
    ensures JustLogged(s, LogRequest(e, s, id, TransactionRequest(database, queries), fault), id,
                       LoggedTxJob(database, queries, fault, |queries|))
  {
    QueriesLogged(e, s, id, database, queries, fault, |queries|, Put(s, id, NewJob(TransactionRequest(database, queries))));
  }

  /** A logged transaction runs to its commit, or is given up. */
  lemma TransactionEnds<S>(e: Engine<S>, s: System<S>, logged: System<S>, id: nat, job: Job<S>, ran: bool, s': System<S>)
    requires id !in s.jobs && !Busy(s, job.database) && JustLogged(s, logged, id, job)
    requires job.tx && AllLogged(job) && job.work.None?
    requires s' == if ran then Next(e, Repeat(e, Next(e, logged, Begin(id)), RunNext(id), |job.stmts|), Commit(id))
                   else Next(e, logged, Abort(id))
    ensures Served(s, s', job.database, Replay(e, Find(s.databases, job.database, e.empty), job.stmts), ran, job.inserted)
  {
    EndedJobs(s, id, job);
    if ran {
      StillFree(s, logged, id, job, job.database);
      TransactionRuns(e, logged, id, job);
    }
  }

  /**
   A transaction request, as `Handler.HandleTransaction` does it when it is admitted. It is in
   step, as the cluster sees it, exactly when `TransactionInStep` says so.
   */
  lemma TransactionServed<S>(e: Engine<S>, s: System<S>, id: nat, database: string, queries: seq<string>,
                             fault: nat -> Option<string>, ran: bool)
    requires queries != [] && id !in s.jobs && !Busy(s, Target(database))
    ensures var d := Target(database);
            Served(s, Serve(e, s, id, TransactionRequest(database, queries), fault, ran), d,
                   Replay(e, Find(s.databases, d, e.empty), NonBlank(queries)), ran, LoggedOf(queries, fault))
    ensures var logged := LogRequest(e, s, id, TransactionRequest(database, queries), fault);
            id in logged.jobs && (JobInStep(logged.jobs[id], ran) <==> TransactionInStep(queries, fault, ran))
  {
    var job := LoggedTxJob<S>(database, queries, fault, |queries|);
    assert queries[..|queries|] == queries;
    TransactionLogged(e, s, id, database, queries, fault);
    TransactionInStepHere<S>(database, queries, fault, ran);
    TransactionEnds(e, s, LogRequest(e, s, id, TransactionRequest(database, queries), fault), id, job, ran,
                    Serve(e, s, id, TransactionRequest(database, queries), fault, ran));
  }
}
