/**
 The runs in which the log keeps the order of execution: requests for one database do not
 overlap, and each request that ends has left in the log what it did.
 */
module Orderly {
  import opened Statements
  import opened Executor
  import opened ReplicationLog
  import opened Handlers
  import opened Cluster
  import opened Agreement
  import opened Wrappers

  // ------------------------------------------------- the requests that keep the order

  /** A request that ends has left in the log what it did; the conditions of module Handlers. */
  predicate JobInStep<S>(job: Job<S>, ran: bool) {
    if job.tx then job.inserted == if ran then Writes(job.stmts) else []
    else |job.stmts| == 1 && QueryInStep(job.stmts[0], job.params, job.inserted != [], ran)
  }

  predicate NoneOn<S>(s: System<S>, d: string) {
    forall i :: i in s.jobs ==> s.jobs[i].database != d
  }

  /** No two requests for one database at a time, and each one that ends is in step. */
  predicate OrderlyStep<S>(s: System<S>, h: Happening) {
    match h
    case Arrive(_, request) => NoneOn(s, Target(request.database))
    case RunQuery(id) => QueryReady(s, id) ==> JobInStep(s.jobs[id], true)
    case Commit(id) => CommitReady(s, id) ==> JobInStep(s.jobs[id], true)
    case Abort(id) => Abortable(s, id) ==> JobInStep(s.jobs[id], false)
    case _ => true
  }

  predicate IsOrderly<S>(e: Engine<S>, hs: seq<Happening>) {
    hs == [] || (IsOrderly(e, hs[..|hs| - 1]) && OrderlyStep(RunSystem(e, hs[..|hs| - 1]), hs[|hs| - 1]))
  }

  predicate Shaped<S>(job: Job<S>) {
    && (job.tx ==> job.params == [])
    && (!job.tx ==> |job.stmts| == 1 && job.work == None)
    && (!job.tx && job.inserted != [] ==> job.inserted == job.stmts && IsWriteQuery(job.stmts[0]) && job.logged == 1)
  }

  ghost predicate Alone<S>(s: System<S>) {
    forall i, j :: i in s.jobs && j in s.jobs && s.jobs[i].database == s.jobs[j].database ==> i == j
  }

  /** What is logged for a database is what took effect there, and what a request in progress has added. */
  ghost predicate JobInLine<S>(s: System<S>, job: Job<S>) {
    Shaped(job) && Logged(s, job.database) == Performed(s, job.database) + Performs(job.inserted, [])
  }

  ghost predicate IdleInLine<S>(s: System<S>, n: string) {
    NoneOn(s, n) ==> Performed(s, n) == Logged(s, n)
  }

  ghost predicate JobsInLine<S>(s: System<S>) {
    forall i :: i in s.jobs ==> JobInLine(s, s.jobs[i])
  }

  ghost predicate IdlesInLine<S>(s: System<S>) {
    forall n :: IdleInLine(s, n)
  }

  ghost predicate InLine<S>(s: System<S>) {
    Alone(s) && JobsInLine(s) && IdlesInLine(s)
  }

  lemma ArriveInLine<S>(s: System<S>, id: nat, request: Request)
    requires InLine(s) && id !in s.jobs && NoneOn(s, Target(request.database))
    ensures InLine(Put(s, id, NewJob(request)))
  {
    var s', d := Put(s, id, NewJob(request)), Target(request.database);
    assert IdleInLine(s, d);
    assert s'.jobs[id].database == d;
    assert Performed(s, d) + [] == Performed(s, d);
    forall i | i in s'.jobs ensures JobInLine(s', s'.jobs[i]) {
      assert i != id ==> JobInLine(s, s.jobs[i]);
    }
    forall n ensures IdleInLine(s', n) {
      assert IdleInLine(s, n);
      if NoneOn(s', n) { NoneOnPut(s, id, NewJob(request), n); }
    }
  }

  /** A request that comes, or changes but stays on its database, hides no other. */
  lemma NoneOnPut<S>(s: System<S>, id: nat, job: Job<S>, n: string)
    requires NoneOn(Put(s, id, job), n)
    requires id in s.jobs ==> s.jobs[id].database == job.database
    ensures job.database != n && NoneOn(s, n)
  {
    var s' := Put(s, id, job);
    assert s'.jobs[id] == job;
    forall i | i in s.jobs ensures s.jobs[i].database != n {
      assert i in s'.jobs && (i != id ==> s'.jobs[i] == s.jobs[i]);
    }
  }

  lemma JobsSame<S>(s: System<S>, id: nat, job: Job<S>, s': System<S>)
    requires JobsInLine(s) && id in s.jobs && Shaped(job) && s' == Put(s, id, job)
    requires job.database == s.jobs[id].database && job.inserted == s.jobs[id].inserted
    ensures JobsInLine(s')
  {
    forall i | i in s'.jobs ensures JobInLine(s', s'.jobs[i]) {
      assert JobInLine(s, s.jobs[i]);
    }
  }

  lemma IdlesSame<S>(s: System<S>, id: nat, job: Job<S>, s': System<S>)
    requires IdlesInLine(s) && id in s.jobs && s' == Put(s, id, job)
    requires job.database == s.jobs[id].database
    ensures IdlesInLine(s')
  {
    forall n ensures IdleInLine(s', n) {
      assert IdleInLine(s, n);
      if NoneOn(s', n) { NoneOnPut(s, id, job, n); }
    }
  }

  /** A request changes, but neither what it has logged nor any history. */
  lemma SameInLine<S>(s: System<S>, id: nat, job: Job<S>, s': System<S>)
    requires InLine(s) && id in s.jobs && Shaped(job) && s' == Put(s, id, job)
    requires job.database == s.jobs[id].database && job.inserted == s.jobs[id].inserted
    ensures InLine(s')
  {
    AloneWith(s, s.log, id, job, s');
    JobsSame(s, id, job, s');
    IdlesSame(s, id, job, s');
  }

  /** One more text at the end of both lists. */
  lemma PerformsGrow(texts: seq<string>, done: seq<Stmt>, inserted: seq<string>, q: string)
    requires Performs(texts, []) == done + Performs(inserted, [])
    ensures Performs(texts + [q], []) == done + Performs(inserted + [q], [])
  {
    PerformsNext(texts, q, []);
    PerformsNext(inserted, q, []);
  }

  /** One more statement of a request is logged. */
  lemma LoggedInLine<S>(s: System<S>, s': System<S>, d: string, inserted: seq<string>, q: string)
    requires Logged(s, d) == Performed(s, d) + Performs(inserted, []) && s'.performed == s.performed
    requires s'.log == s.log + [Entry(LastID(s.log) + 1, d, q)]
    ensures Logged(s', d) == Performed(s', d) + Performs(inserted + [q], [])
  {
    TextsForAppend(s.log, Entry(LastID(s.log) + 1, d, q), d);
    PerformsGrow(TextsFor(s.log, d), Performed(s, d), inserted, q);
  }

  lemma OtherEntry<S>(s: System<S>, x: Entry, n: string)
    requires x.database != n
    ensures Logged(s.(log := s.log + [x]), n) == Logged(s, n)
  {
    TextsForAppend(s.log, x, n);
    assert TextsFor(s.log, n) + [] == TextsFor(s.log, n);
  }

  lemma EntryJobs<S>(s: System<S>, id: nat, job: Job<S>, x: Entry, s': System<S>)
    requires Alone(s) && JobsInLine(s) && id in s.jobs && s.jobs[id].database == job.database == x.database
    requires JobInLine(s.(log := s.log + [x]), job) && s' == Put(s.(log := s.log + [x]), id, job)
    ensures JobsInLine(s')
  {
    forall i | i in s'.jobs ensures JobInLine(s', s'.jobs[i]) {
      if i != id {
        assert JobInLine(s, s.jobs[i]);
        OtherEntry(s, x, s.jobs[i].database);
      }
    }
  }

  lemma EntryIdles<S>(s: System<S>, id: nat, job: Job<S>, x: Entry, s': System<S>)
    requires IdlesInLine(s) && id in s.jobs && s.jobs[id].database == job.database == x.database
    requires s' == Put(s.(log := s.log + [x]), id, job)
    ensures IdlesInLine(s')
  {
    forall n ensures IdleInLine(s', n) {
      assert IdleInLine(s, n);
      if NoneOn(s', n) {
        NoneOnPut(s.(log := s.log + [x]), id, job, n);
        OtherEntry(s, x, n);
      }
    }
  }

  lemma AloneWith<S>(s: System<S>, log: seq<Entry>, id: nat, job: Job<S>, s': System<S>)
    requires Alone(s) && id in s.jobs && s.jobs[id].database == job.database && s' == Put(s.(log := log), id, job)
    ensures Alone(s')
  {
  }

  /** The log grows for the database of one request, which says what was added. */
  lemma EntryInLine<S>(s: System<S>, id: nat, job: Job<S>, x: Entry, s': System<S>)
    requires InLine(s) && id in s.jobs && s.jobs[id].database == job.database == x.database
    requires JobInLine(s.(log := s.log + [x]), job) && s' == Put(s.(log := s.log + [x]), id, job)
    ensures InLine(s')
  {
    AloneWith(s, s.log + [x], id, job, s');
    EntryJobs(s, id, job, x, s');
    EntryIdles(s, id, job, x, s');
  }

  lemma InsertedInLine<S>(s: System<S>, s': System<S>, job: Job<S>, job': Job<S>, x: Entry)
    requires JobInLine(s, job) && job.logged < |job.stmts| && IsWriteQuery(job.stmts[job.logged])
    requires x == Entry(LastID(s.log) + 1, job.database, job.stmts[job.logged])
    requires s' == s.(log := s.log + [x])
    requires job' == job.(logged := job.logged + 1, inserted := job.inserted + [x.query])
    ensures JobInLine(s', job')
  {
    LoggedInLine(s, s', job.database, job.inserted, x.query);
    if !job.tx {
      assert job.inserted + [x.query] == job.stmts;
    }
  }

  lemma LogWriteInLine<S>(s: System<S>, id: nat, x: Entry, job': Job<S>, s': System<S>)
    requires InLine(s) && Logging(s, id) && IsWriteQuery(s.jobs[id].stmts[s.jobs[id].logged])
    requires x == Entry(LastID(s.log) + 1, s.jobs[id].database, s.jobs[id].stmts[s.jobs[id].logged])
    requires job' == s.jobs[id].(logged := s.jobs[id].logged + 1, inserted := s.jobs[id].inserted + [x.query])
    requires s' == Put(s.(log := s.log + [x]), id, job')
    ensures InLine(s')
  {
    assert JobInLine(s, s.jobs[id]);
    InsertedInLine(s, s.(log := s.log + [x]), s.jobs[id], job', x);
    EntryInLine(s, id, job', x, s');
  }

  lemma LogSkipInLine<S>(s: System<S>, id: nat, job: Job<S>, s': System<S>)
    requires InLine(s) && id in s.jobs && job == s.jobs[id] && job.logged < |job.stmts|
    requires s' == LogSkip(s, id, job)
    ensures InLine(s')
  {
    assert JobInLine(s, job);
    SameInLine(s, id, job.(logged := job.logged + 1), s');
  }

  lemma LogStepInLine<S>(s: System<S>, id: nat, works: bool, s': System<S>)
    requires InLine(s) && Logging(s, id) && s' == LogStep(s, id, works)
    ensures InLine(s')
  {
    var job := s.jobs[id];
    if works && IsWriteQuery(job.stmts[job.logged]) {
      var x := Entry(LastID(s.log) + 1, job.database, job.stmts[job.logged]);
      LogWriteInLine(s, id, x, job.(logged := job.logged + 1, inserted := job.inserted + [x.query]), s');
    } else {
      LogSkipInLine(s, id, job, s');
    }
  }

  /** A request that is in step has left in the log exactly what it performs. */
  lemma InStepPerforms<S>(job: Job<S>, ran: bool)
    requires Shaped(job) && JobInStep(job, ran)
    ensures Performs(job.inserted, []) == if ran then Performs(job.stmts, job.params) else []
  {
    if job.tx {
      WritesPerform(job.stmts);
    } else {
      var q := job.stmts[0];
      assert [] + [q] == job.stmts;
      PerformsNext([], q, []);
      PerformsNext([], q, job.params);
    }
  }

  /** After a request, what has taken effect is what it has left in the log. */
  ghost predicate Ended<S>(s: System<S>, s': System<S>, id: nat)
    requires id in s.jobs
  {
    && s'.log == s.log && s'.jobs == s.jobs - {id}
    && forall n :: Performed(s', n) ==
         if n == s.jobs[id].database then Performed(s, n) + Performs(s.jobs[id].inserted, []) else Performed(s, n)
  }

  lemma EndJobs<S>(s: System<S>, s': System<S>, id: nat)
    requires Alone(s) && JobsInLine(s) && id in s.jobs && Ended(s, s', id)
    ensures JobsInLine(s')
  {
    forall i | i in s'.jobs ensures JobInLine(s', s'.jobs[i]) {
      assert JobInLine(s, s.jobs[i]) && s.jobs[i].database != s.jobs[id].database;
    }
  }

  lemma EndIdles<S>(s: System<S>, s': System<S>, id: nat)
    requires JobsInLine(s) && IdlesInLine(s) && id in s.jobs && Ended(s, s', id)
    ensures IdlesInLine(s')
  {
    assert JobInLine(s, s.jobs[id]);
    forall n ensures IdleInLine(s', n) {
      assert IdleInLine(s, n);
      if NoneOn(s', n) && n != s.jobs[id].database { NoneOnBefore(s, id, n); }
    }
  }

  lemma NoneOnBefore<S>(s: System<S>, id: nat, n: string)
    requires id in s.jobs && s.jobs[id].database != n && NoneOn(s.(jobs := s.jobs - {id}), n)
    ensures NoneOn(s, n)
  {
    var jobs' := s.jobs - {id};
    forall i | i in s.jobs ensures s.jobs[i].database != n {
      assert i != id ==> i in jobs' && jobs'[i] == s.jobs[i];
    }
  }

  /** A request ends with what it has left in the log. */
  lemma EndInLine<S>(s: System<S>, s': System<S>, id: nat)
    requires InLine(s) && id in s.jobs && Ended(s, s', id)
    ensures InLine(s')
  {
    EndJobs(s, s', id);
    EndIdles(s, s', id);
  }

  lemma FinishInLine<S>(s: System<S>, id: nat, state: S, ran: seq<Stmt>)
    requires InLine(s) && id in s.jobs && ran == Performs(s.jobs[id].inserted, [])
    ensures InLine(Finish(s, id, s.jobs[id].database, state, ran))
  {
    EndInLine(s, Finish(s, id, s.jobs[id].database, state, ran), id);
  }

  lemma AbortInLine<S>(s: System<S>, id: nat)
    requires InLine(s) && id in s.jobs && Performs(s.jobs[id].inserted, []) == []
    ensures InLine(s.(jobs := s.jobs - {id}))
  {
    var s' := s.(jobs := s.jobs - {id});
    assert forall n :: Performed(s', n) + [] == Performed(s, n);
    EndInLine(s, s', id);
  }

  lemma QuietInLine<S>(s: System<S>, s': System<S>)
    requires InLine(s) && s'.log == s.log && s'.jobs == s.jobs && s'.performed == s.performed
    ensures InLine(s')
  {
    forall i | i in s'.jobs ensures JobInLine(s', s'.jobs[i]) {
      assert JobInLine(s, s.jobs[i]);
    }
    forall n ensures IdleInLine(s', n) {
      assert IdleInLine(s, n);
    }
  }

  lemma RunQueryInLine<S>(e: Engine<S>, s: System<S>, id: nat)
    requires InLine(s) && QueryReady(s, id) && JobInStep(s.jobs[id], true)
    ensures InLine(QueryStep(e, s, id))
  {
    var job := s.jobs[id];
    assert JobInLine(s, job);
    InStepPerforms(job, true);
    FinishInLine(s, id, QueryStep(e, s, id).databases[job.database], Performs(job.stmts, job.params));
  }

  lemma CommitInLine<S>(s: System<S>, id: nat)
    requires InLine(s) && CommitReady(s, id) && JobInStep(s.jobs[id], true)
    ensures InLine(CommitStep(s, id))
  {
    var job := s.jobs[id];
    assert JobInLine(s, job);
    InStepPerforms(job, true);
    FinishInLine(s, id, job.work.value, Performs(job.stmts, []));
  }

  lemma InLineStep<S>(e: Engine<S>, s: System<S>, h: Happening)
    requires InLine(s) && OrderlyStep(s, h)
    ensures InLine(Next(e, s, h))
  {
    forall i | i in s.jobs ensures Shaped(s.jobs[i]) {
      assert JobInLine(s, s.jobs[i]);
    }
    match h
    case Arrive(id, request) => if id !in s.jobs && !Empty(request) { ArriveInLine(s, id, request); }
    case LogNext(id) => if Logging(s, id) { LogStepInLine(s, id, true, Next(e, s, h)); }
    case LogFails(id) => if Logging(s, id) { LogStepInLine(s, id, false, Next(e, s, h)); }
    case RunQuery(id) => if QueryReady(s, id) { RunQueryInLine(e, s, id); }
    case Begin(id) => if BeginReady(s, id) { SameInLine(s, id, BeginStep(e, s, id).jobs[id], Next(e, s, h)); }
    case RunNext(id) => if Running(s, id) { SameInLine(s, id, RunStep(e, s, id).jobs[id], Next(e, s, h)); }
    case Commit(id) => if CommitReady(s, id) { CommitInLine(s, id); }
    case Abort(id) =>
      if Abortable(s, id) {
        InStepPerforms(s.jobs[id], false);
        AbortInLine(s, id);
      }
    case OnReplica(_) => QuietInLine(s, Next(e, s, h));
  }

  lemma {:induction false} InLineRun<S>(e: Engine<S>, hs: seq<Happening>)
    requires IsOrderly(e, hs)
    ensures InLine(RunSystem(e, hs))
  {
    if hs != [] {
      InLineRun(e, hs[..|hs| - 1]);
      InLineStep(e, RunSystem(e, hs[..|hs| - 1]), hs[|hs| - 1]);
    }
  }
}
