/**
 The main results: primary and replica converge in orderly runs; a crash of the replica and an
 overlap of requests are what can keep them apart, and both can happen.
 */
module Convergence {
  import opened Statements
  import opened Executor
  import opened ReplicationLog
  import opened ReplicaMachine
  import opened Redelivery
  import opened Handlers
  import opened Cluster
  import opened Agreement
  import opened Orderly

  ghost predicate NothingRedone<S>(s: System<S>) {
    Core(Redone(s.log, s.replica.lives)) == []
  }

  /**
   Convergence under interleaving. Take any orderly run: any interleaving of requests, those
   for one database one at a time, each of them in step when it ends, and any polls, apply
   failures, save failures and crashes on the replica. Whenever the replica has applied the
   whole log, every database that has no request pending is the same on both sides, if at each
   crash nothing but blank statements had been executed beyond the saved position.
   */
  lemma Convergence<S(!new)>(e: Engine<S>, hs: seq<Happening>, n: string)
    requires ReadsAreNeutral(e) && IsOrderly(e, hs)
    ensures var s := RunSystem(e, hs);
            CaughtUpWith(s) && NoneOn(s, n) && NothingRedone(s) ==> SameDatabase(e, s, n)
  {
    var s := RunSystem(e, hs);
    InLineRun(e, hs);
    assert IdleInLine(s, n);
    ReplicaRun(e, hs);
    SameHistoryAgrees(e, hs, n);
    if CaughtUpWith(s) && NothingRedone(s) { CaughtUpHistory(e, s, n); }
  }

  lemma LivesStep<S>(e: Engine<S>, s: System<S>, h: Happening)
    requires h != OnReplica(Crash)
    ensures |Next(e, s, h).replica.lives| == |s.replica.lives|
  {
  }

  lemma {:induction false} NoCrashOneLife<S>(e: Engine<S>, hs: seq<Happening>)
    requires OnReplica(Crash) !in hs
    ensures |RunSystem(e, hs).replica.lives| == 1
  {
    if hs != [] {
      var init, h := hs[..|hs| - 1], hs[|hs| - 1];
      assert h in hs && forall x :: x in init ==> x in hs;
      NoCrashOneLife(e, init);
      LivesStep(e, RunSystem(e, init), h);
    }
  }

  /** Without a crash: no request pending and the whole log applied means every database agrees. */
  lemma ConvergenceWithoutCrash<S(!new)>(e: Engine<S>, hs: seq<Happening>, n: string)
    requires ReadsAreNeutral(e) && IsOrderly(e, hs) && OnReplica(Crash) !in hs
    requires var s := RunSystem(e, hs); s.jobs == map[] && CaughtUpWith(s)
    ensures SameDatabase(e, RunSystem(e, hs), n)
  {
    NoCrashOneLife(e, hs);
    Convergence(e, hs, n);
  }

  // ------------------------------------------------- the condition on crashes is exact

  function Names(entries: seq<Entry>): (r: seq<string>)
    ensures |r| == |entries|
  {
    seq(|entries|, i requires 0 <= i < |entries| => entries[i].database)
  }

  lemma {:induction false} NamesCount(entries: seq<Entry>, n: string)
    ensures multiset(Names(entries))[n] == |TextsFor(entries, n)|
  {
    if entries != [] {
      var init, x := entries[..|entries| - 1], entries[|entries| - 1];
      NamesCount(init, n);
      assert Names(entries) == Names(init) + [x.database];
    }
  }

  /** Logs with as many entries for each database are equally long. */
  lemma {:induction false} EquallyLong(a: seq<Entry>, b: seq<Entry>)
    requires forall n :: |TextsFor(a, n)| == |TextsFor(b, n)|
    ensures |a| == |b|
  {
    forall n ensures multiset(Names(a))[n] == multiset(Names(b))[n] {
      NamesCount(a, n);
      NamesCount(b, n);
    }
    SameNames(Names(a), Names(b));
  }

  lemma SameNames(a: seq<string>, b: seq<string>)
    requires forall n :: multiset(a)[n] == multiset(b)[n]
    ensures |a| == |b|
  {
    assert multiset(a) == multiset(b);
    assert |multiset(a)| == |a| && |multiset(b)| == |b|;
  }

  /** Of logged writes, each that is not blank performs one statement. */
  lemma {:induction false} CoreLength(entries: seq<Entry>, n: string)
    requires forall x :: x in entries ==> IsWriteQuery(x.query)
    ensures |Performs(TextsFor(entries, n), [])| == |TextsFor(Core(entries), n)|
  {
    if entries != [] {
      var init, x := entries[..|entries| - 1], entries[|entries| - 1];
      assert entries == init + [x] && x in entries;
      CoreLength(init, n);
      CoreNext(init, x);
      PerformsEntry(init, x, n);
      PerformsNext([], x.query, []);
      assert [] + [x.query] == [x.query];
      TextsForAppend(Core(init), x, n);
    }
  }

  lemma AppliedFromLog<S(!new)>(e: Engine<S>, s: System<S>, x: Entry)
    requires ReplicaOk(e, s) && x in s.replica.applied
    ensures x in s.log
  {
    AppliedByCount(s.log, s.replica.lives, x);
    assert multiset(s.replica.applied)[x] > 0;
  }

  lemma AppliedWrites<S(!new)>(e: Engine<S>, s: System<S>)
    requires ReplicaOk(e, s)
    ensures forall x :: x in s.replica.applied ==> IsWriteQuery(x.query)
  {
    forall x | x in s.replica.applied ensures IsWriteQuery(x.query) {
      AppliedFromLog(e, s, x);
    }
  }

  lemma SameHistoriesNothingRedone<S(!new)>(e: Engine<S>, s: System<S>)
    requires ReplicaOk(e, s) && CaughtUpWith(s)
    requires forall n :: Applied(s, n) == Logged(s, n)
    ensures NothingRedone(s)
  {
    AppliedWrites(e, s);
    forall n ensures |TextsFor(Core(s.replica.applied), n)| == |TextsFor(Core(s.log), n)| {
      assert Applied(s, n) == Logged(s, n);
      CoreLength(s.replica.applied, n);
      CoreLength(s.log, n);
    }
    EquallyLong(Core(s.replica.applied), Core(s.log));
    CaughtUpApplied(e, s);
  }

  /**
   For an engine that tells any two histories apart the condition on crashes is also
   necessary: in orderly runs, once all requests are finished and the log is applied, all
   databases agree if and only if nothing but blank statements had been executed beyond the
   saved position at any crash.
   */
  lemma ConvergenceIff(hs: seq<Happening>)
    requires IsOrderly(Recorder(), hs)
    requires var s := RunSystem(Recorder(), hs); s.jobs == map[] && CaughtUpWith(s)
    ensures var s := RunSystem(Recorder(), hs);
            (forall n :: SameDatabase(Recorder(), s, n)) <==> NothingRedone(s)
  {
    var e := Recorder();
    var s := RunSystem(e, hs);
    forall n ensures NothingRedone(s) ==> SameDatabase(e, s, n) {
      Convergence(e, hs, n);
    }
    if forall n :: SameDatabase(e, s, n) {
      InLineRun(e, hs);
      ReplicaRun(e, hs);
      forall n ensures Applied(s, n) == Logged(s, n) {
        assert SameDatabase(e, s, n) && IdleInLine(s, n);
        AgreementIff(hs, n);
      }
      SameHistoriesNothingRedone(e, s);
    }
  }

  // ------------------------------------------------- clean runs are orderly

  /** No log failure, no failure after logging, and no write with parameters, which the log would drop. */
  predicate Clean(h: Happening) {
    match h
    case LogFails(_) => false
    case Abort(_) => false
    case Arrive(_, QueryRequest(_, text, params)) => params == [] || !IsWriteQuery(text)
    case _ => true
  }

  /** ... and no two requests for one database at a time. */
  predicate CleanRun<S>(e: Engine<S>, hs: seq<Happening>) {
    hs == [] ||
    var init, h := hs[..|hs| - 1], hs[|hs| - 1];
    CleanRun(e, init) && Clean(h) && (h.Arrive? ==> NoneOn(RunSystem(e, init), Target(h.request.database)))
  }

  predicate CleanJob<S>(job: Job<S>) {
    && job.logged <= |job.stmts| && job.inserted == Writes(job.stmts[..job.logged])
    && (job.tx || |job.stmts| == 1)
    && (!job.tx ==> job.params == [] || !IsWriteQuery(job.stmts[0]))
  }

  ghost predicate CleanJobs<S>(s: System<S>) {
    forall i :: i in s.jobs ==> CleanJob(s.jobs[i])
  }

  lemma WritesUpTo(stmts: seq<string>, k: nat)
    requires k < |stmts|
    ensures Writes(stmts[..k + 1])
         == if IsWriteQuery(stmts[k]) then Writes(stmts[..k]) + [stmts[k]] else Writes(stmts[..k])
  {
    assert stmts[..k + 1][..k] == stmts[..k];
  }

  lemma CleanLogged<S>(job: Job<S>)
    requires CleanJob(job) && job.logged < |job.stmts|
    ensures var q := job.stmts[job.logged];
            CleanJob(job.(logged := job.logged + 1, inserted := if IsWriteQuery(q) then job.inserted + [q] else job.inserted))
  {
    WritesUpTo(job.stmts, job.logged);
  }

  lemma CleanPut<S>(s: System<S>, id: nat, job: Job<S>, s': System<S>)
    requires CleanJobs(s) && CleanJob(job) && s'.jobs == s.jobs[id := job]
    ensures CleanJobs(s')
  {
  }

  lemma CleanRemove<S>(s: System<S>, id: nat, s': System<S>)
    requires CleanJobs(s) && s'.jobs == s.jobs - {id}
    ensures CleanJobs(s')
  {
  }

  lemma CleanStarts<S>(e: Engine<S>, s: System<S>, id: nat, s': System<S>)
    requires CleanJobs(s)
    requires (BeginReady(s, id) && s' == BeginStep(e, s, id)) || (Running(s, id) && s' == RunStep(e, s, id))
    ensures CleanJobs(s')
  {
    assert CleanJob(s.jobs[id]);
    CleanPut(s, id, s'.jobs[id], s');
  }

  lemma CleanLogStep<S>(s: System<S>, id: nat, s': System<S>)
    requires CleanJobs(s) && Logging(s, id) && s' == LogStep(s, id, true)
    ensures CleanJobs(s')
  {
    CleanLogged(s.jobs[id]);
    CleanPut(s, id, s'.jobs[id], s');
  }

  lemma CleanArrive<S>(s: System<S>, id: nat, request: Request, s': System<S>)
    requires CleanJobs(s) && Clean(Arrive(id, request)) && s' == Put(s, id, NewJob(request))
    ensures CleanJobs(s')
  {
    assert NewJob<S>(request).stmts[..0] == [];
    CleanPut(s, id, NewJob(request), s');
  }

  lemma CleanJobsStep<S>(e: Engine<S>, s: System<S>, h: Happening, s': System<S>)
    requires CleanJobs(s) && Clean(h) && s' == Next(e, s, h)
    ensures CleanJobs(s')
  {
    match h
    case Arrive(id, request) => if id !in s.jobs && !Empty(request) { CleanArrive(s, id, request, s'); }
    case LogNext(id) => if Logging(s, id) { CleanLogStep(s, id, s'); }
    case Begin(id) => if BeginReady(s, id) { CleanStarts(e, s, id, s'); }
    case RunNext(id) => if Running(s, id) { CleanStarts(e, s, id, s'); }
    case RunQuery(id) => if QueryReady(s, id) { CleanRemove(s, id, s'); }
    case Commit(id) => if CommitReady(s, id) { CleanRemove(s, id, s'); }
    case OnReplica(_) =>
  }

  lemma CleanJobInStep<S>(job: Job<S>)
    requires CleanJob(job) && AllLogged(job)
    ensures JobInStep(job, true)
  {
    assert job.stmts[..job.logged] == job.stmts;
    if !job.tx {
      assert [] + [job.stmts[0]] == job.stmts;
      WritesAppend([], job.stmts[0]);
    }
  }

  lemma CleanStepOrderly<S(!new)>(e: Engine<S>, s: System<S>, h: Happening)
    requires PrimaryOk(e, s) && CleanJobs(s) && Clean(h)
    requires h.Arrive? ==> NoneOn(s, Target(h.request.database))
    ensures OrderlyStep(s, h)
  {
    if h.RunQuery? && QueryReady(s, h.id) {
      CleanJobInStep(s.jobs[h.id]);
    }
    if h.Commit? && CommitReady(s, h.id) {
      assert JobOk(e, s, s.jobs[h.id]);
      CleanJobInStep(s.jobs[h.id]);
    }
  }

  /**
   Runs in which nothing fails on the primary, writes carry no parameters and requests for one
   database do not overlap are orderly, so everything above holds of them.
   */
  lemma {:induction false} CleanRunsAreOrderly<S(!new)>(e: Engine<S>, hs: seq<Happening>)
    requires ReadsAreNeutral(e) && CleanRun(e, hs)
    ensures IsOrderly(e, hs) && CleanJobs(RunSystem(e, hs))
  {
    if hs != [] {
      var init, h := hs[..|hs| - 1], hs[|hs| - 1];
      CleanRunsAreOrderly(e, init);
      PrimaryRun(e, init);
      CleanStepOrderly(e, RunSystem(e, init), h);
      CleanJobsStep(e, RunSystem(e, init), h, RunSystem(e, hs));
    }
  }
}
