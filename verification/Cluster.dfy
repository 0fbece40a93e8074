/**
 The primary and the replica together. Requests on the primary advance in the small steps the
 handlers take (internal/server/routes.go): every statement is offered to the log first, then
 the request runs. Any number of requests are in progress, also for one database; there, a
 write or a transaction starts only when no transaction is open. Requests that the handlers'
 screening refuses have no steps. An event that is not possible in a state changes nothing.
 */
module Cluster {
  import opened Text
  import opened Statements
  import opened Executor
  import opened ReplicationLog
  import opened ReplicaMachine
  import opened Handlers
  import opened Wrappers

  datatype Request =
    | QueryRequest(database: string, text: string, params: seq<Value>)
    | TransactionRequest(database: string, queries: seq<string>)

  /** A request in progress: how far it has logged, and for a transaction its working copy. */
  datatype Job<S> = Job(
    database: string,
    tx: bool,
    stmts: seq<string>,      // a transaction's blank queries are gone, the others trimmed
    params: seq<Value>,
    logged: nat,
    inserted: seq<string>,   // what the request has left in the log
    work: Option<S>,
    done: nat)

  datatype System<S> = System(
    databases: map<string, S>,
    performed: map<string, seq<Stmt>>,    // history: what has taken effect on each database, in order
    log: seq<Entry>,
    jobs: map<nat, Job<S>>,
    replica: Replica<S>)

  datatype Happening =
    | Arrive(id: nat, request: Request)
    | LogNext(id: nat)
    | LogFails(id: nat)      // the insert fails; the handler only audits it and goes on
    | RunQuery(id: nat)
    | Begin(id: nat)
    | RunNext(id: nat)
    | Commit(id: nat)
    | Abort(id: nat)         // open, begin or commit fails; the log is not taken back
    | OnReplica(event: Event)

  function NewJob<S>(request: Request): Job<S> {
    match request
    case QueryRequest(database, text, params) => Job(Target(database), false, [text], params, 0, [], None, 0)
    case TransactionRequest(database, queries) => Job(Target(database), true, NonBlank(queries), [], 0, [], None, 0)
  }

  predicate Empty(request: Request) {
    if request.QueryRequest? then request.text == "" else request.queries == []
  }

  function Put<S>(s: System<S>, id: nat, job: Job<S>): System<S> {
    s.(jobs := s.jobs[id := job])
  }

  /** What has taken effect on a database so far. */
  function Performed<S>(s: System<S>, d: string): seq<Stmt> {
    Find(s.performed, d, [])
  }

  /** A request ends: the database has the new state, in which the statements have taken effect. */
  function Finish<S>(s: System<S>, id: nat, d: string, state: S, stmts: seq<Stmt>): System<S> {
    s.(databases := s.databases[d := state], performed := s.performed[d := Performed(s, d) + stmts], jobs := s.jobs - {id})
  }

  predicate AllLogged<S>(job: Job<S>) {
    job.logged == |job.stmts|
  }

  /** A transaction is open on the database. */
  predicate Busy<S>(s: System<S>, d: string) {
    exists i :: i in s.jobs && s.jobs[i].database == d && s.jobs[i].work.Some?
  }

  predicate Logging<S>(s: System<S>, id: nat) {
    id in s.jobs && s.jobs[id].logged < |s.jobs[id].stmts|
  }

  function LogWrite<S>(s: System<S>, id: nat, job: Job<S>, x: Entry): System<S> {
    Put(s.(log := s.log + [x]), id, job.(logged := job.logged + 1, inserted := job.inserted + [x.query]))
  }

  function LogSkip<S>(s: System<S>, id: nat, job: Job<S>): System<S> {
    Put(s, id, job.(logged := job.logged + 1))
  }

  /** The next statement of the request is offered to the log; `works` says whether the insert does. */
  function LogStep<S>(s: System<S>, id: nat, works: bool): System<S>
    requires Logging(s, id)
  {
    var job := s.jobs[id];
    var q := job.stmts[job.logged];
    if works && IsWriteQuery(q) then LogWrite(s, id, job, Entry(LastID(s.log) + 1, job.database, q))
    else LogSkip(s, id, job)
  }

  predicate QueryReady<S>(s: System<S>, id: nat) {
    && id in s.jobs && !s.jobs[id].tx && AllLogged(s.jobs[id]) && |s.jobs[id].stmts| == 1
    && (IsWriteQuery(s.jobs[id].stmts[0]) ==> !Busy(s, s.jobs[id].database))
  }

  function QueryStep<S>(e: Engine<S>, s: System<S>, id: nat): System<S>
    requires QueryReady(s, id)
  {
    var job := s.jobs[id];
    Finish(s, id, job.database,
           Effect(e, Find(s.databases, job.database, e.empty), Stmt(job.stmts[0], job.params)),
           Performs(job.stmts, job.params))
  }

  predicate BeginReady<S>(s: System<S>, id: nat) {
    && id in s.jobs && s.jobs[id].tx && AllLogged(s.jobs[id]) && s.jobs[id].work.None?
    && !Busy(s, s.jobs[id].database)
  }

  function BeginStep<S>(e: Engine<S>, s: System<S>, id: nat): System<S>
    requires BeginReady(s, id)
  {
    var job := s.jobs[id];
    Put(s, id, job.(work := Some(Find(s.databases, job.database, e.empty)), done := 0))
  }

  predicate Running<S>(s: System<S>, id: nat) {
    id in s.jobs && s.jobs[id].work.Some? && s.jobs[id].done < |s.jobs[id].stmts|
  }

  function RunStep<S>(e: Engine<S>, s: System<S>, id: nat): System<S>
    requires Running(s, id)
  {
    var job := s.jobs[id];
    Put(s, id, job.(work := Some(Effect(e, job.work.value, Plain(job.stmts[job.done]))), done := job.done + 1))
  }

  predicate CommitReady<S>(s: System<S>, id: nat) {
    id in s.jobs && s.jobs[id].work.Some? && s.jobs[id].done == |s.jobs[id].stmts|
  }

  function CommitStep<S>(s: System<S>, id: nat): System<S>
    requires CommitReady(s, id)
  {
    var job := s.jobs[id];
    Finish(s, id, job.database, job.work.value, Performs(job.stmts, []))
  }

  predicate Abortable<S>(s: System<S>, id: nat) {
    id in s.jobs && AllLogged(s.jobs[id])
  }

  function Next<S>(e: Engine<S>, s: System<S>, h: Happening): System<S> {
    match h
    case Arrive(id, request) => if id in s.jobs || Empty(request) then s else Put(s, id, NewJob(request))
    case LogNext(id) => if Logging(s, id) then LogStep(s, id, true) else s
    case LogFails(id) => if Logging(s, id) then LogStep(s, id, false) else s
    case RunQuery(id) => if QueryReady(s, id) then QueryStep(e, s, id) else s
    case Begin(id) => if BeginReady(s, id) then BeginStep(e, s, id) else s
    case RunNext(id) => if Running(s, id) then RunStep(e, s, id) else s
    case Commit(id) => if CommitReady(s, id) then CommitStep(s, id) else s
    case Abort(id) => if Abortable(s, id) then s.(jobs := s.jobs - {id}) else s
    case OnReplica(ev) => s.(replica := ReplicaNext(e, s.log, s.replica, ev))
  }

  function Start<S>(): System<S> {
    System(map[], map[], [], map[], Fresh())
  }

  /** Any list of happenings from the start is a run. */
  function RunSystem<S>(e: Engine<S>, hs: seq<Happening>): System<S> {
    if hs == [] then Start() else Next(e, RunSystem(e, hs[..|hs| - 1]), hs[|hs| - 1])
  }

  // ------------------------------------------------- the primary, over every run

  ghost predicate JobOk<S>(e: Engine<S>, s: System<S>, job: Job<S>) {
    && job.logged <= |job.stmts| && job.done <= |job.stmts|
    && (job.work.Some? ==>
          && job.tx && AllLogged(job)
          && job.work.value == Replay(e, Find(s.databases, job.database, e.empty), job.stmts[..job.done]))
  }

  ghost predicate JobsOk<S>(e: Engine<S>, s: System<S>) {
    forall i :: i in s.jobs ==> JobOk(e, s, s.jobs[i])
  }

  predicate SameOpen<S>(a: Job<S>, b: Job<S>) {
    a.work.Some? && b.work.Some? && a.database == b.database
  }

  /** At most one transaction is open on a database. */
  ghost predicate Exclusive<S>(s: System<S>) {
    forall i, j :: i in s.jobs && j in s.jobs && SameOpen(s.jobs[i], s.jobs[j]) ==> i == j
  }

  ghost predicate DatabaseOk<S>(e: Engine<S>, s: System<S>, n: string) {
    Find(s.databases, n, e.empty) == Perform(e, e.empty, Performed(s, n))
  }

  ghost predicate DatabasesInStep<S(!new)>(e: Engine<S>, s: System<S>) {
    forall n :: DatabaseOk(e, s, n)
  }

  ghost predicate PrimaryOk<S(!new)>(e: Engine<S>, s: System<S>) {
    JobsOk(e, s) && Exclusive(s) && DatabasesInStep(e, s)
  }

  /** A step that changes one request and no database. */
  lemma PutKeeps<S(!new)>(e: Engine<S>, s: System<S>, id: nat, job: Job<S>)
    requires PrimaryOk(e, s) && JobOk(e, s, job)
    requires job.work.Some? ==>
      !Busy(s, job.database) || (id in s.jobs && s.jobs[id].work.Some? && s.jobs[id].database == job.database)
    ensures PrimaryOk(e, Put(s, id, job))
  {
    var s' := Put(s, id, job);
    forall n ensures DatabaseOk(e, s', n) {
      assert DatabaseOk(e, s, n);
    }
  }

  lemma RemoveKeeps<S(!new)>(e: Engine<S>, s: System<S>, id: nat)
    requires PrimaryOk(e, s)
    ensures PrimaryOk(e, s.(jobs := s.jobs - {id}))
  {
    forall n ensures DatabaseOk(e, s.(jobs := s.jobs - {id}), n) {
      assert DatabaseOk(e, s, n);
    }
  }

  /** The state at the end of a request: what its statements perform, on a database that others leave alone. */
  lemma FinishKeeps<S(!new)>(e: Engine<S>, s: System<S>, id: nat, d: string, state: S, stmts: seq<Stmt>)
    requires PrimaryOk(e, s)
    requires state == Perform(e, Find(s.databases, d, e.empty), stmts)
    requires state == Find(s.databases, d, e.empty)
          || forall i :: i in s.jobs && i != id && s.jobs[i].work.Some? ==> s.jobs[i].database != d
    ensures PrimaryOk(e, Finish(s, id, d, state, stmts))
  {
    var s' := Finish(s, id, d, state, stmts);
    assert DatabaseOk(e, s, d);
    PerformAppend(e, e.empty, Performed(s, d), stmts);
    forall n ensures DatabaseOk(e, s', n) {
      assert DatabaseOk(e, s, n);
    }
    forall i | i in s'.jobs ensures JobOk(e, s', s'.jobs[i]) {
      assert JobOk(e, s, s.jobs[i]);
    }
  }

  lemma LogKeeps<S(!new)>(e: Engine<S>, s: System<S>, log: seq<Entry>)
    requires PrimaryOk(e, s)
    ensures PrimaryOk(e, s.(log := log))
  {
    forall n ensures DatabaseOk(e, s.(log := log), n) {
      assert DatabaseOk(e, s, n);
    }
  }

  lemma LogStepKeeps<S(!new)>(e: Engine<S>, s: System<S>, id: nat, works: bool)
    requires PrimaryOk(e, s) && Logging(s, id)
    ensures PrimaryOk(e, LogStep(s, id, works))
  {
    var s' := LogStep(s, id, works);
    assert JobOk(e, s, s.jobs[id]);
    LogKeeps(e, s, s'.log);
    PutKeeps(e, s.(log := s'.log), id, s'.jobs[id]);
  }

  lemma QueryPerforms<S(!new)>(e: Engine<S>, db: S, q: string, params: seq<Value>)
    requires ReadsAreNeutral(e)
    ensures Effect(e, db, Stmt(q, params)) == Perform(e, db, Performs([q], params))
    ensures !IsWriteQuery(q) ==> Effect(e, db, Stmt(q, params)) == db
  {
    EffectIsPerform(e, db, q, params);
    PerformsNext([], q, params);
    PerformLast(e, db, [], Stmt(TrimSpace(q), params));
    assert [] + [q] == [q];
  }

  lemma QueryStepKeeps<S(!new)>(e: Engine<S>, s: System<S>, id: nat)
    requires ReadsAreNeutral(e) && PrimaryOk(e, s) && QueryReady(s, id)
    ensures PrimaryOk(e, QueryStep(e, s, id))
  {
    var job := s.jobs[id];
    var db, q := Find(s.databases, job.database, e.empty), job.stmts[0];
    assert job.stmts == [q];
    QueryPerforms(e, db, q, job.params);
    FinishKeeps(e, s, id, job.database, Effect(e, db, Stmt(q, job.params)), Performs(job.stmts, job.params));
  }

  lemma BeginStepKeeps<S(!new)>(e: Engine<S>, s: System<S>, id: nat)
    requires PrimaryOk(e, s) && BeginReady(s, id)
    ensures PrimaryOk(e, BeginStep(e, s, id))
  {
    var job := s.jobs[id];
    assert JobOk(e, s, job) && job.stmts[..0] == [];
    PutKeeps(e, s, id, BeginStep(e, s, id).jobs[id]);
  }

  lemma RunStepKeeps<S(!new)>(e: Engine<S>, s: System<S>, id: nat)
    requires PrimaryOk(e, s) && Running(s, id)
    ensures PrimaryOk(e, RunStep(e, s, id))
  {
    var job := s.jobs[id];
    assert JobOk(e, s, job) && job.stmts[..job.done + 1][..job.done] == job.stmts[..job.done];
    PutKeeps(e, s, id, RunStep(e, s, id).jobs[id]);
  }

  lemma CommitStepKeeps<S(!new)>(e: Engine<S>, s: System<S>, id: nat)
    requires ReadsAreNeutral(e) && PrimaryOk(e, s) && CommitReady(s, id)
    ensures PrimaryOk(e, CommitStep(s, id))
  {
    var job := s.jobs[id];
    assert JobOk(e, s, job) && job.stmts[..job.done] == job.stmts;
    ReplayIsPerform(e, Find(s.databases, job.database, e.empty), job.stmts);
    FinishKeeps(e, s, id, job.database, job.work.value, Performs(job.stmts, []));
  }

  /**
   Every step of every request keeps each database equal to what has taken effect on it, and
   each open transaction equal to what it has run on top of that.
   */
  lemma PrimaryStep<S(!new)>(e: Engine<S>, s: System<S>, h: Happening)
    requires ReadsAreNeutral(e) && PrimaryOk(e, s)
    ensures PrimaryOk(e, Next(e, s, h))
  {
    match h
    case Arrive(id, request) =>
      if id !in s.jobs && !Empty(request) { PutKeeps(e, s, id, NewJob(request)); }
    case LogNext(id) => if Logging(s, id) { LogStepKeeps(e, s, id, true); }
    case LogFails(id) => if Logging(s, id) { LogStepKeeps(e, s, id, false); }
    case RunQuery(id) => if QueryReady(s, id) { QueryStepKeeps(e, s, id); }
    case Begin(id) => if BeginReady(s, id) { BeginStepKeeps(e, s, id); }
    case RunNext(id) => if Running(s, id) { RunStepKeeps(e, s, id); }
    case Commit(id) => if CommitReady(s, id) { CommitStepKeeps(e, s, id); }
    case Abort(id) => RemoveKeeps(e, s, id);
    case OnReplica(ev) => ReplicaKeepsPrimary(e, s, ReplicaNext(e, s.log, s.replica, ev));
  }

  lemma ReplicaKeepsPrimary<S(!new)>(e: Engine<S>, s: System<S>, r: Replica<S>)
    requires PrimaryOk(e, s)
    ensures PrimaryOk(e, s.(replica := r))
  {
    forall n ensures DatabaseOk(e, s.(replica := r), n) {
      assert DatabaseOk(e, s, n);
    }
  }

  lemma {:induction false} PrimaryRun<S(!new)>(e: Engine<S>, hs: seq<Happening>)
    requires ReadsAreNeutral(e)
    ensures PrimaryOk(e, RunSystem(e, hs))
  {
    if hs != [] {
      PrimaryRun(e, hs[..|hs| - 1]);
      PrimaryStep(e, RunSystem(e, hs[..|hs| - 1]), hs[|hs| - 1]);
    }
  }

  // ------------------------------------------------- the log and the replica, over every run

  ghost predicate LogOk(log: seq<Entry>) {
    LastID(log) >= 0 && forall x :: x in log ==> IsWriteQuery(x.query)
  }

  /** The log and the replica's view of it. */
  ghost predicate ReplicaOk<S(!new)>(e: Engine<S>, s: System<S>) {
    LogOk(s.log) && Inv(e, s.log, s.replica)
  }

  lemma LogStepReplica<S(!new)>(e: Engine<S>, s: System<S>, id: nat, works: bool)
    requires ReplicaOk(e, s) && Logging(s, id)
    ensures ReplicaOk(e, LogStep(s, id, works))
  {
    var q := s.jobs[id].stmts[s.jobs[id].logged];
    var x := Entry(LastID(s.log) + 1, s.jobs[id].database, q);
    InvAppend(e, s.log, s.replica, x);
    assert LogStep(s, id, works).log == if works && IsWriteQuery(q) then s.log + [x] else s.log;
  }

  /** They keep their invariant whatever happens. */
  lemma ReplicaStep<S(!new)>(e: Engine<S>, s: System<S>, h: Happening)
    requires ReplicaOk(e, s)
    ensures ReplicaOk(e, Next(e, s, h))
  {
    match h
    case LogNext(id) => if Logging(s, id) { LogStepReplica(e, s, id, true); }
    case LogFails(id) => if Logging(s, id) { LogStepReplica(e, s, id, false); }
    case OnReplica(ev) => InvStep(e, s.log, s.replica, ev);
    case _ => assert Next(e, s, h).log == s.log && Next(e, s, h).replica == s.replica;
  }

  lemma {:induction false} ReplicaRun<S(!new)>(e: Engine<S>, hs: seq<Happening>)
    ensures ReplicaOk(e, RunSystem(e, hs))
  {
    if hs == [] {
      InvFresh(e);
    } else {
      ReplicaRun(e, hs[..|hs| - 1]);
      ReplicaStep(e, RunSystem(e, hs[..|hs| - 1]), hs[|hs| - 1]);
    }
  }

  lemma RunNextHappening<S>(e: Engine<S>, hs: seq<Happening>, h: Happening)
    ensures RunSystem(e, hs + [h]) == Next(e, RunSystem(e, hs), h)
  {
    assert (hs + [h])[..|hs|] == hs;
  }
}
