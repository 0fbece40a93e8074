/**
 When primary and replica agree on a database: the exact condition, over every run of the
 cluster, on what has taken effect on the one and what has been executed on the other.
 */
module Agreement {
  import opened Text
  import opened Statements
  import opened Executor
  import opened ReplicationLog
  import opened ReplicaMachine
  import opened Redelivery
  import opened Cluster

  ghost predicate SameDatabase<S>(e: Engine<S>, s: System<S>, n: string) {
    Find(s.replica.databases, n, e.empty) == Find(s.databases, n, e.empty)
  }

  /** The replica has applied the whole log. */
  predicate CaughtUpWith<S>(s: System<S>) {
    s.replica.cursor == LastID(s.log)
  }

  /** What the log says has taken effect on a database, in the order of the log. */
  function Logged<S>(s: System<S>, n: string): seq<Stmt> {
    Performs(TextsFor(s.log, n), [])
  }

  /** What the replica has executed on a database, in order. */
  function Applied<S>(s: System<S>, n: string): seq<Stmt> {
    Performs(TextsFor(s.replica.applied, n), [])
  }

  lemma ReplicaPerforms<S(!new)>(e: Engine<S>, s: System<S>, n: string)
    requires ReadsAreNeutral(e) && ReplicaOk(e, s)
    ensures Find(s.replica.databases, n, e.empty) == Perform(e, e.empty, Applied(s, n))
  {
    ReplayIsPerform(e, e.empty, TextsFor(s.replica.applied, n));
  }

  /** A replica that has executed what has taken effect on the primary, in the same order, agrees. */
  lemma SameHistoryAgrees<S(!new)>(e: Engine<S>, hs: seq<Happening>, n: string)
    requires ReadsAreNeutral(e)
    ensures var s := RunSystem(e, hs); Performed(s, n) == Applied(s, n) ==> SameDatabase(e, s, n)
  {
    PrimaryRun(e, hs);
    ReplicaRun(e, hs);
    ReplicaPerforms(e, RunSystem(e, hs), n);
    assert DatabaseOk(e, RunSystem(e, hs), n);
  }

  // ------------------------------------------------- the engine that remembers everything

  /** A trimmed write that does something, as the histories hold them. */
  predicate Proper(x: Stmt) {
    TakesEffect(x.text) && TrimSpace(x.text) == x.text
  }

  predicate AllProper(stmts: seq<Stmt>) {
    forall i :: 0 <= i < |stmts| ==> Proper(stmts[i])
  }

  lemma TrimmedIsProper(q: string, params: seq<Value>)
    requires TakesEffect(q)
    ensures Proper(Stmt(TrimSpace(q), params))
  {
    TrimIdempotent(q);
    ClassificationIgnoresOuterSpace(q);
  }

  lemma {:induction false} PerformsProper(texts: seq<string>, params: seq<Value>)
    ensures AllProper(Performs(texts, params))
  {
    if texts != [] {
      var q := texts[|texts| - 1];
      PerformsProper(texts[..|texts| - 1], params);
      if TakesEffect(q) { TrimmedIsProper(q, params); }
    }
  }

  lemma RecorderNext(stmts: seq<Stmt>, x: Stmt)
    requires Proper(x)
    ensures Effect(Recorder(), stmts, x) == stmts + [x]
  {
    RecorderEffect(stmts, x);
    assert Stmt(TrimSpace(x.text), x.params) == x;
  }

  /** The engine's state after each of the statements is the list of those it was given. */
  ghost predicate Remembers(e: Engine<seq<Stmt>>, stmts: seq<Stmt>) {
    forall k {:trigger stmts[k]} :: 0 <= k < |stmts| ==> Effect(e, stmts[..k], stmts[k]) == stmts[..k] + [stmts[k]]
  }

  lemma RecorderRemembers(stmts: seq<Stmt>)
    requires AllProper(stmts)
    ensures Remembers(Recorder(), stmts)
  {
    forall k | 0 <= k < |stmts| ensures Effect(Recorder(), stmts[..k], stmts[k]) == stmts[..k] + [stmts[k]] {
      RecorderNext(stmts[..k], stmts[k]);
    }
  }

  lemma RememberedNext(e: Engine<seq<Stmt>>, init: seq<Stmt>, x: Stmt, stmts: seq<Stmt>)
    requires Perform(e, [], init) == init && Effect(e, init, x) == init + [x] && stmts == init + [x]
    ensures Perform(e, [], stmts) == stmts
  {
    PerformLast(e, [], init, x);
  }

  lemma RemembersOne(e: Engine<seq<Stmt>>, stmts: seq<Stmt>, k: nat)
    requires Remembers(e, stmts) && k < |stmts|
    ensures Effect(e, stmts[..k], stmts[k]) == stmts[..k] + [stmts[k]] && stmts[..k + 1] == stmts[..k] + [stmts[k]]
  {
  }

  lemma {:induction false} Remembered(e: Engine<seq<Stmt>>, stmts: seq<Stmt>, k: nat)
    requires Remembers(e, stmts) && k <= |stmts|
    ensures Perform(e, [], stmts[..k]) == stmts[..k]
  {
    if k > 0 {
      Remembered(e, stmts, k - 1);
      RemembersOne(e, stmts, k - 1);
      RememberedNext(e, stmts[..k - 1], stmts[k - 1], stmts[..k]);
    }
  }

  lemma HistoryRemembered(e: Engine<seq<Stmt>>, stmts: seq<Stmt>)
    requires e == Recorder() && AllProper(stmts)
    ensures Perform(e, [], stmts) == stmts
  {
    RecorderRemembers(stmts);
    Remembered(e, stmts, |stmts|);
    assert stmts[..|stmts|] == stmts;
  }

  ghost predicate PerformedProper<S>(s: System<S>) {
    forall n :: AllProper(Performed(s, n))
  }

  lemma FinishProper<S>(s: System<S>, id: nat, d: string, state: S, texts: seq<string>, params: seq<Value>)
    requires PerformedProper(s)
    ensures PerformedProper(Finish(s, id, d, state, Performs(texts, params)))
  {
    PerformsProper(texts, params);
    forall n ensures AllProper(Performed(Finish(s, id, d, state, Performs(texts, params)), n)) {
      assert AllProper(Performed(s, n)) && AllProper(Performed(s, d));
    }
  }

  lemma ProperStep<S>(e: Engine<S>, s: System<S>, h: Happening)
    requires PerformedProper(s)
    ensures PerformedProper(Next(e, s, h))
  {
    match h
    case RunQuery(id) =>
      if QueryReady(s, id) {
        var job := s.jobs[id];
        FinishProper(s, id, job.database, QueryStep(e, s, id).databases[job.database], job.stmts, job.params);
      }
    case Commit(id) =>
      if CommitReady(s, id) {
        FinishProper(s, id, s.jobs[id].database, s.jobs[id].work.value, s.jobs[id].stmts, []);
      }
    case _ =>
      assert Next(e, s, h).performed == s.performed;
      forall n ensures AllProper(Performed(Next(e, s, h), n)) {
        assert AllProper(Performed(s, n));
      }
  }

  lemma {:induction false} ProperRun<S>(e: Engine<S>, hs: seq<Happening>)
    ensures PerformedProper(RunSystem(e, hs))
  {
    if hs != [] {
      ProperRun(e, hs[..|hs| - 1]);
      ProperStep(e, RunSystem(e, hs[..|hs| - 1]), hs[|hs| - 1]);
    }
  }

  /**
   Over every run - with overlapping requests, parameters, failures of all kinds and crashes -
   the two sides agree on a database if what the replica has executed there is what has taken
   effect on the primary, in the same order; and for an engine that tells any two histories
   apart, only then.
   */
  lemma AgreementIff(hs: seq<Happening>, n: string)
    ensures var s := RunSystem(Recorder(), hs);
            SameDatabase(Recorder(), s, n) <==> Performed(s, n) == Applied(s, n)
  {
    var e := Recorder();
    var s := RunSystem(e, hs);
    PrimaryRun(e, hs);
    ReplicaRun(e, hs);
    ReplicaPerforms(e, s, n);
    ProperRun(e, hs);
    assert DatabaseOk(e, s, n) && AllProper(Performed(s, n));
    HistoryRemembered(e, Performed(s, n));
    PerformsProper(TextsFor(s.replica.applied, n), []);
    HistoryRemembered(e, Applied(s, n));
  }

  // ------------------------------------------------- the order of execution and of the log

  lemma PerformsEntry(entries: seq<Entry>, x: Entry, n: string)
    ensures Performs(TextsFor(entries + [x], n), [])
         == Performs(TextsFor(entries, n), []) + if x.database == n then Performs([x.query], []) else []
  {
    var texts := TextsFor(entries, n);
    TextsForAppend(entries, x, n);
    if x.database == n {
      PerformsAppend(texts, [x.query], []);
    } else {
      assert texts + [] == texts;
    }
  }

  lemma CoreNext(entries: seq<Entry>, x: Entry)
    ensures Core(entries + [x]) == if Blank(x.query) then Core(entries) else Core(entries) + [x]
  {
    assert (entries + [x])[..|entries|] == entries;
    assert Core(entries) + [] == Core(entries);
  }

  lemma BlankPerformsNothing(q: string)
    requires Blank(q)
    ensures Performs([q], []) == []
  {
    PerformsNext([], q, []);
    assert [] + [q] == [q];
  }

  lemma {:induction false} CorePerforms(entries: seq<Entry>, n: string)
    ensures Performs(TextsFor(Core(entries), n), []) == Performs(TextsFor(entries, n), [])
  {
    if entries != [] {
      var init, x := entries[..|entries| - 1], entries[|entries| - 1];
      CorePerforms(init, n);
      assert entries == init + [x];
      PerformsEntry(init, x, n);
      CoreNext(init, x);
      if Blank(x.query) {
        BlankPerformsNothing(x.query);
      } else {
        PerformsEntry(Core(init), x, n);
      }
    }
  }

  /** What the replica has executed is the log and what crashes made it redo. */
  ghost predicate CoreOnce<S>(s: System<S>) {
    Accounted(s.replica.applied, s.log, Redone(s.log, s.replica.lives))
  }

  /** A replica that has caught up has executed the core of the log once, unless crashes made it redo some. */
  lemma CaughtUpApplied<S(!new)>(e: Engine<S>, s: System<S>)
    requires ReplicaOk(e, s) && CaughtUpWith(s)
    ensures CoreOnce(s)
  {
    var log, lives := s.log, s.replica.lives;
    var last := lives[|lives| - 1].frontier;
    if s.replica.executed { HeadOfPage(log, s.replica); }
    assert last == LastID(log);
    WholeLog(log, last);
    ExecutionsCount(log, lives);
  }

  lemma WholeLog(log: seq<Entry>, last: int)
    requires Ascending(log) && last == LastID(log) >= 0
    ensures Between(log, 0, last) == log
  {
    BetweenIsSlice(log, 0, last);
    RankOfZero(log);
    RankBelowLast(log, last);
    assert log[0..|log|] == log;
  }

  lemma CaughtUpHistory<S(!new)>(e: Engine<S>, s: System<S>, n: string)
    requires ReplicaOk(e, s) && CaughtUpWith(s) && Core(Redone(s.log, s.replica.lives)) == []
    ensures Applied(s, n) == Logged(s, n)
  {
    CaughtUpApplied(e, s);
    CorePerforms(s.replica.applied, n);
    CorePerforms(s.log, n);
  }

  /**
   Overlap on one database: when the replica has applied the whole log and no crash made it
   redo anything, the two sides agree on a database exactly when the order in which the writes
   took effect there is the order in which they were logged, with the same texts and no parameters.
   */
  lemma OrderIff(hs: seq<Happening>, n: string)
    requires var s := RunSystem(Recorder(), hs); CaughtUpWith(s) && Core(Redone(s.log, s.replica.lives)) == []
    ensures var s := RunSystem(Recorder(), hs);
            SameDatabase(Recorder(), s, n) <==> Performed(s, n) == Logged(s, n)
  {
    ReplicaRun(Recorder(), hs);
    CaughtUpHistory(Recorder(), RunSystem(Recorder(), hs), n);
    AgreementIff(hs, n);
  }
}
