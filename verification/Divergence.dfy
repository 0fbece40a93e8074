/**
 Runs in which primary and replica end up different although the replica has applied the whole
 log: a crash of the replica at the wrong moment, and an overlap of two requests.
 */
module Divergence {
  import opened Text
  import opened Executor
  import opened ReplicationLog
  import opened ReplicaMachine
  import opened Redelivery
  import opened Cluster
  import opened Requests
  import opened Agreement
  import opened Convergence
  import opened Wrappers

  // ------------------------------------------------- queries

  function Ready(text: string): Job<seq<Stmt>> {
    Job("main", false, [text], [], 1, [text], None, 0)
  }

  lemma ArriveThenLog(s: System<seq<Stmt>>, id: nat, text: string, s1: System<seq<Stmt>>)
    requires TakesEffect(text) && id !in s.jobs && s1 == Put(s, id, NewJob(QueryRequest("", text, [])))
    ensures Next(Recorder(), s1, LogNext(id))
         == s.(log := s.log + [Entry(LastID(s.log) + 1, "main", text)], jobs := s.jobs[id := Ready(text)])
  {
    assert [] + [text] == [text];
    OfferStep(Recorder(), s1, id, None, NewJob(QueryRequest("", text, [])), Ready(text), Next(Recorder(), s1, LogNext(id)));
    PutAgain(s.jobs, id, NewJob(QueryRequest("", text, [])), Ready(text));
  }

  /** A query arrives and is logged. */
  lemma ArriveAndLog(hs: seq<Happening>, id: nat, text: string)
    requires TakesEffect(text) && id !in RunSystem(Recorder(), hs).jobs
    ensures var s := RunSystem(Recorder(), hs);
            RunSystem(Recorder(), hs + [Arrive(id, QueryRequest("", text, []))] + [LogNext(id)])
            == s.(log := s.log + [Entry(LastID(s.log) + 1, "main", text)], jobs := s.jobs[id := Ready(text)])
  {
    var e, h := Recorder(), Arrive(id, QueryRequest("", text, []));
    BlankIffAllSpace("");
    RunNextHappening(e, hs, h);
    RunNextHappening(e, hs + [h], LogNext(id));
    ArriveThenLog(RunSystem(e, hs), id, text, RunSystem(e, hs + [h]));
  }

  /** A logged query runs. */
  lemma RunReady(hs: seq<Happening>, id: nat, text: string)
    requires var s := RunSystem(Recorder(), hs);
             id in s.jobs && s.jobs[id] == Ready(text) && !Busy(s, "main")
    ensures var s, s' := RunSystem(Recorder(), hs), RunSystem(Recorder(), hs + [RunQuery(id)]);
            && s'.jobs == s.jobs - {id} && s'.log == s.log && s'.replica == s.replica
            && Performed(s', "main") == Performed(s, "main") + Performs([text], [])
  {
    RunNextHappening(Recorder(), hs, RunQuery(id));
    assert QueryReady(RunSystem(Recorder(), hs), id);
  }

  // ------------------------------------------------- a crash

  /** One request for one write statement. */
  function OneWrite(text: string): seq<Happening> {
    [Arrive(1, QueryRequest("", text, []))] + [LogNext(1)] + [RunQuery(1)]
  }

  lemma OneWriteRuns(text: string)
    requires TakesEffect(text)
    ensures var s := RunSystem(Recorder(), OneWrite(text));
            && s.log == [Entry(1, "main", text)] && s.jobs == map[] && s.replica == Fresh()
            && Performed(s, "main") == Performs([text], [])
  {
    ArriveAndLog([], 1, text);
    var h0 := [] + [Arrive(1, QueryRequest("", text, []))] + [LogNext(1)];
    assert OneWrite(text) == h0 + [RunQuery(1)];
    assert [] + [Entry(1, "main", text)] == [Entry(1, "main", text)];
    RunReady(h0, 1, text);
    assert [] + Performs([text], []) == Performs([text], []);
  }

  lemma OnReplicaNext<S>(e: Engine<S>, hs: seq<Happening>, ev: Event)
    ensures var s, s' := RunSystem(e, hs), RunSystem(e, hs + [OnReplica(ev)]);
            s' == s.(replica := ReplicaNext(e, s.log, s.replica, ev))
  {
    RunNextHappening(e, hs, OnReplica(ev));
  }

  /** Two events of the replica in a row. */
  lemma TwoEvents<S>(e: Engine<S>, hs: seq<Happening>, a: Event, b: Event)
    ensures var s := RunSystem(e, hs);
            RunSystem(e, hs + [OnReplica(a)] + [OnReplica(b)])
            == s.(replica := ReplicaNext(e, s.log, ReplicaNext(e, s.log, s.replica, a), b))
  {
    OnReplicaNext(e, hs, a);
    OnReplicaNext(e, hs + [OnReplica(a)], b);
  }

  /** A poll at the start of a short log fetches all of it; its first entry is executed. */
  lemma PollAndExecute<S>(e: Engine<S>, log: seq<Entry>, r: Replica<S>)
    requires Ascending(log) && 0 < |log| <= PAGE
    requires r.cursor == 0 && r.page == [] && r.batch == 0 && !r.executed
    ensures var r' := ReplicaNext(e, log, ReplicaNext(e, log, r, Poll), Execute);
            && r'.page == log && r'.batch == |log| && r'.executed && r'.saved == r.saved && r'.cursor == 0
            && r'.applied == r.applied + [log[0]]
  {
    RankOfZero(log);
    AfterIsSuffix(log, 0);
    assert Page(log, 0, PAGE) == log;
  }

  const CRASHING_POLL: seq<Happening> :=
    [OnReplica(Poll)] + [OnReplica(Execute)] + [OnReplica(Crash)]
    + [OnReplica(Poll)] + [OnReplica(Execute)] + [OnReplica(Advance)] + [OnReplica(Save)]

  /** The replica's side of it: the entry is executed before the crash and again after it. */
  lemma ExecutedTwice<S>(e: Engine<S>, x: Entry)
    requires x.id > 0
    ensures var log := [x];
            var r2 := ReplicaNext(e, log, ReplicaNext(e, log, Fresh<S>(), Poll), Execute);
            var r5 := ReplicaNext(e, log, ReplicaNext(e, log, ReplicaNext(e, log, r2, Crash), Poll), Execute);
            var r7 := ReplicaNext(e, log, ReplicaNext(e, log, r5, Advance), Save);
            r7.cursor == x.id && r7.applied == [x] + [x]
  {
    var log := [x];
    PollAndExecute(e, log, Fresh<S>());
    var r2 := ReplicaNext(e, log, ReplicaNext(e, log, Fresh<S>(), Poll), Execute);
    assert r2.applied == [] + [x] == [x];
    PollAndExecute(e, log, ReplicaNext(e, log, r2, Crash));
  }

  lemma CrashingPollSplit(h0: seq<Happening>) returns (h2: seq<Happening>, h3: seq<Happening>, h5: seq<Happening>)
    ensures h2 == h0 + [OnReplica(Poll)] + [OnReplica(Execute)]
    ensures h3 == h2 + [OnReplica(Crash)]
    ensures h5 == h3 + [OnReplica(Poll)] + [OnReplica(Execute)]
    ensures h0 + CRASHING_POLL == h5 + [OnReplica(Advance)] + [OnReplica(Save)]
  {
    h2 := h0 + [OnReplica(Poll)] + [OnReplica(Execute)];
    h3 := h2 + [OnReplica(Crash)];
    h5 := h3 + [OnReplica(Poll)] + [OnReplica(Execute)];
  }

  lemma CrashingPollRuns<S>(e: Engine<S>, h0: seq<Happening>, x: Entry)
    requires x.id > 0
    requires RunSystem(e, h0).log == [x] && RunSystem(e, h0).replica == Fresh<S>()
    ensures var s0, s := RunSystem(e, h0), RunSystem(e, h0 + CRASHING_POLL);
            s == s0.(replica := s.replica) && s.replica.cursor == x.id && s.replica.applied == [x] + [x]
  {
    ExecutedTwice(e, x);
    var h2, h3, h5 := CrashingPollSplit(h0);
    TwoEvents(e, h0, Poll, Execute);
    OnReplicaNext(e, h2, Crash);
    TwoEvents(e, h3, Poll, Execute);
    TwoEvents(e, h5, Advance, Save);
  }

  lemma OneEntryPerforms(x: Entry)
    requires TakesEffect(x.query)
    ensures |Performs(TextsFor([x] + [x], x.database), [])| == 2 && |Performs([x.query], [])| == 1
  {
    TwoEntriesPerform(x, x);
    OnePerforms(x.query);
  }

  /**
   A crash: for every write that is not blank, a crash between executing its entry and saving
   the position makes the replica execute it twice.
   */
  lemma CrashDiverges(text: string)
    requires TakesEffect(text)
    ensures var s := RunSystem(Recorder(), OneWrite(text) + CRASHING_POLL);
            && s.jobs == map[] && CaughtUpWith(s)
            && !SameDatabase(Recorder(), s, "main")
  {
    var e, x := Recorder(), Entry(1, "main", text);
    OneWriteRuns(text);
    CrashingPollRuns(e, OneWrite(text), x);
    OneEntryPerforms(x);
    AgreementIff(OneWrite(text) + CRASHING_POLL, "main");
  }

  // ------------------------------------------------- an overlap

  /** Two requests for the same database, logged in one order and executed in the other. */
  function Overlap(a: string, b: string): seq<Happening> {
    [Arrive(1, QueryRequest("", a, []))] + [LogNext(1)]
    + [Arrive(2, QueryRequest("", b, []))] + [LogNext(2)] + [RunQuery(2)] + [RunQuery(1)]
  }

  lemma OverlapSplit(a: string, b: string) returns (h0: seq<Happening>, hs: seq<Happening>)
    ensures h0 == [] + [Arrive(1, QueryRequest("", a, []))] + [LogNext(1)]
    ensures hs == h0 + [Arrive(2, QueryRequest("", b, []))] + [LogNext(2)]
    ensures Overlap(a, b) == hs + [RunQuery(2)] + [RunQuery(1)]
  {
    h0 := [Arrive(1, QueryRequest("", a, []))] + [LogNext(1)];
    hs := h0 + [Arrive(2, QueryRequest("", b, []))] + [LogNext(2)];
    assert h0 == [] + [Arrive(1, QueryRequest("", a, []))] + [LogNext(1)];
  }

  /** Two queries arrive and are logged, one after the other. */
  lemma TwoLogged(h0: seq<Happening>, hs: seq<Happening>, a: string, b: string)
    requires TakesEffect(a) && TakesEffect(b)
    requires h0 == [] + [Arrive(1, QueryRequest("", a, []))] + [LogNext(1)]
    requires hs == h0 + [Arrive(2, QueryRequest("", b, []))] + [LogNext(2)]
    ensures var s := RunSystem(Recorder(), hs);
            && s.log == [Entry(1, "main", a)] + [Entry(2, "main", b)] && s.jobs == map[1 := Ready(a)][2 := Ready(b)]
            && s.replica == Fresh() && s.performed == map[]
  {
    ArriveAndLog([], 1, a);
    assert [] + [Entry(1, "main", a)] == [Entry(1, "main", a)];
    ArriveAndLog(h0, 2, b);
  }

  lemma OverlapLogged(a: string, b: string) returns (hs: seq<Happening>)
    requires TakesEffect(a) && TakesEffect(b)
    ensures Overlap(a, b) == hs + [RunQuery(2)] + [RunQuery(1)]
    ensures var s := RunSystem(Recorder(), hs);
            && s.log == [Entry(1, "main", a)] + [Entry(2, "main", b)] && s.jobs == map[1 := Ready(a)][2 := Ready(b)]
            && s.replica == Fresh() && s.performed == map[]
  {
    var h0;
    h0, hs := OverlapSplit(a, b);
    TwoLogged(h0, hs, a, b);
  }

  lemma OverlapRuns(a: string, b: string)
    requires TakesEffect(a) && TakesEffect(b)
    ensures var s := RunSystem(Recorder(), Overlap(a, b));
            && s.jobs == map[] && s.replica == Fresh()
            && s.log == [Entry(1, "main", a)] + [Entry(2, "main", b)]
            && Performed(s, "main") == Performs([b], []) + Performs([a], [])
  {
    var hs := OverlapLogged(a, b);
    RunReady(hs, 2, b);
    RunReady(hs + [RunQuery(2)], 1, a);
    assert map[1 := Ready(a)][2 := Ready(b)] - {2} - {1} == map[];
    assert [] + Performs([b], []) == Performs([b], []);
  }

  const POLL_OF_TWO: seq<Happening> :=
    [OnReplica(Poll)] + [OnReplica(Execute)] + [OnReplica(Advance)]
    + [OnReplica(Execute)] + [OnReplica(Advance)] + [OnReplica(Save)]

  /** The replica fetches both entries and applies them in the order of the log. */
  lemma TwoApplied<S>(e: Engine<S>, x: Entry, y: Entry)
    requires 0 < x.id < y.id
    ensures var log := [x] + [y];
            var r2 := ReplicaNext(e, log, ReplicaNext(e, log, Fresh<S>(), Poll), Execute);
            var r4 := ReplicaNext(e, log, ReplicaNext(e, log, r2, Advance), Execute);
            var r6 := ReplicaNext(e, log, ReplicaNext(e, log, r4, Advance), Save);
            r6.cursor == y.id && r6.applied == log && |r6.lives| == 1
  {
    var log := [x] + [y];
    PollAndExecute(e, log, Fresh<S>());
    var r2 := ReplicaNext(e, log, ReplicaNext(e, log, Fresh<S>(), Poll), Execute);
    assert r2.applied == [] + [x] == [x];
    assert r2.page[1..] == [y];
  }

  lemma PollOfTwoSplit(h0: seq<Happening>) returns (h2: seq<Happening>, h4: seq<Happening>)
    ensures h2 == h0 + [OnReplica(Poll)] + [OnReplica(Execute)]
    ensures h4 == h2 + [OnReplica(Advance)] + [OnReplica(Execute)]
    ensures h0 + POLL_OF_TWO == h4 + [OnReplica(Advance)] + [OnReplica(Save)]
  {
    h2 := h0 + [OnReplica(Poll)] + [OnReplica(Execute)];
    h4 := h2 + [OnReplica(Advance)] + [OnReplica(Execute)];
  }

  lemma PollOfTwoRuns<S>(e: Engine<S>, h0: seq<Happening>, x: Entry, y: Entry)
    requires 0 < x.id < y.id
    requires RunSystem(e, h0).log == [x] + [y] && RunSystem(e, h0).replica == Fresh<S>()
    ensures var s0, s := RunSystem(e, h0), RunSystem(e, h0 + POLL_OF_TWO);
            s == s0.(replica := s.replica) && CaughtUpWith(s) && s.replica.applied == s.log && |s.replica.lives| == 1
  {
    TwoApplied(e, x, y);
    var h2, h4 := PollOfTwoSplit(h0);
    TwoEvents(e, h0, Poll, Execute);
    TwoEvents(e, h2, Advance, Execute);
    TwoEvents(e, h4, Advance, Save);
  }

  lemma TwoEntriesPerform(x: Entry, y: Entry)
    requires x.database == y.database
    ensures Performs(TextsFor([x] + [y], x.database), []) == Performs([x.query], []) + Performs([y.query], [])
  {
    PerformsEntry([x], y, x.database);
    PerformsEntry([], x, x.database);
    assert [] + [x] == [x];
    assert [] + Performs([x.query], []) == Performs([x.query], []);
  }

  lemma OnePerforms(q: string)
    requires TakesEffect(q)
    ensures Performs([q], []) == [Stmt(TrimSpace(q), [])]
  {
    PerformsNext([], q, []);
    assert [] + [q] == [q];
  }

  lemma SwappedDiffer(x: Stmt, y: Stmt)
    requires x != y
    ensures [x] + [y] != [y] + [x]
  {
    assert ([x] + [y])[0] != ([y] + [x])[0];
  }

  lemma OrderShows(a: string, b: string)
    requires TakesEffect(a) && TakesEffect(b) && TrimSpace(a) != TrimSpace(b)
    ensures Performs([a], []) + Performs([b], []) != Performs([b], []) + Performs([a], [])
  {
    OnePerforms(a);
    OnePerforms(b);
    SwappedDiffer(Stmt(TrimSpace(a), []), Stmt(TrimSpace(b), []));
  }

  /**
   An overlap: for any two different writes to one database there is an interleaving of their
   two requests, with no failure of any kind, that leaves the two sides different.
   */
  lemma OverlapDiverges(a: string, b: string)
    requires TakesEffect(a) && TakesEffect(b) && TrimSpace(a) != TrimSpace(b)
    ensures var s := RunSystem(Recorder(), Overlap(a, b) + POLL_OF_TWO);
            && s.jobs == map[] && CaughtUpWith(s) && NothingRedone(s)
            && !SameDatabase(Recorder(), s, "main")
  {
    OverlapRuns(a, b);
    PollOfTwoRuns(Recorder(), Overlap(a, b), Entry(1, "main", a), Entry(2, "main", b));
    TwoEntriesPerform(Entry(1, "main", a), Entry(2, "main", b));
    OrderShows(a, b);
    AgreementIff(Overlap(a, b) + POLL_OF_TWO, "main");
  }
}
