/**
 The replica's poll, in the imperative form it has in internal/replication/replication.go,
 proved against the state machine of module ReplicaMachine.
 */
module PollLoop {
  import opened Executor
  import opened ReplicationLog
  import opened ReplicaMachine
  import opened PollFaults
  import opened Wrappers

  /** Several events in a row against a log that does not grow. */
  function Events<S>(e: Engine<S>, log: seq<Entry>, r: Replica<S>, evs: seq<Event>): (r': Replica<S>)
    requires r.lives != []
    ensures r'.lives != []
  {
    if evs == [] then r
    else ReplicaNext(e, log, Events(e, log, r, evs[..|evs| - 1]), evs[|evs| - 1])
  }

  lemma EventsNext<S>(e: Engine<S>, log: seq<Entry>, r: Replica<S>, evs: seq<Event>, ev: Event)
    requires r.lives != []
    ensures Events(e, log, r, evs + [ev]) == ReplicaNext(e, log, Events(e, log, r, evs), ev)
  {
    assert (evs + [ev])[..|evs|] == evs;
  }

  lemma {:induction false} EventsAppend<S>(e: Engine<S>, log: seq<Entry>, r: Replica<S>, a: seq<Event>, b: seq<Event>)
    requires r.lives != []
    ensures Events(e, log, r, a + b) == Events(e, log, Events(e, log, r, a), b)
    decreases |b|
  {
    if b == [] {
      assert a + b == a;
    } else {
      var b', ev := b[..|b| - 1], b[|b| - 1];
      assert a + b == a + b' + [ev];
      EventsAppend(e, log, r, a, b');
      EventsNext(e, log, r, a + b', ev);
    }
  }

  lemma ExecuteFirst<S>(e: Engine<S>, log: seq<Entry>, m: Replica<S>, m': Replica<S>)
    requires m.page != [] && !m.executed && m' == ReplicaNext(e, log, m, Execute)
    ensures var x := m.page[0];
            m' == m.(databases := m.databases[x.database := Effect(e, Find(m.databases, x.database, e.empty), Plain(x.query))],
                     executed := true, applied := m.applied + [x], lives := Move(m.lives, x.id))
  {
  }

  lemma AdvanceFirst<S>(e: Engine<S>, log: seq<Entry>, m: Replica<S>, m': Replica<S>)
    requires m.page != [] && m.executed && m' == ReplicaNext(e, log, m, Advance)
    ensures m' == m.(cursor := m.page[0].id, page := m.page[1..], executed := false)
  {
  }

  /** An entry that is executed and passed by the cursor. */
  lemma EntryApplied<S>(e: Engine<S>, log: seq<Entry>, m: Replica<S>, m': Replica<S>)
    requires m.lives != [] && m.page != [] && !m.executed
    requires var x := m.page[0];
             m' == m.(databases := m.databases[x.database := Effect(e, Find(m.databases, x.database, e.empty), Plain(x.query))],
                      cursor := x.id, page := m.page[1..], applied := m.applied + [x], lives := Move(m.lives, x.id))
    ensures Events(e, log, m, [Execute, Advance]) == m'
  {
    var m1 := ReplicaNext(e, log, m, Execute);
    ExecuteFirst(e, log, m, m1);
    AdvanceFirst(e, log, m1, ReplicaNext(e, log, m1, Advance));
    TwoInARow(e, log, m, Execute, Advance);
  }

  lemma TwoInARow<S>(e: Engine<S>, log: seq<Entry>, m: Replica<S>, a: Event, b: Event)
    requires m.lives != []
    ensures Events(e, log, m, [a, b]) == ReplicaNext(e, log, ReplicaNext(e, log, m, a), b)
    ensures Events(e, log, m, [a]) == ReplicaNext(e, log, m, a)
  {
    EventsNext(e, log, m, [], a);
    EventsNext(e, log, m, [a], b);
    assert [] + [a] == [a] && [a] + [b] == [a, b];
  }

  class ReplicaEngine<S(!new)> {
    const executor: Executor<S>
    const systemDB: SystemDB
    var lastID: int
    ghost var applied: seq<Entry>
    ghost var lives: seq<Life>
    ghost var unsaved: nat

    constructor (executor: Executor<S>, systemDB: SystemDB)
      ensures this.executor == executor && this.systemDB == systemDB
      ensures Valid() && applied == [] && lives == [Life(lastID, lastID)] && unsaved == 0
      ensures lastID == systemDB.SavedPosition()
    {
      this.executor, this.systemDB := executor, systemDB;
      var start := systemDB.SavedPosition();
      lastID, applied, lives, unsaved := start, [], [Life(start, start)], 0;
    }

    ghost predicate Valid()
      reads this
    {
      lives != []
    }

    /** This replica, in the middle of a batch. */
    ghost function Mid(page: seq<Entry>, batch: nat): Replica<S>
      requires Valid()
      reads this, executor, systemDB
    {
      Replica(executor.databases, lastID, systemDB.SavedPosition(), page, batch, false,
              applied, lives, unsaved)
    }

    /** This replica, between polls. */
    ghost function View(): Replica<S>
      requires Valid()
      reads this, executor, systemDB
    {
      Mid([], 0)
    }

    /** A new process takes up the position that was saved; what it was doing is forgotten. */
    method Start(fault: Option<string>) returns (running: bool)
      requires Valid()
      modifies this
      ensures Valid() && (running <==> fault.None?)
      ensures lastID == if running then systemDB.SavedPosition() else old(lastID)
      ensures running ==> forall log :: View() == ReplicaNext(executor.engine, log, old(View()), Crash)
    {
      var state := systemDB.GetReplicationState(fault);
      if state.Err? {
        return false;
      }
      lastID := state.value.lastAppliedID;
      lives := lives + [Life(lastID, lastID)];
      unsaved := 0;
      running := true;
    }

    method ApplyEntry(entry: Entry, open: Option<string>) returns (ok: bool)
      modifies executor
      ensures ok <==> open.None?
      ensures !ok ==> executor.databases == old(executor.databases)
      ensures ok ==>
        var before := Find(old(executor.databases), entry.database, executor.engine.empty);
        executor.databases
        == old(executor.databases)[entry.database := Effect(executor.engine, before, Plain(entry.query))]
    {
      var r := executor.ExecuteContext(entry.database, entry.query, [], open);
      ok := r.Ok?;
    }

    /** The first entry of the page: executed and passed, or left with the rest of the batch. */
    method ApplyNext(ghost log: seq<Entry>, ghost page: seq<Entry>, ghost batch: nat, entry: Entry, open: Option<string>)
        returns (ok: bool, ghost evs: seq<Event>)
      requires Valid() && page != [] && page[0] == entry
      modifies this, executor
      ensures Valid() && Crash !in evs && (ok <==> open.None?)
      ensures (if ok then Mid(page[1..], batch) else View()) == Events(executor.engine, log, old(Mid(page, batch)), evs)
      ensures Executes(executor.engine, old(View()), View(), if ok then [entry] else [])
    {
      ghost var start, before := Mid(page, batch), View();
      ok := ApplyEntry(entry, open);
      if ok {
        evs := [Execute, Advance];
        applied, lives := applied + [entry], Move(lives, entry.id);
        lastID := entry.id;
        EntryApplied(executor.engine, log, start, Mid(page[1..], batch));
        ExecutesOne(executor.engine, before, View(), entry);
      } else {
        evs := [OpenFails];
        unsaved := unsaved + 1;
        TwoInARow(executor.engine, log, start, OpenFails, OpenFails);
        ExecutesNone(executor.engine, before, View());
      }
    }

    /**
     The loop over the entries of one answer. It executes those before the first that cannot be
     opened, each on its database, passes them with the cursor, and stops there.
     */
    method ApplyBatch(ghost log: seq<Entry>, entries: seq<Entry>, env: Env) returns (ok: bool, ghost evs: seq<Event>)
      requires Valid() && entries != []
      modifies this, executor
      ensures Valid() && Crash !in evs
      ensures (if ok then Mid([], |entries|) else View())
           == Events(executor.engine, log, old(Mid(entries, |entries|)), evs)
      ensures Executes(executor.engine, old(View()), View(), entries[..Opened(entries, env)])
      ensures ok <==> Opened(entries, env) == |entries|
    {
      evs, ok := [], true;
      ghost var start, before := Mid(entries, |entries|), View();
      CutsAt(entries, 0);
      ExecutesNone(executor.engine, before, View());
      for i := 0 to |entries|
        invariant Valid() && Crash !in evs && ok
        invariant Mid(entries[i..], |entries|) == Events(executor.engine, log, start, evs)
        invariant Executes(executor.engine, before, View(), entries[..i])
        invariant forall j :: 0 <= j < i ==> env.open(entries[j].id).None?
      {
        ghost var more, between := [], View();
        CutsAt(entries, i);
        ok, more := ApplyNext(log, entries[i..], |entries|, entries[i], env.open(entries[i].id));
        EventsAppend(executor.engine, log, start, evs, more);
        evs := evs + more;
        ExecutesThen(executor.engine, before, between, View(), entries[..i], if ok then [entries[i]] else []);
        if !ok {
          OpenedIs(entries, env, i);
          assert entries[..i] + [] == entries[..i];
          return;
        }
      }
      OpenedIs(entries, env, |entries|);
    }

    /** Saving the position after a batch; it comes to nothing if there is no row to update. */
    method SavePosition(ghost log: seq<Entry>, fault: Option<string>, ghost batch: nat) returns (ghost ev: Event)
      requires Valid() && batch > 0
      modifies this`unsaved, systemDB`state
      ensures Valid() && ev != Crash
      ensures View() == ReplicaNext(executor.engine, log, old(Mid([], batch)), ev)
      ensures systemDB.state.Some? == old(systemDB.state.Some?)
      ensures systemDB.SavedPosition()
           == if fault.None? && systemDB.state.Some? then lastID else old(systemDB.SavedPosition())
    {
      var ok := systemDB.UpdateReplicationAppliedID(lastID, fault);
      ev := if ok && systemDB.state.Some? then Save else SaveFails;
      unsaved := if ok && systemDB.state.Some? then 0 else unsaved + 1;
    }

    /** A batch that has arrived: apply it, and save the position if all of it was applied. */
    method TakeBatch(ghost log: seq<Entry>, entries: seq<Entry>, env: Env) returns (done: bool, ghost evs: seq<Event>)
      requires Valid() && entries != []
      modifies this, executor, systemDB`state
      ensures Valid() && Crash !in evs
      ensures View() == Events(executor.engine, log, old(Mid(entries, |entries|)), evs)
      ensures systemDB.state.Some? == old(systemDB.state.Some?)
      ensures BatchTaken(executor.engine, old(View()), View(), entries, env, systemDB.state.Some?)
      ensures done <==> Opened(entries, env) == |entries|
    {
      ghost var e, start, before := executor.engine, Mid(entries, |entries|), View();
      done, evs := ApplyBatch(log, entries, env);
      if done {
        ghost var between := View();
        ghost var ev := SavePosition(log, env.save(lastID), |entries|);
        EventsNext(e, log, start, evs, ev);
        evs := evs + [ev];
        ExecutesStill(e, before, between, View(), entries[..|entries|]);
      }
    }

    /**
     One request and the batch it brings; `full` says whether to ask again at once. That is so
     after a full page that was applied to its end, whether or not its position could be saved.
     */
    method PollPage(primary: SystemDB, env: Env) returns (full: bool, ghost evs: seq<Event>)
      requires Valid() && primary.Valid() && primary != systemDB
      modifies this, executor, systemDB`state
      ensures Valid() && Crash !in evs
      ensures View() == Events(executor.engine, primary.log, old(View()), evs)
      ensures systemDB.state.Some? == old(systemDB.state.Some?)
      ensures PagePolled(executor.engine, old(View()), View(), Page(primary.log, old(lastID), 500), env, systemDB.state.Some?)
      ensures var page := Page(primary.log, old(lastID), 500);
              full <==> |page| == 500 && PagePasses(page, env, old(lastID))
    {
      evs, full := [], false;
      ghost var e, log, before := executor.engine, primary.log, View();
      ExecutesNone(e, before, before);
      if env.request(lastID).Some? {
        return;
      }
      PageIsSlice(primary.log, lastID, PAGE);
      var answer := primary.HandleReplicationLog(true, Some(Ok(lastID)), Some(Ok(PAGE)), None);
      var entries := answer.value;
      if entries == [] {
        return;
      }
      TwoInARow(e, log, before, Poll, Poll);
      var done;
      ghost var more;
      done, more := TakeBatch(log, entries, env);
      EventsAppend(e, log, before, [Poll], more);
      evs := [Poll] + more;
      full := done && |entries| >= PAGE;
    }

    /**
     One poll, with its recursion while full pages come back. Against a log that does not
     grow it terminates, because every recursive call sees fewer entries above the cursor.
     Whatever fails, it is a run of the state machine without a crash, and what it achieves is
     that of a single scan.
     */
    method PollOnce(primary: SystemDB, env: Env) returns (ghost evs: seq<Event>)
      requires Valid() && primary.Valid() && primary != systemDB
      modifies this, executor, systemDB`state
      ensures Valid() && Crash !in evs
      ensures View() == Events(executor.engine, primary.log, old(View()), evs)
      ensures systemDB.state.Some? == old(systemDB.state.Some?)
      ensures Polled(executor.engine, old(View()), View(), After(primary.log, old(lastID)), env, systemDB.state.Some?)
      ensures Quiet(env) ==> CaughtUp(old(View()), View(), After(primary.log, old(lastID)), systemDB.state.Some?)
      decreases |After(primary.log, lastID)|
    {
      ghost var e, log, before, since := executor.engine, primary.log, View(), lastID;
      ghost var page := Page(log, since, 500);
      var full;
      full, evs := PollPage(primary, env);
      PageThenRest(log, since);
      ghost var between := View();
      if full {
        ghost var more := PollOnce(primary, env);
        EventsAppend(e, log, before, evs, more);
        evs := evs + more;
        PollGoesOn(e, before, between, View(), page, After(log, between.cursor), env, systemDB.state.Some?);
      } else {
        PollStops(e, before, between, log, page, env, systemDB.state.Some?);
      }
      PollIsQuiet(e, before, View(), After(log, since), env, systemDB.state.Some?);
    }
  }

  lemma PollStops<S(!new)>(e: Engine<S>, r: Replica<S>, r': Replica<S>, log: seq<Entry>, page: seq<Entry>, env: Env, stored: bool)
    requires Ascending(log) && page == Page(log, r.cursor, 500)
    requires PagePolled(e, r, r', page, env, stored) && !(|page| == 500 && PagePasses(page, env, r.cursor))
    ensures Polled(e, r, r', After(log, r.cursor), env, stored)
  {
    PageThenRest(log, r.cursor);
    PageIsSlice(log, r.cursor, 500);
    var rest := if |page| < 500 then [] else After(log, page[|page| - 1].id);
    assert |page| < 500 ==> page + rest == page;
    PollEnds(e, r, r', page, rest, env, stored);
  }

  lemma CutsAt(s: seq<Entry>, i: nat)
    requires i <= |s|
    ensures i == 0 ==> s[i..] == s && s[..i] == []
    ensures i == |s| ==> s[i..] == [] && s[..i] == s
    ensures i < |s| ==> s[i..] != [] && s[i..][0] == s[i] && s[i..][1..] == s[i + 1..] && s[..i + 1] == s[..i] + [s[i]]
  {
  }

  /** A full page leaves fewer entries to fetch; a short one leaves none. */
  lemma PageThenRest(log: seq<Entry>, since: int)
    requires Ascending(log)
    ensures var page := Page(log, since, PAGE);
            && (|page| < PAGE ==> After(log, since) == page)
            && (page != [] ==> After(log, since) == page + After(log, page[|page| - 1].id))
  {
    var page := Page(log, since, PAGE);
    var k := Rank(log, since);
    PageIsSlice(log, since, PAGE);
    AfterIsSuffix(log, since);
    if page != [] {
      var x := page[|page| - 1];
      assert x == log[k + |page| - 1];
      RankOfEntry(log, k + |page| - 1);
      AfterIsSuffix(log, x.id);
    }
  }
}
