/**
 The replica (internal/replication/replication.go): its cursor, the saved position, and what
 it has applied, as a state machine whose steps are the atomic actions of the poll loop. Time
 of ticks, failures and crashes are left to the order of the events. An event that is not
 possible in a state changes nothing.
 */
module ReplicaMachine {
  import opened Executor
  import opened ReplicationLog

  const PAGE := 500

  /** One process lifetime: the position it started from and the last entry it has executed. */
  datatype Life = Life(start: int, frontier: int)

  datatype Replica<S> = Replica(
    databases: map<string, S>,
    cursor: int,             // lastID, in memory
    saved: int,              // last_applied_id, on disk
    page: seq<Entry>,        // entries of the current batch that the cursor has not passed
    batch: nat,              // size of the current batch; 0 between polls
    executed: bool,          // page[0] has been executed but the cursor has not moved yet
    applied: seq<Entry>,     // history: every execution of an entry, over all lifetimes
    lives: seq<Life>,        // history: the lifetimes, the current one last
    unsaved: nat)            // history: batches since the last save that ended without saving

  function Fresh<S>(): Replica<S> {
    Replica(map[], 0, 0, [], 0, false, [], [Life(0, 0)], 0)
  }

  datatype Event = Poll | Execute | Advance | OpenFails | Save | SaveFails | Crash

  /** The current lifetime has come as far as `frontier`. */
  function Move(lives: seq<Life>, frontier: int): (r: seq<Life>)
    ensures |r| == |lives|
  {
    if lives == [] then [] else lives[|lives| - 1 := lives[|lives| - 1].(frontier := frontier)]
  }

  function ReplicaNext<S>(e: Engine<S>, log: seq<Entry>, r: Replica<S>, ev: Event): (r': Replica<S>)
    ensures r.lives != [] ==> r'.lives != []
  {
    match ev
    case Poll =>
      var p := Page(log, r.cursor, PAGE);
      if r.batch == 0 && p != [] then r.(page := p, batch := |p|) else r
    case Execute =>
      if r.page != [] && !r.executed then
        var x := r.page[0];
        r.(databases := r.databases[x.database := Effect(e, Find(r.databases, x.database, e.empty), Plain(x.query))],
           executed := true,
           applied := r.applied + [x],
           lives := Move(r.lives, x.id))
      else r
    case Advance =>
      if r.page != [] && r.executed then r.(cursor := r.page[0].id, page := r.page[1..], executed := false) else r
    case OpenFails =>
      if r.page != [] && !r.executed then r.(page := [], batch := 0, unsaved := r.unsaved + 1) else r
    case Save =>
      if r.batch > 0 && r.page == [] then r.(saved := r.cursor, batch := 0, unsaved := 0) else r
    case SaveFails =>
      if r.batch > 0 && r.page == [] then r.(batch := 0, unsaved := r.unsaved + 1) else r
    case Crash =>
      r.(cursor := r.saved, page := [], batch := 0, executed := false, unsaved := 0,
         lives := r.lives + [Life(r.saved, r.saved)])
  }

  /** The entries that the given lifetimes have applied, lifetime after lifetime. */
  function AppliedBy(log: seq<Entry>, lives: seq<Life>): seq<Entry> {
    if lives == [] then []
    else
      var l := lives[|lives| - 1];
      AppliedBy(log, lives[..|lives| - 1]) + Between(log, l.start, l.frontier)
  }

  function Frontier<S>(r: Replica<S>): int {
    if r.executed && r.page != [] then r.page[0].id else r.cursor
  }

  ghost predicate PageOk<S>(log: seq<Entry>, r: Replica<S>) {
    && |r.page| <= r.batch <= PAGE
    && (r.executed ==> r.page != [])
    && r.cursor <= LastID(log)
    && var k := Rank(log, r.cursor);
       k + |r.page| <= |log| && r.page == log[k..k + |r.page|]
  }

  /** Each lifetime starts inside what the one before it has executed, and no earlier than it did. */
  ghost predicate Chained(lives: seq<Life>) {
    && lives != []
    && var n := |lives| - 1;
       && lives[n].start <= lives[n].frontier
       && if n == 0 then lives[n].start == 0
          else Chained(lives[..n]) && lives[n - 1].start <= lives[n].start <= lives[n - 1].frontier
  }

  /** No lifetime has come beyond `hi`. */
  ghost predicate UpTo(lives: seq<Life>, hi: int) {
    lives == [] || (UpTo(lives[..|lives| - 1], hi) && lives[|lives| - 1].frontier <= hi)
  }

  ghost predicate HistoryOk<S>(log: seq<Entry>, r: Replica<S>) {
    && Chained(r.lives)
    && UpTo(r.lives, LastID(log))
    && r.applied == AppliedBy(log, r.lives)
    && r.lives[|r.lives| - 1].start <= r.saved <= r.cursor <= Frontier(r)
    && Frontier(r) == r.lives[|r.lives| - 1].frontier
  }

  /** What a crash now would have applied twice, against the batches that were not saved. */
  ghost predicate BudgetOk<S>(log: seq<Entry>, r: Replica<S>) {
    Rank(log, Frontier(r)) - Rank(log, r.saved)
      <= PAGE * r.unsaved + r.batch - |r.page| + if r.executed then 1 else 0
  }

  /** Every database is what replaying its applied texts gives. */
  ghost predicate DatabasesOk<S(!new)>(e: Engine<S>, r: Replica<S>) {
    forall n :: Find(r.databases, n, e.empty) == Replay(e, e.empty, TextsFor(r.applied, n))
  }

  ghost predicate Inv<S(!new)>(e: Engine<S>, log: seq<Entry>, r: Replica<S>) {
    && Ascending(log)
    && PageOk(log, r)
    && HistoryOk(log, r)
    && BudgetOk(log, r)
    && DatabasesOk(e, r)
  }

  lemma FreshHistory()
    ensures AppliedBy([], [Life(0, 0)]) == []
  {
    AppliedLast([], [], Life(0, 0));
    assert [] + [Life(0, 0)] == [Life(0, 0)];
  }

  lemma InvFresh<S(!new)>(e: Engine<S>)
    ensures Inv(e, [], Fresh<S>())
  {
    FreshHistory();
    assert HistoryOk([], Fresh<S>());
  }

  /** While the cursor stands before page[0], that entry is the next one of the log. */
  lemma HeadOfPage<S>(log: seq<Entry>, r: Replica<S>)
    requires Ascending(log) && PageOk(log, r) && r.page != []
    ensures Rank(log, r.page[0].id) == Rank(log, r.cursor) + 1
    ensures r.cursor < r.page[0].id <= LastID(log)
  {
    var k := Rank(log, r.cursor);
    assert r.page[0] == log[k];
    RankOfEntry(log, k);
    RankSeparates(log, r.cursor);
  }

  /** One more entry in a range. */
  lemma RangeNext(log: seq<Entry>, lo: int, hi: int, x: Entry)
    requires Ascending(log) && lo <= hi < x.id
    requires Rank(log, x.id) == Rank(log, hi) + 1 && log[Rank(log, x.id) - 1] == x
    ensures Between(log, lo, x.id) == Between(log, lo, hi) + [x]
  {
    BetweenIsSlice(log, lo, hi);
    BetweenIsSlice(log, lo, x.id);
  }

  lemma AppliedLast(log: seq<Entry>, before: seq<Life>, l: Life)
    ensures AppliedBy(log, before + [l]) == AppliedBy(log, before) + Between(log, l.start, l.frontier)
  {
    assert (before + [l])[..|before|] == before;
  }

  lemma AppliedNext(log: seq<Entry>, lives: seq<Life>, x: Entry)
    requires Ascending(log) && lives != [] && lives[|lives| - 1].start <= lives[|lives| - 1].frontier < x.id
    requires Rank(log, x.id) == Rank(log, lives[|lives| - 1].frontier) + 1 && log[Rank(log, x.id) - 1] == x
    ensures AppliedBy(log, Move(lives, x.id)) == AppliedBy(log, lives) + [x]
  {
    var n := |lives| - 1;
    var before, l := lives[..n], lives[n];
    assert lives == before + [l];
    MoveLast(before, l, x.id);
    RangeNext(log, l.start, l.frontier, x);
    AppliedLast(log, before, l);
    AppliedLast(log, before, l.(frontier := x.id));
  }

  lemma MoveLast(before: seq<Life>, l: Life, frontier: int)
    ensures Move(before + [l], frontier) == before + [l.(frontier := frontier)]
  {
  }

  lemma ChainedLast(before: seq<Life>, l: Life)
    ensures Chained(before + [l]) <==>
      && l.start <= l.frontier
      && if before == [] then l.start == 0
         else Chained(before) && before[|before| - 1].start <= l.start <= before[|before| - 1].frontier
    ensures forall hi :: UpTo(before + [l], hi) <==> UpTo(before, hi) && l.frontier <= hi
  {
    assert (before + [l])[..|before|] == before;
  }

  lemma ChainedMove(lives: seq<Life>, frontier: int, hi: int)
    requires Chained(lives) && UpTo(lives, hi) && lives[|lives| - 1].frontier <= frontier <= hi
    ensures Chained(Move(lives, frontier)) && UpTo(Move(lives, frontier), hi)
  {
    var before, l := lives[..|lives| - 1], lives[|lives| - 1];
    assert lives == before + [l];
    MoveLast(before, l, frontier);
    ChainedLast(before, l);
    ChainedLast(before, l.(frontier := frontier));
  }

  lemma {:induction false} UpToMore(lives: seq<Life>, lo: int, hi: int)
    requires UpTo(lives, lo) && lo <= hi
    ensures UpTo(lives, hi)
  {
    if lives != [] { UpToMore(lives[..|lives| - 1], lo, hi); }
  }

  lemma ExecuteKeepsHistory<S(!new)>(e: Engine<S>, log: seq<Entry>, r: Replica<S>, r': Replica<S>)
    requires Ascending(log) && PageOk(log, r) && HistoryOk(log, r) && r.page != [] && !r.executed
    requires r' == ReplicaNext(e, log, r, Execute)
    ensures HistoryOk(log, r')
  {
    HeadOfPage(log, r);
    AppliedNext(log, r.lives, r.page[0]);
    ChainedMove(r.lives, r.page[0].id, LastID(log));
  }

  lemma ExecuteDatabase<S(!new)>(e: Engine<S>, log: seq<Entry>, r: Replica<S>, n: string)
    requires r.lives != [] && r.page != [] && !r.executed
    requires Find(r.databases, n, e.empty) == Replay(e, e.empty, TextsFor(r.applied, n))
    ensures var r' := ReplicaNext(e, log, r, Execute);
            Find(r'.databases, n, e.empty) == Replay(e, e.empty, TextsFor(r'.applied, n))
  {
    var x := r.page[0];
    TextsForAppend(r.applied, x, n);
    var texts := TextsFor(r.applied, n);
    assert (texts + [x.query])[..|texts|] == texts;
    assert texts + [] == texts;
  }

  lemma ExecuteKeeps<S(!new)>(e: Engine<S>, log: seq<Entry>, r: Replica<S>)
    requires Inv(e, log, r) && r.page != [] && !r.executed
    ensures Inv(e, log, ReplicaNext(e, log, r, Execute))
  {
    HeadOfPage(log, r);
    ExecuteKeepsHistory(e, log, r, ReplicaNext(e, log, r, Execute));
    var r' := ReplicaNext(e, log, r, Execute);
    forall n ensures Find(r'.databases, n, e.empty) == Replay(e, e.empty, TextsFor(r'.applied, n)) {
      ExecuteDatabase(e, log, r, n);
    }
  }

  lemma AdvancePage<S>(e: Engine<S>, log: seq<Entry>, r: Replica<S>, r': Replica<S>)
    requires Ascending(log) && PageOk(log, r) && r.page != [] && r.executed && r' == ReplicaNext(e, log, r, Advance)
    ensures PageOk(log, r') && Rank(log, r'.cursor) == Rank(log, r.cursor) + 1
  {
    HeadOfPage(log, r);
    var k := Rank(log, r.cursor);
    assert r.page[1..] == log[k + 1..k + |r.page|];
  }

  lemma SameDatabases<S(!new)>(e: Engine<S>, r: Replica<S>, r': Replica<S>)
    requires DatabasesOk(e, r) && r'.databases == r.databases && r'.applied == r.applied
    ensures DatabasesOk(e, r')
  {
  }

  lemma SameHistory<S>(log: seq<Entry>, r: Replica<S>, r': Replica<S>)
    requires HistoryOk(log, r) && r'.lives == r.lives && r'.applied == r.applied && Frontier(r') == Frontier(r)
    requires r.lives[|r.lives| - 1].start <= r'.saved <= r'.cursor <= Frontier(r')
    ensures HistoryOk(log, r')
  {
  }

  lemma AdvanceKeeps<S(!new)>(e: Engine<S>, log: seq<Entry>, r: Replica<S>, r': Replica<S>)
    requires Inv(e, log, r) && r.page != [] && r.executed && r' == ReplicaNext(e, log, r, Advance)
    ensures Inv(e, log, r')
  {
    HeadOfPage(log, r);
    AdvancePage(e, log, r, r');
    SameHistory(log, r, r');
    SameDatabases(e, r, r');
  }

  lemma ChainedRestart(lives: seq<Life>, start: int, hi: int)
    requires Chained(lives) && UpTo(lives, hi) && lives[|lives| - 1].start <= start <= lives[|lives| - 1].frontier
    ensures Chained(lives + [Life(start, start)]) && UpTo(lives + [Life(start, start)], hi)
  {
    ChainedLast(lives, Life(start, start));
  }

  lemma AppliedRestart(log: seq<Entry>, lives: seq<Life>, start: int)
    ensures AppliedBy(log, lives + [Life(start, start)]) == AppliedBy(log, lives)
  {
    BetweenEmpty(log, start, start);
    AppliedLast(log, lives, Life(start, start));
    assert AppliedBy(log, lives) + [] == AppliedBy(log, lives);
  }

  lemma CrashKeepsHistory<S(!new)>(e: Engine<S>, log: seq<Entry>, r: Replica<S>, r': Replica<S>)
    requires HistoryOk(log, r) && r.cursor <= LastID(log) && r' == ReplicaNext(e, log, r, Crash)
    ensures HistoryOk(log, r')
  {
    ChainedRestart(r.lives, r.saved, LastID(log));
    AppliedRestart(log, r.lives, r.saved);
  }

  lemma CrashKeeps<S(!new)>(e: Engine<S>, log: seq<Entry>, r: Replica<S>)
    requires Inv(e, log, r)
    ensures Inv(e, log, ReplicaNext(e, log, r, Crash))
  {
    CrashKeepsHistory(e, log, r, ReplicaNext(e, log, r, Crash));
  }

  lemma SaveKeeps<S(!new)>(e: Engine<S>, log: seq<Entry>, r: Replica<S>, r': Replica<S>)
    requires Inv(e, log, r) && r.batch > 0 && r.page == [] && r' == ReplicaNext(e, log, r, Save)
    ensures Inv(e, log, r')
  {
    SameHistory(log, r, r');
    SameDatabases(e, r, r');
    assert PageOk(log, r') && BudgetOk(log, r');
  }

  lemma GiveUpKeeps<S(!new)>(e: Engine<S>, log: seq<Entry>, r: Replica<S>, r': Replica<S>)
    requires Inv(e, log, r) && !r.executed && r' == r.(page := [], batch := 0, unsaved := r.unsaved + 1)
    ensures Inv(e, log, r')
  {
    SameHistory(log, r, r');
    SameDatabases(e, r, r');
    assert PageOk(log, r') && BudgetOk(log, r');
  }

  /** Every event keeps the invariant. */
  lemma InvStep<S(!new)>(e: Engine<S>, log: seq<Entry>, r: Replica<S>, ev: Event)
    requires Inv(e, log, r)
    ensures Inv(e, log, ReplicaNext(e, log, r, ev))
  {
    var r' := ReplicaNext(e, log, r, ev);
    match ev
    case Poll => PageIsSlice(log, r.cursor, PAGE);
    case Execute => if r.page != [] && !r.executed { ExecuteKeeps(e, log, r); }
    case Advance => if r.page != [] && r.executed { AdvanceKeeps(e, log, r, r'); }
    case Crash => CrashKeeps(e, log, r);
    case OpenFails => if r.page != [] && !r.executed { GiveUpKeeps(e, log, r, r'); }
    case Save => if r.batch > 0 && r.page == [] { SaveKeeps(e, log, r, r'); }
    case SaveFails => if r.batch > 0 && r.page == [] { GiveUpKeeps(e, log, r, r'); }
  }

  lemma {:induction false} AppliedByAppend(log: seq<Entry>, x: Entry, lives: seq<Life>)
    requires UpTo(lives, x.id - 1)
    ensures AppliedBy(log + [x], lives) == AppliedBy(log, lives)
  {
    if lives != [] {
      var l := lives[|lives| - 1];
      AppliedByAppend(log, x, lives[..|lives| - 1]);
      BetweenNext(log, x, l.start, l.frontier);
      assert Between(log, l.start, l.frontier) + [] == Between(log, l.start, l.frontier);
    }
  }

  lemma PageAppend<S>(log: seq<Entry>, r: Replica<S>, x: Entry)
    requires Ascending(log) && PageOk(log, r) && LastID(log) < x.id
    ensures PageOk(log + [x], r)
  {
    RankAppend(log, x, r.cursor);
    var k := Rank(log, r.cursor);
    assert (log + [x])[k..k + |r.page|] == log[k..k + |r.page|];
  }

  lemma BudgetAppend<S>(log: seq<Entry>, r: Replica<S>, x: Entry)
    requires Ascending(log) && PageOk(log, r) && BudgetOk(log, r) && r.saved <= r.cursor && LastID(log) < x.id
    ensures BudgetOk(log + [x], r)
  {
    if r.page != [] { HeadOfPage(log, r); }
    RankAppend(log, x, r.saved);
    RankAppend(log, x, Frontier(r));
  }

  /** The primary's log may grow at any moment, even in the middle of a batch. */
  lemma InvAppend<S(!new)>(e: Engine<S>, log: seq<Entry>, r: Replica<S>, x: Entry)
    requires Inv(e, log, r) && LastID(log) < x.id && 0 < x.id
    ensures Inv(e, log + [x], r)
  {
    AscendingAppend(log, x);
    PageAppend(log, r, x);
    BudgetAppend(log, r, x);
    UpToMore(r.lives, LastID(log), x.id - 1);
    UpToMore(r.lives, LastID(log), x.id);
    AppliedByAppend(log, x, r.lives);
  }

  lemma SavedStep<S(!new)>(e: Engine<S>, log: seq<Entry>, r: Replica<S>, ev: Event)
    requires Inv(e, log, r)
    ensures 0 <= r.saved <= ReplicaNext(e, log, r, ev).saved
  {
    ChainedFromZero(r.lives);
  }

  lemma {:induction false} ChainedFromZero(lives: seq<Life>)
    requires Chained(lives)
    ensures 0 <= lives[|lives| - 1].start
  {
    if |lives| > 1 { ChainedFromZero(lives[..|lives| - 1]); }
  }

  // ---------------------------------------------------------------- whole runs

  datatype Step = Appended(gap: nat, database: string, query: string) | Did(event: Event)

  datatype World<S> = World(log: seq<Entry>, replica: Replica<S>)

  function Act<S>(e: Engine<S>, w: World<S>, step: Step): World<S>
    requires w.replica.lives != []
  {
    match step
    case Appended(gap, database, query) =>
      w.(log := w.log + [Entry(LastID(w.log) + 1 + gap, database, query)])
    case Did(ev) =>
      w.(replica := ReplicaNext(e, w.log, w.replica, ev))
  }

  /** A run from an empty log and a fresh replica. Identifiers grow, not necessarily by one. */
  function RunWorld<S>(e: Engine<S>, steps: seq<Step>): (w: World<S>)
    ensures w.replica.lives != []
  {
    if steps == [] then World([], Fresh())
    else Act(e, RunWorld(e, steps[..|steps| - 1]), steps[|steps| - 1])
  }

  ghost predicate WorldOk<S(!new)>(e: Engine<S>, w: World<S>) {
    Inv(e, w.log, w.replica) && LastID(w.log) >= 0
  }

  lemma AppendStep<S(!new)>(e: Engine<S>, w: World<S>, x: Entry, w': World<S>)
    requires WorldOk(e, w) && LastID(w.log) < x.id && w' == w.(log := w.log + [x])
    ensures WorldOk(e, w')
  {
    InvAppend(e, w.log, w.replica, x);
  }

  lemma EventStep<S(!new)>(e: Engine<S>, w: World<S>, ev: Event, w': World<S>)
    requires WorldOk(e, w) && w' == Act(e, w, Did(ev))
    ensures WorldOk(e, w') && w.replica.saved <= w'.replica.saved
  {
    InvStep(e, w.log, w.replica, ev);
    SavedStep(e, w.log, w.replica, ev);
  }

  lemma WorldStep<S(!new)>(e: Engine<S>, w: World<S>, step: Step, w': World<S>)
    requires WorldOk(e, w) && w' == Act(e, w, step)
    ensures WorldOk(e, w') && w.replica.saved <= w'.replica.saved
  {
    match step
    case Appended(gap, database, query) =>
      AppendStep(e, w, Entry(LastID(w.log) + 1 + gap, database, query), w');
    case Did(ev) =>
      EventStep(e, w, ev, w');
  }

  lemma {:induction false} InvRun<S(!new)>(e: Engine<S>, steps: seq<Step>)
    ensures WorldOk(e, RunWorld(e, steps))
  {
    if steps == [] {
      InvFresh(e);
    } else {
      var init := steps[..|steps| - 1];
      InvRun(e, init);
      WorldStep(e, RunWorld(e, init), steps[|steps| - 1], RunWorld(e, steps));
    }
  }

  lemma {:induction false} AscendingCount(log: seq<Entry>, x: Entry)
    requires Ascending(log)
    ensures multiset(log)[x] == if x in log then 1 else 0
  {
    if log != [] {
      var init, e := log[..|log| - 1], log[|log| - 1];
      AscendingCount(init, x);
      assert log == init + [e];
    }
  }

  lemma MemberNext(s: seq<Entry>, e: Entry, x: Entry)
    ensures x in s + [e] <==> x in s || x == e
  {
  }

  lemma {:induction false} BetweenMembers(log: seq<Entry>, lo: int, hi: int, x: Entry)
    requires Ascending(log)
    ensures x in Between(log, lo, hi) <==> x in log && lo < x.id <= hi
  {
    if log != [] {
      var init, e := log[..|log| - 1], log[|log| - 1];
      assert log == init + [e];
      AscendingFront(init, e);
      BetweenMembers(init, lo, hi, x);
      BetweenNext(init, e, lo, hi);
      MemberNext(init, e, x);
      MemberNext(Between(init, lo, hi), e, x);
    }
  }

  /** `Between` picks exactly the entries of the range, once each. */
  lemma BetweenCounts(log: seq<Entry>, lo: int, hi: int, x: Entry)
    requires Ascending(log)
    ensures multiset(Between(log, lo, hi))[x] == if x in log && lo < x.id <= hi then 1 else 0
  {
    BetweenAscends(log, lo, hi);
    BetweenMembers(log, lo, hi, x);
    AscendingCount(Between(log, lo, hi), x);
  }

  /** ... and in ascending order. */
  lemma BetweenAscends(log: seq<Entry>, lo: int, hi: int)
    requires Ascending(log)
    ensures Ascending(Between(log, lo, hi))
  {
    if lo <= hi {
      BetweenIsSlice(log, lo, hi);
    } else {
      BetweenEmpty(log, lo, hi);
    }
  }

  lemma BetweenEmpty(log: seq<Entry>, lo: int, hi: int)
    requires hi <= lo
    ensures Between(log, lo, hi) == []
  {
  }

  /**
   Cursor safety. In one process lifetime, under any mix of appends, polls and failures,
   what has been applied since the start is exactly the entries with start < id <= frontier,
   in order of id, with no gap and no duplicate; and the saved position lies between the
   start and the cursor.
   */
  lemma CursorSafety<S(!new)>(e: Engine<S>, steps: seq<Step>)
    ensures Safe(RunWorld(e, steps).log, RunWorld(e, steps).replica)
  {
    InvRun(e, steps);
    InvIsSafe(e, RunWorld(e, steps).log, RunWorld(e, steps).replica);
  }

  ghost predicate Safe<S>(log: seq<Entry>, r: Replica<S>) {
    && r.lives != []
    && var life := r.lives[|r.lives| - 1];
       && r.applied == AppliedBy(log, r.lives[..|r.lives| - 1]) + Between(log, life.start, life.frontier)
       && life.start <= r.saved <= r.cursor <= life.frontier
       && (!r.executed ==> life.frontier == r.cursor)
  }

  lemma InvIsSafe<S(!new)>(e: Engine<S>, log: seq<Entry>, r: Replica<S>)
    requires Inv(e, log, r)
    ensures Safe(log, r)
  {
  }

  /** Without a crash there is one lifetime, and what it has applied is all that has been applied. */
  lemma OneLifetimeSafety<S(!new)>(e: Engine<S>, steps: seq<Step>)
    requires Did(Crash) !in steps
    ensures var w := RunWorld(e, steps);
            |w.replica.lives| == 1 && w.replica.applied == Between(w.log, 0, w.replica.lives[0].frontier)
  {
    InvRun(e, steps);
    OneLife(e, steps);
    var w := RunWorld(e, steps);
    AppliedByOne(w.log, w.replica.lives);
  }

  lemma AppliedByOne(log: seq<Entry>, lives: seq<Life>)
    requires |lives| == 1
    ensures AppliedBy(log, lives) == Between(log, lives[0].start, lives[0].frontier)
  {
    assert lives == [] + [lives[0]];
    AppliedLast(log, [], lives[0]);
  }

  lemma {:induction false} OneLife<S>(e: Engine<S>, steps: seq<Step>)
    requires Did(Crash) !in steps
    ensures var r := RunWorld(e, steps).replica; |r.lives| == 1 && r.lives[0].start == 0
  {
    if steps != [] {
      var init, step := steps[..|steps| - 1], steps[|steps| - 1];
      assert step in steps && forall x :: x in init ==> x in steps;
      OneLife(e, init);
      LifeStep(e, RunWorld(e, init), step);
    }
  }

  lemma LifeStep<S>(e: Engine<S>, w: World<S>, step: Step)
    requires w.replica.lives != [] && step != Did(Crash)
    ensures var r, r' := w.replica, Act(e, w, step).replica;
            |r'.lives| == |r.lives| && forall k :: 0 <= k < |r.lives| ==> r'.lives[k].start == r.lives[k].start
  {
  }

  lemma SavedStepOfRun<S(!new)>(e: Engine<S>, steps: seq<Step>, step: Step)
    ensures RunWorld(e, steps).replica.saved <= RunWorld(e, steps + [step]).replica.saved
  {
    assert (steps + [step])[..|steps|] == steps;
    InvRun(e, steps);
    WorldStep(e, RunWorld(e, steps), step, RunWorld(e, steps + [step]));
  }

  /** The saved position never decreases over any run, whatever crashes it contains. */
  lemma {:induction false} SavedNeverDecreases<S(!new)>(e: Engine<S>, steps: seq<Step>, more: seq<Step>)
    ensures RunWorld(e, steps).replica.saved <= RunWorld(e, steps + more).replica.saved
    decreases |more|
  {
    if more == [] {
      assert steps + more == steps;
    } else {
      var more', step := more[..|more| - 1], more[|more| - 1];
      assert steps + more == steps + more' + [step];
      SavedNeverDecreases(e, steps, more');
      SavedStepOfRun(e, steps + more', step);
    }
  }

  /** How many lifetimes have executed the entry with this identifier. */
  function Covering(lives: seq<Life>, id: int): nat {
    if lives == [] then 0
    else
      var l := lives[|lives| - 1];
      Covering(lives[..|lives| - 1], id) + if l.start < id <= l.frontier then 1 else 0
  }

  lemma {:induction false} AppliedByCount(log: seq<Entry>, lives: seq<Life>, x: Entry)
    requires Ascending(log)
    ensures multiset(AppliedBy(log, lives))[x] == if x in log then Covering(lives, x.id) else 0
  {
    if lives != [] {
      var l := lives[|lives| - 1];
      AppliedByCount(log, lives[..|lives| - 1], x);
      BetweenCounts(log, l.start, l.frontier, x);
    }
  }

  lemma {:induction false} ChainCovers(lives: seq<Life>, id: int)
    requires Chained(lives) && 0 < id <= lives[|lives| - 1].frontier
    ensures Covering(lives, id) >= 1
  {
    var n := |lives| - 1;
    if id <= lives[n].start {
      ChainCovers(lives[..n], id);
    }
  }

  /**
   Delivery over any run with any number of crashes: how often each entry of the log has been
   executed is exactly the number of lifetimes whose range covers it, nothing else is ever
   executed, and no entry up to the frontier is skipped.
   */
  lemma DeliveryCount<S(!new)>(e: Engine<S>, steps: seq<Step>, x: Entry)
    ensures Delivered(RunWorld(e, steps).log, RunWorld(e, steps).replica, x)
  {
    InvRun(e, steps);
    HistoryDelivers(RunWorld(e, steps).log, RunWorld(e, steps).replica, x);
  }

  ghost predicate Delivered<S>(log: seq<Entry>, r: Replica<S>, x: Entry) {
    && multiset(r.applied)[x] == (if x in log then Covering(r.lives, x.id) else 0)
    && (x in log && x.id <= Frontier(r) ==> multiset(r.applied)[x] >= 1)
  }

  lemma PositiveIds(log: seq<Entry>, x: Entry)
    requires Ascending(log) && x in log
    ensures x.id > 0
  {
  }

  lemma HistoryDelivers<S>(log: seq<Entry>, r: Replica<S>, x: Entry)
    requires Ascending(log) && HistoryOk(log, r)
    ensures Delivered(log, r, x)
  {
    LivesDeliver(log, r.lives, r.applied, x);
  }

  lemma LivesDeliver(log: seq<Entry>, lives: seq<Life>, applied: seq<Entry>, x: Entry)
    requires Ascending(log) && Chained(lives) && applied == AppliedBy(log, lives)
    ensures multiset(applied)[x] == if x in log then Covering(lives, x.id) else 0
    ensures x in log && x.id <= lives[|lives| - 1].frontier ==> multiset(applied)[x] >= 1
  {
    AppliedByCount(log, lives, x);
    if x in log && x.id <= lives[|lives| - 1].frontier {
      PositiveIds(log, x);
      ChainCovers(lives, x.id);
    }
  }

  /**
   One crash: an entry is executed twice exactly when it lies beyond the position that was
   saved at the crash, up to where both lifetimes have come; every other entry up to the
   further of the two frontiers is executed once.
   */
  lemma OneCrash<S(!new)>(e: Engine<S>, steps: seq<Step>, x: Entry)
    requires |RunWorld(e, steps).replica.lives| == 2
    requires x in RunWorld(e, steps).log
    ensures var r := RunWorld(e, steps).replica;
            var first, second := r.lives[0], r.lives[1];
            && (multiset(r.applied)[x] == 2 <==> second.start < x.id <= first.frontier && x.id <= second.frontier)
            && (multiset(r.applied)[x] == 0 <==> first.frontier < x.id && second.frontier < x.id)
            && multiset(r.applied)[x] <= 2
  {
    InvRun(e, steps);
    DeliveryCount(e, steps, x);
    var w := RunWorld(e, steps);
    var lives := w.replica.lives;
    assert lives[..1][..0] == [];
    assert Covering(lives[..1], x.id) == Covering([], x.id) + if lives[0].start < x.id <= lives[0].frontier then 1 else 0;
    var i :| 0 <= i < |w.log| && w.log[i] == x;
  }

  /** What a crash would execute again, in any state that the invariant allows. */
  lemma UnsavedBound<S(!new)>(e: Engine<S>, log: seq<Entry>, r: Replica<S>)
    requires Inv(e, log, r)
    ensures |Between(log, r.saved, Frontier(r))| <= 500 * (r.unsaved + 1)
  {
    BetweenIsSlice(log, r.saved, Frontier(r));
  }

  /**
   What a crash would have executed again: at most 500 entries for the batch at hand and 500
   for each batch since the last save that ended in an apply or a save failure.
   */
  lemma RedeliveryBound<S(!new)>(e: Engine<S>, steps: seq<Step>)
    ensures var w := RunWorld(e, steps);
            |Between(w.log, w.replica.saved, Frontier(w.replica))| <= 500 * (w.replica.unsaved + 1)
    ensures Did(OpenFails) !in steps && Did(SaveFails) !in steps ==>
              var w := RunWorld(e, steps);
              |Between(w.log, w.replica.saved, Frontier(w.replica))| <= 500
  {
    InvRun(e, steps);
    var w := RunWorld(e, steps);
    UnsavedBound(e, w.log, w.replica);
    if Did(OpenFails) !in steps && Did(SaveFails) !in steps {
      NoFailureNoUnsaved(e, steps);
    }
  }

  lemma {:induction false} NoFailureNoUnsaved<S>(e: Engine<S>, steps: seq<Step>)
    requires Did(OpenFails) !in steps && Did(SaveFails) !in steps
    ensures RunWorld(e, steps).replica.unsaved == 0
  {
    if steps != [] {
      NoFailureNoUnsaved(e, steps[..|steps| - 1]);
    }
  }

}
