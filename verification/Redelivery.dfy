/**
 What crashes cost: the entries a replica executes again because they lay beyond the saved
 position when it crashed, and when that makes a difference to its databases.
 */
module Redelivery {
  import opened Text
  import opened Statements
  import opened Executor
  import opened ReplicationLog
  import opened ReplicaMachine
  import opened Wrappers

  /** The entries executed before each crash that lie beyond the position the next lifetime starts from. */
  function Redone(log: seq<Entry>, lives: seq<Life>): seq<Entry> {
    if |lives| <= 1 then []
    else
      var n := |lives| - 1;
      Redone(log, lives[..n]) + Between(log, lives[n].start, lives[n - 1].frontier)
  }

  /** The entries whose statement does something. */
  function Core(entries: seq<Entry>): seq<Entry> {
    if entries == [] then []
    else
      var x := entries[|entries| - 1];
      Core(entries[..|entries| - 1]) + if Blank(x.query) then [] else [x]
  }

  lemma {:induction false} CoreAppend(a: seq<Entry>, b: seq<Entry>)
    ensures Core(a + b) == Core(a) + Core(b)
    decreases |b|
  {
    if b == [] {
      assert a + b == a;
    } else {
      assert (a + b)[..|a + b| - 1] == a + b[..|b| - 1];
      CoreAppend(a, b[..|b| - 1]);
    }
  }

  /** Two neighbouring ranges make one. */
  lemma BetweenSplit(log: seq<Entry>, lo: int, mid: int, hi: int)
    requires Ascending(log) && lo <= mid <= hi
    ensures Between(log, lo, hi) == Between(log, lo, mid) + Between(log, mid, hi)
  {
    BetweenIsSlice(log, lo, hi);
    BetweenIsSlice(log, lo, mid);
    BetweenIsSlice(log, mid, hi);
    SlicesMeet(log, Rank(log, lo), Rank(log, mid), Rank(log, hi));
  }

  lemma SlicesMeet<T>(s: seq<T>, a: nat, b: nat, c: nat)
    requires a <= b <= c <= |s|
    ensures s[a..c] == s[a..b] + s[b..c]
  {
  }

  /** One more lifetime, on the cores: `x` is its range and `y` what it executes again. */
  lemma CoresAdd(a: seq<Entry>, d: seq<Entry>, p: seq<Entry>, x: seq<Entry>, y: seq<Entry>)
    requires |a| == |p + y| + |d|
    ensures |a + x| == |p + x| + |d + y|
    ensures d + y == [] ==> (a == p + y ==> a + x == p + x)
  {
    if d + y == [] {
      assert |y| == |d + y| - |d| == 0;
      assert p + y == p;
    }
  }

  /** The histories with and without the last lifetime. */
  lemma LastLifetime(log: seq<Entry>, lives: seq<Life>)
    requires Ascending(log) && Chained(lives) && |lives| > 1
    ensures var n := |lives| - 1;
            var before, now := lives[n - 1], lives[n];
            && Chained(lives[..n]) && lives[..n][|lives[..n]| - 1] == before
            && AppliedBy(log, lives) == AppliedBy(log, lives[..n]) + Between(log, now.start, now.frontier)
            && Redone(log, lives) == Redone(log, lives[..n]) + Between(log, now.start, before.frontier)
            && Between(log, 0, now.frontier) == Between(log, 0, now.start) + Between(log, now.start, now.frontier)
            && Between(log, 0, before.frontier) == Between(log, 0, now.start) + Between(log, now.start, before.frontier)
  {
    var n := |lives| - 1;
    ChainedFromZero(lives);
    BetweenSplit(log, 0, lives[n].start, lives[n].frontier);
    BetweenSplit(log, 0, lives[n].start, lives[n - 1].frontier);
  }

  lemma OneLifetime(log: seq<Entry>, lives: seq<Life>)
    requires Chained(lives) && |lives| == 1
    ensures AppliedBy(log, lives) == Between(log, 0, lives[0].frontier) && Redone(log, lives) == []
  {
    AppliedByOne(log, lives);
  }

  /** What has been applied, against each entry once and what has been redone. */
  ghost predicate Accounted(applied: seq<Entry>, once: seq<Entry>, redone: seq<Entry>) {
    && |applied| == |once| + |redone|
    && |Core(applied)| == |Core(once)| + |Core(redone)|
    && (Core(applied) == Core(once) <==> Core(redone) == [])
  }

  lemma AccountedNext(a: seq<Entry>, d: seq<Entry>, p: seq<Entry>, x: seq<Entry>, y: seq<Entry>)
    requires Accounted(a, p + y, d)
    ensures Accounted(a + x, p + x, d + y)
  {
    CoreAppend(a, x);
    CoreAppend(p, x);
    CoreAppend(p, y);
    CoreAppend(d, y);
    CoresAdd(a, d, p, x, y);
    CoresAdd(Core(a), Core(d), Core(p), Core(x), Core(y));
  }

  /**
   How much is executed over any number of crashes: one execution per entry up to the frontier,
   and one more for each entry that a crash makes the replica execute again. It amounts to
   each entry once, in order, exactly when nothing that does something was executed beyond
   the saved position at any crash.
   */
  lemma {:induction false} ExecutionsCount(log: seq<Entry>, lives: seq<Life>)
    requires Ascending(log) && Chained(lives)
    ensures Accounted(AppliedBy(log, lives), Between(log, 0, lives[|lives| - 1].frontier), Redone(log, lives))
  {
    var n := |lives| - 1;
    if n == 0 {
      OneLifetime(log, lives);
    } else {
      ExecutionsCount(log, lives[..n]);
      LastLifetime(log, lives);
      AccountedNext(AppliedBy(log, lives[..n]), Redone(log, lives[..n]), Between(log, 0, lives[n].start),
                    Between(log, lives[n].start, lives[n].frontier), Between(log, lives[n].start, lives[n - 1].frontier));
    }
  }

  // ------------------------------------------------- how much is redone

  /** How many of the steps are crashes, and how many are failures to apply or to save. */
  function Crashes(steps: seq<Step>): nat {
    if steps == [] then 0
    else Crashes(steps[..|steps| - 1]) + if steps[|steps| - 1] == Did(Crash) then 1 else 0
  }

  function Failures(steps: seq<Step>): nat {
    if steps == [] then 0
    else Failures(steps[..|steps| - 1]) + if steps[|steps| - 1] in {Did(OpenFails), Did(SaveFails)} then 1 else 0
  }

  lemma RedoneLast(log: seq<Entry>, lives: seq<Life>, l: Life)
    requires lives != []
    ensures Redone(log, lives + [l]) == Redone(log, lives) + Between(log, l.start, lives[|lives| - 1].frontier)
  {
    assert (lives + [l])[..|lives|] == lives;
  }

  /** The frontier of the current lifetime has no part in what has been redone. */
  lemma RedoneMove(log: seq<Entry>, lives: seq<Life>, frontier: int)
    ensures Redone(log, Move(lives, frontier)) == Redone(log, lives)
  {
    if |lives| > 1 {
      assert Move(lives, frontier)[..|lives| - 1] == lives[..|lives| - 1];
    }
  }

  lemma {:induction false} RedoneAppend(log: seq<Entry>, x: Entry, lives: seq<Life>)
    requires UpTo(lives, x.id - 1)
    ensures Redone(log + [x], lives) == Redone(log, lives)
  {
    if |lives| > 1 {
      var n := |lives| - 1;
      RedoneAppend(log, x, lives[..n]);
      BetweenNext(log, x, lives[n].start, lives[n - 1].frontier);
      assert Between(log, lives[n].start, lives[n - 1].frontier) + [] == Between(log, lives[n].start, lives[n - 1].frontier);
    }
  }

  /** What has been redone, and what the failures since the last save allow, stays within a budget. */
  ghost predicate WithinBudget<S>(w: World<S>, budget: nat) {
    |Redone(w.log, w.replica.lives)| + PAGE * w.replica.unsaved <= PAGE * budget
  }

  lemma CrashBudget<S(!new)>(e: Engine<S>, w: World<S>, w': World<S>, budget: nat)
    requires WorldOk(e, w) && WithinBudget(w, budget) && w' == Act(e, w, Did(Crash))
    ensures WithinBudget(w', budget + 1)
  {
    var r := w.replica;
    RedoneLast(w.log, r.lives, Life(r.saved, r.saved));
    UnsavedBound(e, w.log, r);
  }

  lemma EventBudget<S(!new)>(e: Engine<S>, w: World<S>, ev: Event, w': World<S>, budget: nat)
    requires WorldOk(e, w) && WithinBudget(w, budget) && ev != Crash && w' == Act(e, w, Did(ev))
    ensures WithinBudget(w', if ev in {OpenFails, SaveFails} then budget + 1 else budget)
  {
    var r := w.replica;
    if r.page != [] { RedoneMove(w.log, r.lives, r.page[0].id); }
    assert w'.replica.lives == r.lives || (r.page != [] && w'.replica.lives == Move(r.lives, r.page[0].id));
  }

  lemma AppendBudget<S(!new)>(e: Engine<S>, w: World<S>, x: Entry, budget: nat)
    requires WorldOk(e, w) && WithinBudget(w, budget) && LastID(w.log) < x.id
    ensures WithinBudget(w.(log := w.log + [x]), budget)
  {
    UpToMore(w.replica.lives, LastID(w.log), x.id - 1);
    RedoneAppend(w.log, x, w.replica.lives);
  }

  lemma StepBudget<S(!new)>(e: Engine<S>, w: World<S>, step: Step, w': World<S>, budget: nat)
    requires WorldOk(e, w) && WithinBudget(w, budget) && w' == Act(e, w, step)
    ensures WithinBudget(w', if step in {Did(Crash), Did(OpenFails), Did(SaveFails)} then budget + 1 else budget)
  {
    match step
    case Appended(gap, database, query) =>
      AppendBudget(e, w, Entry(LastID(w.log) + 1 + gap, database, query), budget);
    case Did(ev) =>
      if ev == Crash { CrashBudget(e, w, w', budget); } else { EventBudget(e, w, ev, w', budget); }
  }

  /**
   Over any run, at most 500 entries are redone for each crash and 500 for each failure to
   apply or to save; so without such failures, at most 500 for each crash.
   */
  lemma {:induction false} RedoneBound<S(!new)>(e: Engine<S>, steps: seq<Step>)
    ensures var w := RunWorld(e, steps);
            |Redone(w.log, w.replica.lives)| + 500 * w.replica.unsaved <= 500 * (Crashes(steps) + Failures(steps))
  {
    if steps != [] {
      var before := steps[..|steps| - 1];
      RedoneBound(e, before);
      InvRun(e, before);
      StepBudget(e, RunWorld(e, before), steps[|steps| - 1], RunWorld(e, steps), Crashes(before) + Failures(before));
    }
  }

  // ------------------------------------------------- an engine that remembers everything

  /** A database that is the list of statements it was given: it tells any two histories apart. */
  function Recorder(): Engine<seq<Stmt>> {
    Engine([],
           (s: seq<Stmt>, stmt: Stmt) => (s, Ok(RowSet(Ok([]), []))),
           (s: seq<Stmt>, stmt: Stmt) => (s + [stmt], Ok(Affected(0, 0))))
  }

  lemma RecorderEffect(s: seq<Stmt>, stmt: Stmt)
    ensures Effect(Recorder(), s, stmt)
         == if Blank(stmt.text) || !IsWriteQuery(stmt.text) then s else s + [Stmt(TrimSpace(stmt.text), stmt.params)]
  {
    ClassifiersAgree(stmt.text);
  }
}
