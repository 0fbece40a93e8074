/**
 What one poll of the replica achieves when requests, opens and saves may fail: how far it
 gets in the entries above its cursor, and which position it has saved by then.
 */
module PollFaults {
  import opened Executor
  import opened ReplicationLog
  import opened ReplicaMachine
  import opened Wrappers

  /**
   The faults of one poll. A poll asks for each `since` at most once, executes each entry at
   most once and saves each position at most once, so indexing faults by these is no restriction.
   */
  datatype Env = Env(
    request: int -> Option<string>,   // the request for this `since` fails, or its answer does not decode
    open: int -> Option<string>,      // opening the database for the entry with this id fails
    save: int -> Option<string>)      // saving this position fails

  ghost predicate Quiet(env: Env) {
    forall x :: env.request(x).None? && env.open(x).None? && env.save(x).None?
  }

  /** How many entries can be opened before the first that cannot. */
  function Opened(entries: seq<Entry>, env: Env): (k: nat)
    ensures k <= |entries|
    ensures forall i :: 0 <= i < k ==> env.open(entries[i].id).None?
    ensures k < |entries| ==> env.open(entries[k].id).Some?
  {
    if entries == [] || env.open(entries[0].id).Some? then 0 else 1 + Opened(entries[1..], env)
  }

  lemma OpenedIs(entries: seq<Entry>, env: Env, k: nat)
    requires k <= |entries| && forall i :: 0 <= i < k ==> env.open(entries[i].id).None?
    requires k < |entries| ==> env.open(entries[k].id).Some?
    ensures Opened(entries, env) == k
  {
    var m := Opened(entries, env);
  }

  /** From `r` to `r'` exactly these entries have been executed, in order, and passed by the cursor. */
  ghost predicate Executes<S(!new)>(e: Engine<S>, r: Replica<S>, r': Replica<S>, todo: seq<Entry>) {
    && r'.applied == r.applied + todo
    && r'.cursor == (if todo == [] then r.cursor else todo[|todo| - 1].id)
    && forall n :: Find(r'.databases, n, e.empty) == Replay(e, Find(r.databases, n, e.empty), TextsFor(todo, n))
  }

  lemma ExecutesNone<S(!new)>(e: Engine<S>, r: Replica<S>, r': Replica<S>)
    requires r'.applied == r.applied && r'.cursor == r.cursor && r'.databases == r.databases
    ensures Executes(e, r, r', [])
  {
    assert r.applied + [] == r.applied;
  }

  /** Saving a position executes nothing. */
  lemma ExecutesStill<S(!new)>(e: Engine<S>, r: Replica<S>, r1: Replica<S>, r': Replica<S>, todo: seq<Entry>)
    requires Executes(e, r, r1, todo)
    requires r'.applied == r1.applied && r'.cursor == r1.cursor && r'.databases == r1.databases
    ensures Executes(e, r, r', todo)
  {
  }

  lemma ReplayOne<S>(e: Engine<S>, db: S, q: string)
    ensures Replay(e, db, [q]) == Effect(e, db, Plain(q))
  {
    assert [q][..0] == [];
  }

  lemma ExecutesOne<S(!new)>(e: Engine<S>, r: Replica<S>, r': Replica<S>, x: Entry)
    requires r'.applied == r.applied + [x] && r'.cursor == x.id
    requires r'.databases
          == r.databases[x.database := Effect(e, Find(r.databases, x.database, e.empty), Plain(x.query))]
    ensures Executes(e, r, r', [x])
  {
    forall n ensures Find(r'.databases, n, e.empty) == Replay(e, Find(r.databases, n, e.empty), TextsFor([x], n)) {
      ReplayOne(e, Find(r.databases, n, e.empty), x.query);
      TextsForAppend([], x, n);
      assert [] + [x] == [x] && [] + [x.query] == [x.query];
    }
  }

  lemma ExecutesThen<S(!new)>(e: Engine<S>, r: Replica<S>, r1: Replica<S>, r': Replica<S>, a: seq<Entry>, b: seq<Entry>)
    requires Executes(e, r, r1, a) && Executes(e, r1, r', b)
    ensures Executes(e, r, r', a + b)
  {
    assert r.applied + a + b == r.applied + (a + b);
    forall n ensures Find(r'.databases, n, e.empty) == Replay(e, Find(r.databases, n, e.empty), TextsFor(a + b, n)) {
      TextsForConcat(a, b, n);
      ReplayAppend(e, Find(r.databases, n, e.empty), TextsFor(a, n), TextsFor(b, n));
    }
  }

  // ------------------------------------------------- how far a poll gets

  /**
   The poll stops before this entry: it cannot be opened; or it would be the first of a page and
   the request for that page fails; or there is none.
   */
  ghost predicate Blocked(todo: seq<Entry>, env: Env, since: int, i: nat)
    requires i <= |todo|
  {
    || i == |todo|
    || env.open(todo[i].id).Some?
    || (i % 500 == 0 && env.request(if i == 0 then since else todo[i - 1].id).Some?)
  }

  /** The first place from `i` on where the poll stops. */
  ghost function StopFrom(todo: seq<Entry>, env: Env, since: int, i: nat): (m: nat)
    requires i <= |todo|
    ensures i <= m <= |todo| && Blocked(todo, env, since, m)
    ensures forall j :: i <= j < m ==> !Blocked(todo, env, since, j)
    decreases |todo| - i
  {
    if Blocked(todo, env, since, i) then i else StopFrom(todo, env, since, i + 1)
  }

  ghost function Stop(todo: seq<Entry>, env: Env, since: int): (m: nat)
    ensures m <= |todo| && Blocked(todo, env, since, m)
    ensures forall j :: 0 <= j < m ==> !Blocked(todo, env, since, j)
  {
    StopFrom(todo, env, since, 0)
  }

  lemma StopIs(todo: seq<Entry>, env: Env, since: int, m: nat)
    requires m <= |todo| && Blocked(todo, env, since, m)
    requires forall j :: 0 <= j < m ==> !Blocked(todo, env, since, j)
    ensures Stop(todo, env, since) == m
  {
    var k := Stop(todo, env, since);
  }

  /** A page of the poll ends here. */
  predicate PageEnd(todo: seq<Entry>, i: nat) {
    0 < i <= |todo| && (i % 500 == 0 || i == |todo|)
  }

  /** The position saved once the first `m` entries have been passed: that of the last page end whose save works. */
  function SavedBy(todo: seq<Entry>, env: Env, m: nat, before: int): int
    requires m <= |todo|
  {
    if m == 0 then before
    else if PageEnd(todo, m) && env.save(todo[m - 1].id).None? then todo[m - 1].id
    else SavedBy(todo, env, m - 1, before)
  }

  lemma {:induction false} SavedNotYet(todo: seq<Entry>, env: Env, m: nat, before: int)
    requires m <= |todo| && forall i :: 0 < i <= m ==> !PageEnd(todo, i)
    ensures SavedBy(todo, env, m, before) == before
  {
    if m > 0 {
      SavedNotYet(todo, env, m - 1, before);
    }
  }

  lemma {:induction false} SavedLater(page: seq<Entry>, rest: seq<Entry>, env: Env, m: nat, before: int)
    requires |page| == 500 && m <= |rest|
    ensures SavedBy(page + rest, env, 500 + m, before)
         == SavedBy(rest, env, m, if env.save(page[499].id).None? then page[499].id else before)
  {
    var todo := page + rest;
    if m == 0 {
      assert todo[499] == page[499];
      assert PageEnd(todo, 500);
      SavedNotYet(todo, env, 499, before);
    } else {
      SavedLater(page, rest, env, m - 1, before);
      assert todo[500 + m - 1] == rest[m - 1];
      PageEndShift(page, rest, m);
    }
  }

  lemma PageEndShift(page: seq<Entry>, rest: seq<Entry>, i: nat)
    requires |page| == 500 && i > 0
    ensures PageEnd(page + rest, 500 + i) <==> PageEnd(rest, i)
  {
  }

  lemma BlockedShift(page: seq<Entry>, rest: seq<Entry>, env: Env, since: int, i: nat)
    requires |page| == 500 && i <= |rest|
    ensures Blocked(page + rest, env, since, 500 + i) <==> Blocked(rest, env, page[499].id, i)
  {
    var todo := page + rest;
    assert i < |rest| ==> todo[500 + i] == rest[i];
    assert todo[500 + i - 1] == if i == 0 then page[499] else rest[i - 1];
  }

  /** The request works and every entry of the page can be opened. */
  ghost predicate PagePasses(page: seq<Entry>, env: Env, since: int) {
    env.request(since).None? && Opened(page, env) == |page|
  }

  lemma NotBlockedInPage(page: seq<Entry>, rest: seq<Entry>, env: Env, since: int, k: nat)
    requires |page| <= 500 && env.request(since).None? && k <= |page|
    requires forall j :: 0 <= j < k ==> env.open(page[j].id).None?
    ensures forall j :: 0 <= j < k ==> !Blocked(page + rest, env, since, j)
  {
    forall j | 0 <= j < k ensures !Blocked(page + rest, env, since, j) {
      assert (page + rest)[j] == page[j];
    }
  }

  /** After a full page that passes, the poll goes on like a new one. */
  lemma StopAfterPage(page: seq<Entry>, rest: seq<Entry>, env: Env, since: int)
    requires |page| == 500 && PagePasses(page, env, since)
    ensures Stop(page + rest, env, since) == 500 + Stop(rest, env, page[499].id)
  {
    var todo, m := page + rest, Stop(rest, env, page[499].id);
    NotBlockedInPage(page, rest, env, since, 500);
    BlockedShift(page, rest, env, since, m);
    forall j | 0 <= j < 500 + m ensures !Blocked(todo, env, since, j) {
      if 500 <= j {
        BlockedShift(page, rest, env, since, j - 500);
        assert !Blocked(rest, env, page[499].id, j - 500);
      }
    }
    StopIs(todo, env, since, 500 + m);
  }

  /** A page that does not pass, or is not full, is the last. */
  lemma StopInPage(page: seq<Entry>, rest: seq<Entry>, env: Env, since: int)
    requires |page| <= 500 && (|page| < 500 ==> rest == [])
    requires PagePasses(page, env, since) ==> |page| < 500
    ensures Stop(page + rest, env, since) == if env.request(since).Some? then 0 else Opened(page, env)
  {
    var todo, k := page + rest, Opened(page, env);
    if env.request(since).Some? {
      StopIs(todo, env, since, 0);
    } else {
      NotBlockedInPage(page, rest, env, since, k);
      assert k < |page| ==> todo[k] == page[k];
      StopIs(todo, env, since, k);
    }
  }

  /** Within the last page the position is saved only if that page ends with the entries. */
  lemma SavedInPage(page: seq<Entry>, rest: seq<Entry>, env: Env, m: nat, before: int)
    requires |page| <= 500 && (|page| < 500 ==> rest == []) && m <= |page| && (m == |page| ==> m < 500)
    ensures SavedBy(page + rest, env, m, before)
         == if m > 0 && m == |page| && env.save(page[m - 1].id).None? then page[m - 1].id else before
  {
    var todo := page + rest;
    assert m > 0 ==> todo[m - 1] == page[m - 1];
    if m > 0 && m == |page| {
      SavedNotYet(todo, env, m - 1, before);
    } else {
      SavedNotYet(todo, env, m, before);
    }
  }

  /** Without a fault a poll passes all entries and saves the last position. */
  lemma QuietReaches(todo: seq<Entry>, env: Env, since: int, before: int)
    requires Quiet(env)
    ensures Stop(todo, env, since) == |todo|
    ensures SavedBy(todo, env, |todo|, before) == if todo == [] then before else todo[|todo| - 1].id
  {
    forall j | 0 <= j < |todo| ensures !Blocked(todo, env, since, j) {
      assert env.open(todo[j].id).None? && env.request(if j == 0 then since else todo[j - 1].id).None?;
    }
    StopIs(todo, env, since, |todo|);
    assert todo != [] ==> env.save(todo[|todo| - 1].id).None?;
  }

  // ------------------------------------------------- what a batch, a page and a poll achieve

  /** A batch: the entries before the first that cannot be opened, and the position if that was all of them. */
  ghost predicate BatchTaken<S(!new)>(e: Engine<S>, r: Replica<S>, r': Replica<S>, entries: seq<Entry>, env: Env, stored: bool) {
    var k := Opened(entries, env);
    && Executes(e, r, r', entries[..k])
    && r'.saved == if k == |entries| && stored && env.save(r'.cursor).None? then r'.cursor else r.saved
  }

  /** A page: nothing if its request fails or it is empty, otherwise its batch. */
  ghost predicate PagePolled<S(!new)>(e: Engine<S>, r: Replica<S>, r': Replica<S>, page: seq<Entry>, env: Env, stored: bool) {
    if page == [] || env.request(r.cursor).Some? then Executes(e, r, r', []) && r'.saved == r.saved
    else BatchTaken(e, r, r', page, env, stored)
  }

  /**
   A poll does what a single scan of the entries above the cursor would do: execute them in
   order up to the first that cannot be opened or whose page cannot be fetched, and have saved
   the position of the last page that was finished and whose save worked.
   */
  ghost predicate Polled<S(!new)>(e: Engine<S>, r: Replica<S>, r': Replica<S>, todo: seq<Entry>, env: Env, stored: bool) {
    var m := Stop(todo, env, r.cursor);
    && Executes(e, r, r', todo[..m])
    && r'.saved == if stored then SavedBy(todo, env, m, r.saved) else r.saved
  }

  /** After a full page that passes, whether or not its position could be saved, the poll goes on. */
  lemma PollGoesOn<S(!new)>(e: Engine<S>, r: Replica<S>, r1: Replica<S>, r': Replica<S>,
                            page: seq<Entry>, rest: seq<Entry>, env: Env, stored: bool)
    requires |page| == 500 && PagePasses(page, env, r.cursor) && PagePolled(e, r, r1, page, env, stored)
    requires Polled(e, r1, r', rest, env, stored)
    ensures Polled(e, r, r', page + rest, env, stored)
  {
    var m := Stop(rest, env, page[499].id);
    assert page[..500] == page;
    StopAfterPage(page, rest, env, r.cursor);
    ExecutesThen(e, r, r1, r', page, rest[..m]);
    assert (page + rest)[..500 + m] == page + rest[..m];
    SavedLater(page, rest, env, m, r.saved);
  }

  lemma PollEnds<S(!new)>(e: Engine<S>, r: Replica<S>, r': Replica<S>, page: seq<Entry>, rest: seq<Entry>, env: Env, stored: bool)
    requires |page| <= 500 && (|page| < 500 ==> rest == []) && !(|page| == 500 && PagePasses(page, env, r.cursor))
    requires PagePolled(e, r, r', page, env, stored)
    ensures Polled(e, r, r', page + rest, env, stored)
  {
    var m := if env.request(r.cursor).Some? then 0 else Opened(page, env);
    StopInPage(page, rest, env, r.cursor);
    SavedInPage(page, rest, env, m, r.saved);
    assert (page + rest)[..m] == page[..m];
  }

  /** From `r` to `r'` the given entries have been applied and, if it can be stored, the position after them saved. */
  ghost predicate CaughtUp<S>(r: Replica<S>, r': Replica<S>, todo: seq<Entry>, stored: bool) {
    && r'.applied == r.applied + todo
    && (todo == [] ==> r'.cursor == r.cursor && r'.saved == r.saved)
    && (todo != [] ==> r'.cursor == todo[|todo| - 1].id && (stored ==> r'.saved == r'.cursor))
  }

  /** Without a fault, a poll applies all entries and saves their last position. */
  lemma PollIsQuiet<S(!new)>(e: Engine<S>, r: Replica<S>, r': Replica<S>, todo: seq<Entry>, env: Env, stored: bool)
    requires Polled(e, r, r', todo, env, stored)
    ensures Quiet(env) ==> CaughtUp(r, r', todo, stored)
  {
    if Quiet(env) {
      QuietReaches(todo, env, r.cursor, r.saved);
      assert todo[..|todo|] == todo;
    }
  }
}
