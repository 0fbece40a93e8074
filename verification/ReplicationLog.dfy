/**
 The replication tables of the system database (internal/database/system.go): the log of
 write statements on the primary and the one-row state table of a replica.
 */
module ReplicationLog {
  import opened Wrappers

  datatype Entry = Entry(id: int, database: string, query: string)

  /** Identifiers are positive and grow: the single system connection inserts one at a time. */
  ghost predicate Ascending(log: seq<Entry>) {
    && (forall i :: 0 <= i < |log| ==> log[i].id > 0)
    && (forall i, j :: 0 <= i < j < |log| ==> log[i].id < log[j].id)
  }

  function LastID(log: seq<Entry>): int {
    if log == [] then 0 else log[|log| - 1].id
  }

  /** The entries with lo < id <= hi, in the order of the log. */
  function Between(log: seq<Entry>, lo: int, hi: int): seq<Entry> {
    if log == [] then []
    else
      var e := log[|log| - 1];
      Between(log[..|log| - 1], lo, hi) + if lo < e.id <= hi then [e] else []
  }

  /** `WHERE id > since ORDER BY id`. */
  function After(log: seq<Entry>, since: int): seq<Entry> {
    if log == [] then []
    else
      var e := log[|log| - 1];
      After(log[..|log| - 1], since) + if since < e.id then [e] else []
  }

  /** `... LIMIT limit`; SQLite reads a negative limit as none. */
  function Page(log: seq<Entry>, since: int, limit: int): seq<Entry> {
    var all := After(log, since);
    if 0 <= limit < |all| then all[..limit] else all
  }

  /** How many entries have an identifier up to `x`. */
  function Rank(log: seq<Entry>, x: int): (r: nat)
    ensures r <= |log|
  {
    if log == [] then 0
    else Rank(log[..|log| - 1], x) + if log[|log| - 1].id <= x then 1 else 0
  }

  /** In an ascending log the rank of `x` is the position that separates the identifiers at `x`. */
  lemma {:induction false} RankSeparates(log: seq<Entry>, x: int)
    requires Ascending(log)
    ensures forall i :: 0 <= i < Rank(log, x) ==> log[i].id <= x
    ensures forall i :: Rank(log, x) <= i < |log| ==> x < log[i].id
  {
    if log != [] {
      RankSeparates(log[..|log| - 1], x);
    }
  }

  lemma {:induction false} RankUnique(log: seq<Entry>, x: int, r: nat)
    requires Ascending(log) && r <= |log|
    requires forall i :: 0 <= i < r ==> log[i].id <= x
    requires forall i :: r <= i < |log| ==> x < log[i].id
    ensures Rank(log, x) == r
  {
    if log != [] {
      RankUnique(log[..|log| - 1], x, if r == |log| then r - 1 else r);
    }
  }

  lemma RankOfEntry(log: seq<Entry>, i: nat)
    requires Ascending(log) && i < |log|
    ensures Rank(log, log[i].id) == i + 1
  {
    RankUnique(log, log[i].id, i + 1);
  }

  lemma RankOfZero(log: seq<Entry>)
    requires Ascending(log)
    ensures Rank(log, 0) == 0
  {
    RankUnique(log, 0, 0);
  }

  lemma AscendingFront(init: seq<Entry>, e: Entry)
    requires Ascending(init + [e])
    ensures Ascending(init) && LastID(init) < e.id
  {
    var log := init + [e];
    assert forall i :: 0 <= i < |init| ==> log[i] == init[i];
    assert log[|init|] == e;
  }

  lemma RankNext(init: seq<Entry>, e: Entry, x: int)
    ensures Rank(init + [e], x) == Rank(init, x) + if e.id <= x then 1 else 0
  {
    assert (init + [e])[..|init|] == init;
  }

  /** Where the last entry is still in reach, so is every entry before it. */
  lemma RankFull(init: seq<Entry>, e: Entry, x: int)
    requires Ascending(init + [e]) && e.id <= x
    ensures Rank(init, x) == |init|
  {
    AscendingFront(init, e);
    RankUnique(init, x, |init|);
  }

  lemma BetweenNext(init: seq<Entry>, e: Entry, lo: int, hi: int)
    ensures Between(init + [e], lo, hi) == Between(init, lo, hi) + if lo < e.id <= hi then [e] else []
  {
    assert (init + [e])[..|init|] == init;
  }

  lemma BetweenSliceNext(init: seq<Entry>, e: Entry, lo: int, hi: int)
    requires Ascending(init + [e]) && lo <= hi
    requires Rank(init, lo) <= Rank(init, hi) && Between(init, lo, hi) == init[Rank(init, lo)..Rank(init, hi)]
    ensures Rank(init + [e], lo) <= Rank(init + [e], hi)
    ensures Between(init + [e], lo, hi) == (init + [e])[Rank(init + [e], lo)..Rank(init + [e], hi)]
  {
    if e.id <= hi { RankFull(init, e, hi); }
    if e.id <= lo { RankFull(init, e, lo); }
    RankNext(init, e, lo);
    RankNext(init, e, hi);
    BetweenNext(init, e, lo, hi);
    CutNext(init, e, Between(init, lo, hi), Rank(init, lo), Rank(init, hi), lo < e.id <= hi, e.id <= lo);
  }

  /** A cut of a list, when the list gets one more element that is in it, or after it, or before its start. */
  lemma CutNext(init: seq<Entry>, e: Entry, cut: seq<Entry>, a: nat, b: nat, inside: bool, before: bool)
    requires a <= b <= |init| && cut == init[a..b] && !(inside && before)
    requires inside ==> b == |init|
    requires before ==> a == b == |init|
    ensures inside ==> cut + [e] == (init + [e])[a..b + 1]
    ensures before ==> cut + [] == (init + [e])[a + 1..b + 1]
    ensures !inside && !before ==> cut + [] == (init + [e])[a..b]
  {
  }

  lemma {:induction false} BetweenIsSlice(log: seq<Entry>, lo: int, hi: int)
    requires Ascending(log) && lo <= hi
    ensures Rank(log, lo) <= Rank(log, hi)
    ensures Between(log, lo, hi) == log[Rank(log, lo)..Rank(log, hi)]
  {
    if log != [] {
      var init, e := log[..|log| - 1], log[|log| - 1];
      assert log == init + [e];
      AscendingFront(init, e);
      BetweenIsSlice(init, lo, hi);
      BetweenSliceNext(init, e, lo, hi);
    }
  }

  /** What lies after a position is what lies between it and the end. */
  lemma {:induction false} AfterIsBetween(log: seq<Entry>, since: int, hi: int)
    requires forall i :: 0 <= i < |log| ==> log[i].id <= hi
    ensures After(log, since) == Between(log, since, hi)
  {
    if log != [] {
      AfterIsBetween(log[..|log| - 1], since, hi);
    }
  }

  lemma AfterIsSuffix(log: seq<Entry>, since: int)
    requires Ascending(log)
    ensures After(log, since) == log[Rank(log, since)..]
  {
    var hi := if since < LastID(log) then LastID(log) else since;
    AfterIsBetween(log, since, hi);
    BetweenIsSlice(log, since, hi);
    RankBelowLast(log, hi);
    assert log[Rank(log, since)..|log|] == log[Rank(log, since)..];
  }

  /** A page is a run of consecutive entries right after `since`, as long as the limit lets it be. */
  lemma PageIsSlice(log: seq<Entry>, since: int, limit: int)
    requires Ascending(log)
    ensures var k, page := Rank(log, since), Page(log, since, limit);
            && k + |page| <= |log| && page == log[k..k + |page|]
            && (0 <= limit ==> |page| <= limit)
            && (|page| == limit || k + |page| == |log|)
  {
    AfterIsSuffix(log, since);
  }

  /** Ascending entries above `since`, none left out up to the last, and none at all if there are fewer than the limit. */
  ghost predicate RunAfter(log: seq<Entry>, since: int, limit: int, page: seq<Entry>) {
    && Ascending(page)
    && (forall x :: x in page ==> x in log && since < x.id)
    && (forall x :: x in log && since < x.id && page != [] && x.id <= LastID(page) ==> x in page)
    && (|page| != limit ==> forall x :: x in log && since < x.id ==> x in page)
  }

  lemma SliceAscends(log: seq<Entry>, k: nat, page: seq<Entry>)
    requires Ascending(log) && k + |page| <= |log| && page == log[k..k + |page|]
    ensures Ascending(page)
  {
    forall i | 0 <= i < |page| ensures page[i].id > 0 {
      assert page[i] == log[k + i];
    }
    forall i, j | 0 <= i < j < |page| ensures page[i].id < page[j].id {
      assert page[i] == log[k + i] && page[j] == log[k + j];
    }
  }

  lemma SliceHolds(log: seq<Entry>, k: nat, page: seq<Entry>, x: Entry)
    requires k + |page| <= |log| && page == log[k..k + |page|]
    ensures x in page <==> exists i :: k <= i < k + |page| && log[i] == x
  {
    if i :| k <= i < k + |page| && log[i] == x {
      assert page[i - k] == x;
    }
    if x in page {
      var j :| 0 <= j < |page| && page[j] == x;
      assert log[k + j] == x;
    }
  }

  lemma SliceUpTo(log: seq<Entry>, k: nat, page: seq<Entry>, i: nat)
    requires Ascending(log) && k + |page| <= |log| && page == log[k..k + |page|] && page != []
    requires k <= i < |log| && log[i].id <= LastID(page)
    ensures i < k + |page|
  {
    assert LastID(page) == log[k + |page| - 1].id;
  }

  lemma PageComplete(log: seq<Entry>, since: int, k: nat, limit: int, page: seq<Entry>, x: Entry)
    requires Ascending(log) && k + |page| <= |log| && page == log[k..k + |page|]
    requires forall i :: 0 <= i < k ==> log[i].id <= since
    requires |page| == limit || k + |page| == |log|
    requires x in log && since < x.id && (|page| != limit || (page != [] && x.id <= LastID(page)))
    ensures x in page
  {
    var i :| 0 <= i < |log| && log[i] == x;
    SliceHolds(log, k, page, x);
    if |page| == limit { SliceUpTo(log, k, page, i); }
  }

  lemma PageHolds(log: seq<Entry>, since: int, limit: int, page: seq<Entry>)
    requires Ascending(log) && page == Page(log, since, limit)
    ensures RunAfter(log, since, limit, page)
  {
    var k := Rank(log, since);
    PageIsSlice(log, since, limit);
    RankSeparates(log, since);
    SliceAscends(log, k, page);
    forall x ensures x in page ==> x in log && since < x.id {
      SliceHolds(log, k, page, x);
    }
    forall x | x in log && since < x.id && (|page| != limit || (page != [] && x.id <= LastID(page))) ensures x in page {
      PageComplete(log, since, k, limit, page, x);
    }
  }

  /** Appending an entry with a greater identifier leaves every earlier range as it was. */
  lemma RankAppend(log: seq<Entry>, e: Entry, x: int)
    requires x < e.id
    ensures Rank(log + [e], x) == Rank(log, x)
  {
    assert (log + [e])[..|log|] == log;
  }

  lemma AscendingAppend(log: seq<Entry>, e: Entry)
    requires Ascending(log) && LastID(log) < e.id
    ensures Ascending(log + [e])
  {
  }

  lemma RankBelowLast(log: seq<Entry>, x: int)
    requires Ascending(log)
    ensures LastID(log) <= x ==> Rank(log, x) == |log|
    ensures log != [] && x < LastID(log) ==> Rank(log, x) < |log|
  {
    RankSeparates(log, x);
    if LastID(log) <= x {
      RankUnique(log, x, |log|);
    } else if log != [] {
      RankOfEntry(log, |log| - 1);
    }
  }

  /** The log's texts for one database, in order. */
  function TextsFor(log: seq<Entry>, name: string): seq<string> {
    if log == [] then []
    else
      var e := log[|log| - 1];
      TextsFor(log[..|log| - 1], name) + if e.database == name then [e.query] else []
  }

  lemma TextsForAppend(log: seq<Entry>, e: Entry, name: string)
    ensures TextsFor(log + [e], name) == TextsFor(log, name) + if e.database == name then [e.query] else []
  {
    assert (log + [e])[..|log|] == log;
  }

  lemma {:induction false} TextsForConcat(a: seq<Entry>, b: seq<Entry>, name: string)
    ensures TextsFor(a + b, name) == TextsFor(a, name) + TextsFor(b, name)
    decreases |b|
  {
    if b == [] {
      assert a + b == a;
    } else {
      var init, x := b[..|b| - 1], b[|b| - 1];
      assert a + b == (a + init) + [x] && b == init + [x];
      TextsForConcat(a, init, name);
      TextsForAppend(a + init, x, name);
      TextsForAppend(init, x, name);
    }
  }

  datatype ReplicationState = ReplicationState(role: string, primaryURL: string, lastAppliedID: int)

  /** The replication side of the system database. `fault` stands for an error of the database call. */
  class SystemDB {
    var log: seq<Entry>
    var sequence: int              // AUTOINCREMENT's counter
    var state: Option<ReplicationState>

    ghost predicate Valid()
      reads this
    {
      && Ascending(log)
      && LastID(log) <= sequence && 0 <= sequence
    }

    constructor ()
      ensures Valid() && log == [] && state == None
    {
      log, sequence, state := [], 0, None;
    }

    method LogReplication(database: string, query: string, fault: Option<string>) returns (r: Result<int>)
      requires Valid()
      modifies this`log, this`sequence
      ensures Valid()
      ensures fault.Some? <==> r.Err?
      ensures r.Err? ==> log == old(log)
      ensures r.Ok? ==> log == old(log) + [Entry(r.value, database, query)] && LastID(old(log)) < r.value
    {
      if fault.Some? {
        return Err("log replication: " + fault.value);
      }
      sequence := sequence + 1;
      log := log + [Entry(sequence, database, query)];
      r := Ok(sequence);
    }

    /** The run of consecutive entries right after `since`: all of them, or as many as the limit says. */
    method GetReplicationLog(since: int, limit: int, fault: Option<string>) returns (r: Result<seq<Entry>>)
      requires Valid()
      ensures fault.Some? <==> r.Err?
      ensures r.Ok? ==> r.value == Page(log, since, limit)
      ensures r.Ok? ==> RunAfter(log, since, limit, r.value)
    {
      if fault.Some? {
        return Err("get replication log: " + fault.value);
      }
      PageHolds(log, since, limit, Page(log, since, limit));
      r := Ok(Page(log, since, limit));
    }

    /** The endpoint's own rules: admins only, `since` defaults to 0, `limit` to 500 and must lie in 1..5000. */
    method HandleReplicationLog(admin: bool, since: Option<Result<int>>, limit: Option<Result<int>>, fault: Option<string>)
        returns (r: Result<seq<Entry>>)
      requires Valid()
      ensures r.Ok? <==>
        && admin && fault.None?
        && (since.Some? ==> since.value.Ok?)
        && (limit.Some? ==> limit.value.Ok? && 1 <= limit.value.value <= 5000)
      ensures r.Ok? ==>
        var from := if since.Some? then since.value.value else 0;
        var most := if limit.Some? then limit.value.value else 500;
        && r.value == Page(log, from, most)
        && |r.value| <= 5000
    {
      if !admin {
        return Err("only admins can access replication log");
      }
      var from := 0;
      if since.Some? {
        if since.value.Err? {
          return Err("invalid since parameter");
        }
        from := since.value.value;
      }
      var most := 500;
      if limit.Some? {
        if limit.value.Err? || limit.value.value < 1 || limit.value.value > 5000 {
          return Err("invalid limit parameter (1-5000)");
        }
        most := limit.value.value;
      }
      r := GetReplicationLog(from, most, fault);
      PageIsSlice(log, from, most);
    }

    /** The position that has been saved; without a row it is the start of the log. */
    function SavedPosition(): int
      reads this`state
    {
      if state.Some? then state.value.lastAppliedID else 0
    }

    method GetReplicationState(fault: Option<string>) returns (r: Result<ReplicationState>)
      ensures fault.Some? <==> r.Err?
      ensures r.Ok? ==> r.value.lastAppliedID == SavedPosition()
      ensures r.Ok? ==> (state.Some? ==> Some(r.value) == state) && (state.None? ==> r.value.role == "standalone")
    {
      if fault.Some? {
        return Err("get replication state: " + fault.value);
      }
      r := Ok(if state.Some? then state.value else ReplicationState("standalone", "", 0));
    }

    /** A restart keeps the position that an earlier process has saved. */
    method InitReplicationState(role: string, primaryURL: string, fault: Option<string>)
      modifies this`state
      ensures fault.Some? ==> state == old(state)
      ensures fault.None? ==> state == Some(ReplicationState(role, primaryURL, old(SavedPosition())))
    {
      if fault.None? {
        state := Some(if state.Some? then state.value.(role := role, primaryURL := primaryURL)
                      else ReplicationState(role, primaryURL, 0));
      }
    }

    /** Updates the one row, if there is one. */
    method UpdateReplicationAppliedID(id: int, fault: Option<string>) returns (ok: bool)
      modifies this`state
      ensures ok <==> fault.None?
      ensures ok && old(state).Some? ==> state == Some(old(state).value.(lastAppliedID := id))
      ensures !ok || old(state).None? ==> state == old(state)
    {
      ok := fault.None?;
      if ok && state.Some? {
        state := Some(state.value.(lastAppliedID := id));
      }
    }
  }
}
