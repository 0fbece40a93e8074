/**
 The statement executor (internal/database/executor.go) over an abstract database engine.
 A database is a value of type `S`; what a statement does to it, and what it answers, is
 given by the engine. Statement errors are part of the answer.
 */
module Executor {
  import opened Text
  import opened Statements
  import opened Selection
  import opened Wrappers

  datatype Value = Null | Integer(i: int) | Other(text: string)

  datatype Stmt = Stmt(text: string, params: seq<Value>)

  /** What the driver's query call hands back: columns, and rows whose scan may fail. */
  datatype RowSet = RowSet(columns: Result<seq<string>>, rows: seq<Result<seq<Value>>>)

  datatype Affected = Affected(lastInsertID: int, rowsAffected: int)

  datatype Engine<!S> = Engine(
    empty: S,
    query: (S, Stmt) -> (S, Result<RowSet>),
    exec: (S, Stmt) -> (S, Result<Affected>))

  /** SELECT, PRAGMA and EXPLAIN leave the database as it was. */
  ghost predicate ReadsAreNeutral<S(!new)>(e: Engine<S>) {
    forall s, stmt :: e.query(s, stmt).0 == s
  }

  datatype Response = Response(columns: seq<string>, rows: seq<seq<Value>>, error: string)

  function Failed(error: string): Response {
    Response([], [], error)
  }

  /** The rows up to the first one that does not scan, or that row's error. */
  function Collect(rows: seq<Result<seq<Value>>>): Result<seq<seq<Value>>> {
    if rows == [] then Ok([])
    else
      match Collect(rows[..|rows| - 1])
      case Err(error) => Err(error)
      case Ok(values) =>
        match rows[|rows| - 1]
        case Err(error) => Err(error)
        case Ok(value) => Ok(values + [value])
  }

  function QueryResponse(outcome: Result<RowSet>): Response {
    match outcome
    case Err(error) => Failed(error)
    case Ok(RowSet(Err(error), _)) => Failed(error)
    case Ok(RowSet(Ok(columns), rows)) =>
      match Collect(rows)
      case Err(error) => Failed(error)
      case Ok(values) => Response(columns, values, "")
  }

  function ExecResponse(outcome: Result<Affected>): Response {
    match outcome
    case Err(error) => Failed(error)
    case Ok(Affected(id, n)) =>
      Response(["last_insert_id", "rows_affected"], [[Integer(id), Integer(n)]], "")
  }

  /** One dispatched statement: the new state and the answer. The text is trimmed and not empty. */
  function Run<S>(e: Engine<S>, s: S, stmt: Stmt): (S, Response) {
    if DispatchOf(stmt.text) == ToQuery then
      var (s', outcome) := e.query(s, stmt);
      (s', QueryResponse(outcome))
    else
      var (s', outcome) := e.exec(s, stmt);
      (s', ExecResponse(outcome))
  }

  /** What submitting a statement on its own does to a database: blank text does nothing. */
  function Effect<S>(e: Engine<S>, s: S, stmt: Stmt): S {
    var q := TrimSpace(stmt.text);
    if q == "" then s else Run(e, s, Stmt(q, stmt.params)).0
  }

  function Plain(text: string): Stmt {
    Stmt(text, [])
  }

  /** The state after submitting the given texts one after the other. */
  function Replay<S>(e: Engine<S>, s: S, texts: seq<string>): S {
    if texts == [] then s
    else Effect(e, Replay(e, s, texts[..|texts| - 1]), Plain(texts[|texts| - 1]))
  }

  lemma {:induction false} ReplayAppend<S>(e: Engine<S>, s: S, a: seq<string>, b: seq<string>)
    ensures Replay(e, s, a + b) == Replay(e, Replay(e, s, a), b)
    decreases |b|
  {
    if b == [] {
      assert a + b == a;
    } else {
      var b' := b[..|b| - 1];
      assert (a + b)[..|a + b| - 1] == a + b';
      ReplayAppend(e, s, a, b');
    }
  }

  /** The queries of a transaction that are run: trimmed, blank ones skipped. */
  function NonBlank(queries: seq<string>): seq<string> {
    if queries == [] then []
    else
      var init := NonBlank(queries[..|queries| - 1]);
      var q := TrimSpace(queries[|queries| - 1]);
      if q == "" then init else init + [q]
  }

  function Writes(texts: seq<string>): seq<string> {
    if texts == [] then []
    else
      var init := Writes(texts[..|texts| - 1]);
      var q := texts[|texts| - 1];
      if IsWriteQuery(q) then init + [q] else init
  }

  lemma WritesAppend(texts: seq<string>, q: string)
    ensures Writes(texts + [q]) == Writes(texts) + if IsWriteQuery(q) then [q] else []
  {
    assert (texts + [q])[..|texts|] == texts;
  }

  /**
   Skipping a transaction's reads does not change its final state: the fold of all its
   statements is the fold of its write statements alone.
   */
  lemma {:induction false} WritesAlone<S(!new)>(e: Engine<S>, s: S, texts: seq<string>)
    requires ReadsAreNeutral(e)
    ensures Replay(e, s, Writes(texts)) == Replay(e, s, texts)
  {
    if texts != [] {
      var init, q := texts[..|texts| - 1], texts[|texts| - 1];
      WritesAlone(e, s, init);
      ClassifiersAgree(q);
      ClassificationIgnoresOuterSpace(q);
      if IsWriteQuery(q) {
        var w := Writes(init);
        assert (w + [q])[..|w|] == w;
      }
    }
  }

  /** Submitting the raw queries is the same as submitting the trimmed non-blank ones. */
  lemma {:induction false} BlanksAreNeutral<S>(e: Engine<S>, s: S, queries: seq<string>)
    ensures Replay(e, s, NonBlank(queries)) == Replay(e, s, queries)
  {
    if queries != [] {
      var init, last := queries[..|queries| - 1], queries[|queries| - 1];
      BlanksAreNeutral(e, s, init);
      var q := TrimSpace(last);
      TrimIdempotent(last);
      if q != "" {
        var n := NonBlank(init);
        assert (n + [q])[..|n|] == n;
      }
    }
  }

  /** The state after the given statements, parameters included. */
  function Perform<S>(e: Engine<S>, s: S, stmts: seq<Stmt>): S {
    if stmts == [] then s
    else Effect(e, Perform(e, s, stmts[..|stmts| - 1]), stmts[|stmts| - 1])
  }

  lemma {:induction false} PerformAppend<S>(e: Engine<S>, s: S, a: seq<Stmt>, b: seq<Stmt>)
    ensures Perform(e, s, a + b) == Perform(e, Perform(e, s, a), b)
    decreases |b|
  {
    if b == [] {
      assert a + b == a;
    } else {
      var b' := b[..|b| - 1];
      assert (a + b)[..|a + b| - 1] == a + b';
      PerformAppend(e, s, a, b');
    }
  }

  predicate TakesEffect(text: string) {
    IsWriteQuery(text) && !Blank(text)
  }

  /** The statements that take effect when these texts are submitted: the writes that are not blank. */
  function Performs(texts: seq<string>, params: seq<Value>): seq<Stmt> {
    if texts == [] then []
    else
      var init, q := Performs(texts[..|texts| - 1], params), texts[|texts| - 1];
      if TakesEffect(q) then init + [Stmt(TrimSpace(q), params)] else init
  }

  lemma PerformsNext(texts: seq<string>, q: string, params: seq<Value>)
    ensures Performs(texts + [q], params)
         == Performs(texts, params) + if TakesEffect(q) then [Stmt(TrimSpace(q), params)] else []
  {
    assert (texts + [q])[..|texts|] == texts;
  }

  lemma {:induction false} PerformsAppend(a: seq<string>, b: seq<string>, params: seq<Value>)
    ensures Performs(a + b, params) == Performs(a, params) + Performs(b, params)
    decreases |b|
  {
    if b == [] {
      assert a + b == a;
    } else {
      var init, q := b[..|b| - 1], b[|b| - 1];
      assert a + b == (a + init) + [q] && b == init + [q];
      PerformsAppend(a, init, params);
      PerformsNext(a + init, q, params);
      PerformsNext(init, q, params);
    }
  }

  /** Submitting one text does what the statements say that it performs. */
  lemma EffectIsPerform<S(!new)>(e: Engine<S>, s: S, q: string, params: seq<Value>)
    requires ReadsAreNeutral(e)
    ensures Effect(e, s, Stmt(q, params)) == if TakesEffect(q) then Effect(e, s, Stmt(TrimSpace(q), params)) else s
  {
    TrimIdempotent(q);
    ClassifiersAgree(q);
  }

  lemma {:induction false} ReplayIsPerform<S(!new)>(e: Engine<S>, s: S, texts: seq<string>)
    requires ReadsAreNeutral(e)
    ensures Replay(e, s, texts) == Perform(e, s, Performs(texts, []))
  {
    if texts != [] {
      var init, q := texts[..|texts| - 1], texts[|texts| - 1];
      ReplayIsPerform(e, s, init);
      EffectIsPerform(e, Replay(e, s, init), q, []);
      var done := Performs(init, []);
      PerformLast(e, s, done, Stmt(TrimSpace(q), []));
    }
  }

  lemma PerformLast<S>(e: Engine<S>, s: S, stmts: seq<Stmt>, x: Stmt)
    ensures Perform(e, s, stmts + [x]) == Effect(e, Perform(e, s, stmts), x)
  {
    assert (stmts + [x])[..|stmts|] == stmts;
  }

  /** A transaction's writes perform all that its statements perform. */
  lemma {:induction false} WritesPerform(texts: seq<string>)
    ensures Performs(Writes(texts), []) == Performs(texts, [])
  {
    if texts != [] {
      var init, q := texts[..|texts| - 1], texts[|texts| - 1];
      WritesPerform(init);
      assert texts == init + [q];
      WritesAppend(init, q);
      PerformsNext(init, q, []);
      PerformsNext(Writes(init), q, []);
      assert Writes(init) + [] == Writes(init);
    }
  }

  /** The answer list a transaction must give: each answer comes from the state its predecessors left. */
  ghost predicate AnswersInOrder<S>(e: Engine<S>, s: S, run: seq<string>, results: seq<Response>) {
    && |results| == |run|
    && forall i :: 0 <= i < |run| ==> results[i] == Run(e, Replay(e, s, run[..i]), Plain(run[i])).1
  }

  // What a statement answers, said of the engine's own calls.

  /** The answer to a query call: the columns and every row in order, or else only the error, of the rows the first one's. */
  ghost predicate AnswersQuery(outcome: Result<RowSet>, r: Response) {
    match outcome
    case Err(error) => r.columns == [] && r.rows == [] && r.error == error
    case Ok(RowSet(Err(error), _)) => r.columns == [] && r.rows == [] && r.error == error
    case Ok(RowSet(Ok(columns), rows)) =>
      if forall i :: 0 <= i < |rows| ==> rows[i].Ok? then
        && r.columns == columns && r.error == ""
        && |r.rows| == |rows| && forall i :: 0 <= i < |rows| ==> rows[i] == Ok(r.rows[i])
      else
        && r.columns == [] && r.rows == []
        && exists i :: 0 <= i < |rows| && rows[i] == Err(r.error) && forall j :: 0 <= j < i ==> rows[j].Ok?
  }

  /** The answer to an exec call: the two numbers under their names, or only the error. */
  ghost predicate AnswersExec(outcome: Result<Affected>, r: Response) {
    match outcome
    case Err(error) => r.columns == [] && r.rows == [] && r.error == error
    case Ok(affected) =>
      && r.columns == ["last_insert_id", "rows_affected"] && r.error == ""
      && r.rows == [[Integer(affected.lastInsertID), Integer(affected.rowsAffected)]]
  }

  predicate StartsRead(text: string) {
    var t := TrimSpace(text);
    StartsFold(t, "SELECT") || StartsFold(t, "PRAGMA") || StartsFold(t, "EXPLAIN")
  }

  /** Submitting a text that is not blank: one call on the engine, with the trimmed text and the parameters. */
  ghost predicate Submitted<S>(e: Engine<S>, s: S, text: string, params: seq<Value>, s': S, r: Response) {
    var stmt := Stmt(TrimSpace(text), params);
    if StartsRead(text) then s' == e.query(s, stmt).0 && AnswersQuery(e.query(s, stmt).1, r)
    else s' == e.exec(s, stmt).0 && AnswersExec(e.exec(s, stmt).1, r)
  }

  lemma QueryIsAnswered(outcome: Result<RowSet>)
    ensures AnswersQuery(outcome, QueryResponse(outcome))
  {
    if outcome.Ok? && outcome.value.columns.Ok? {
      CollectMeaning(outcome.value.rows);
    }
  }

  lemma RunIsSubmitted<S>(e: Engine<S>, s: S, text: string, params: seq<Value>)
    requires !Blank(text)
    ensures var stmt := Stmt(TrimSpace(text), params);
            Submitted(e, s, text, params, Run(e, s, stmt).0, Run(e, s, stmt).1)
    ensures Effect(e, s, Stmt(text, params)) == Run(e, s, Stmt(TrimSpace(text), params)).0
  {
    ReadIff(text);
    ClassifiersAgree(text);
    QueryIsAnswered(e.query(s, Stmt(TrimSpace(text), params)).1);
  }

  /** The positions of the queries that are not blank, in order. */
  ghost predicate Picks(queries: seq<string>, picks: seq<nat>) {
    && Increasing(picks) && Below(picks, |queries|)
    && (forall k: nat :: k in picks <==> k < |queries| && !Blank(queries[k]))
  }

  /** The states between the queries that are run, each query submitted in the state its predecessor left. */
  ghost predicate Steps<S>(e: Engine<S>, queries: seq<string>, picks: seq<nat>, states: seq<S>, results: seq<Response>) {
    && |results| == |picks| && |states| == |picks| + 1
    && forall i :: 0 <= i < |picks| ==>
         picks[i] < |queries| && Submitted(e, states[i], queries[picks[i]], [], states[i + 1], results[i])
  }

  /** A transaction: exactly the queries that are not blank are submitted, in order, from one state to the other. */
  ghost predicate Transacted<S(!new)>(e: Engine<S>, s: S, queries: seq<string>, s': S, results: seq<Response>) {
    exists picks, states ::
      Picks(queries, picks) && Steps(e, queries, picks, states, results) && states[0] == s && states[|picks|] == s'
  }

  ghost predicate RunAt(queries: seq<string>, run: seq<string>, picks: seq<nat>) {
    |picks| == |run| && forall i :: 0 <= i < |picks| ==> picks[i] < |queries| && run[i] == TrimSpace(queries[picks[i]])
  }

  lemma PicksNext(before: seq<string>, q: string, run: seq<string>, picks: seq<nat>, run': seq<string>, picks': seq<nat>)
    requires Picks(before, picks) && RunAt(before, run, picks)
    requires run' == (if Blank(q) then run else run + [TrimSpace(q)]) && picks' == if !Blank(q) then picks + [|before|] else picks
    ensures Picks(before + [q], picks') && RunAt(before + [q], run', picks')
  {
    var queries := before + [q];
    PickNext(picks, |before|, !Blank(q), picks');
    assert forall k: nat :: k < |before| ==> queries[k] == before[k];
    assert queries[|before|] == q;
    forall i | 0 <= i < |picks'| ensures picks'[i] < |queries| && run'[i] == TrimSpace(queries[picks'[i]]) {
      if i < |picks| { assert picks[i] in picks && queries[picks[i]] == before[picks[i]]; }
    }
  }

  lemma {:induction false} PicksOf(queries: seq<string>) returns (picks: seq<nat>)
    ensures Picks(queries, picks) && RunAt(queries, NonBlank(queries), picks)
  {
    picks := [];
    if queries != [] {
      var before, q := queries[..|queries| - 1], queries[|queries| - 1];
      assert queries == before + [q];
      var earlier := PicksOf(before);
      picks := if !Blank(q) then earlier + [|before|] else earlier;
      PicksNext(before, q, NonBlank(before), earlier, NonBlank(queries), picks);
    }
  }

  lemma StepIsSubmitted<S>(e: Engine<S>, before: S, after: S, q: string, r: Response, text: string)
    requires q == TrimSpace(text) != "" && after == Run(e, before, Plain(q)).0 && r == Run(e, before, Plain(q)).1
    ensures Submitted(e, before, text, [], after, r)
  {
    RunIsSubmitted(e, before, text, []);
  }

  lemma ReplayUpTo<S>(e: Engine<S>, s: S, run: seq<string>, i: nat)
    requires i < |run| && TrimSpace(run[i]) == run[i] != ""
    ensures Replay(e, s, run[..i + 1]) == Run(e, Replay(e, s, run[..i]), Plain(run[i])).0
  {
    assert run[..i + 1] == run[..i] + [run[i]];
    ReplayNext(e, s, run[..i], run[i]);
  }

  /** Answers in order, from the folds of the queries that are run, are those of a transaction. */
  lemma TransactionMeaning<S(!new)>(e: Engine<S>, s: S, queries: seq<string>, results: seq<Response>)
    requires AnswersInOrder(e, s, NonBlank(queries), results)
    ensures Transacted(e, s, queries, Replay(e, s, NonBlank(queries)), results)
  {
    var run := NonBlank(queries);
    var picks := PicksOf(queries);
    var states := seq(|run| + 1, i requires 0 <= i <= |run| => Replay(e, s, run[..i]));
    forall i | 0 <= i < |picks|
      ensures picks[i] < |queries| && Submitted(e, states[i], queries[picks[i]], [], states[i + 1], results[i])
    {
      assert picks[i] in picks;
      TrimIdempotent(queries[picks[i]]);
      ReplayUpTo(e, s, run, i);
      StepIsSubmitted(e, states[i], states[i + 1], run[i], results[i], queries[picks[i]]);
    }
    assert run[..0] == [] && run[..|run|] == run;
    assert Steps(e, queries, picks, states, results);
  }

  function Find<S>(databases: map<string, S>, name: string, default: S): S {
    if name in databases then databases[name] else default
  }

  /** Faults of the environment, as the executor meets them. */
  datatype Faults = Faults(open: Option<string>, begin: Option<string>, commit: Option<string>)

  const NO_FAULTS := Faults(None, None, None)

  class Executor<S(!new)> {
    const engine: Engine<S>
    var databases: map<string, S>

    constructor (engine: Engine<S>)
      ensures this.engine == engine && databases == map[]
    {
      this.engine := engine;
      databases := map[];
    }

    /** The state of a named database; a database that has never been opened is empty. */
    function Database(name: string): S
      reads this
    {
      Find(databases, name, engine.empty)
    }

    /** Scans the rows one by one and stops at the first that fails. The error result is never set. */
    method QueryTx(tx: S, q: string) returns (tx': S, res: Response, err: Option<string>)
      ensures err == None
      ensures tx' == engine.query(tx, Plain(q)).0
      ensures res == QueryResponse(engine.query(tx, Plain(q)).1)
    {
      err := None;
      var outcome;
      var r := engine.query(tx, Plain(q));
      tx', outcome := r.0, r.1;
      if outcome.Err? {
        return tx', Failed(outcome.error), None;
      }
      var rowSet := outcome.value;
      if rowSet.columns.Err? {
        return tx', Failed(rowSet.columns.error), None;
      }
      var allRows: seq<seq<Value>> := [];
      var i := 0;
      while i < |rowSet.rows|
        invariant 0 <= i <= |rowSet.rows|
        invariant Collect(rowSet.rows[..i]) == Ok(allRows)
      {
        assert rowSet.rows[..i + 1][..i] == rowSet.rows[..i];
        if rowSet.rows[i].Err? {
          CollectStopsAtError(rowSet.rows, i + 1);
          return tx', Failed(rowSet.rows[i].error), None;
        }
        allRows := allRows + [rowSet.rows[i].value];
        i := i + 1;
      }
      assert rowSet.rows[..i] == rowSet.rows;
      res := Response(rowSet.columns.value, allRows, "");
    }

    method ExecTx(tx: S, q: string) returns (tx': S, res: Response, err: Option<string>)
      ensures err == None
      ensures tx' == engine.exec(tx, Plain(q)).0
      ensures res == ExecResponse(engine.exec(tx, Plain(q)).1)
    {
      var r := engine.exec(tx, Plain(q));
      tx', err := r.0, None;
      match r.1
      case Err(error) => res := Failed(error);
      case Ok(affected) =>
        res := Response(["last_insert_id", "rows_affected"],
                        [[Integer(affected.lastInsertID), Integer(affected.rowsAffected)]], "");
    }

    /** One statement outside a transaction. */
    method ExecuteContext(name: string, query: string, params: seq<Value>, open: Option<string>)
        returns (r: Result<Response>)
      modifies this
      ensures open.Some? ==> r.Err? && databases == old(databases)
      ensures open.None? ==>
        && databases == old(databases)[name := Effect(engine, old(Database(name)), Stmt(query, params))]
        && r.Ok?
        && (Blank(query) ==> r.value == Failed("empty query"))
        && (!Blank(query) ==>
              r.value == Run(engine, old(Database(name)), Stmt(TrimSpace(query), params)).1)
      ensures open.None? && !Blank(query) ==>
        Submitted(engine, old(Database(name)), query, params, Database(name), r.value)
    {
      if !Blank(query) { RunIsSubmitted(engine, Database(name), query, params); }
      if open.Some? {
        return Err("open database: " + open.value);
      }
      var db := Database(name);
      databases := databases[name := db];
      var q := TrimSpace(query);
      if q == "" {
        return Ok(Failed("empty query"));
      }
      if DispatchOf(q) == ToQuery {
        var res := engine.query(db, Stmt(q, params));
        databases := databases[name := res.0];
        r := Ok(QueryResponse(res.1));
      } else {
        var res := engine.exec(db, Stmt(q, params));
        databases := databases[name := res.0];
        r := Ok(ExecResponse(res.1));
      }
    }

    /** One dispatched statement of a transaction. */
    method StatementTx(tx: S, q: string) returns (tx': S, res: Response, err: Option<string>)
      ensures err == None && (tx', res) == Run(engine, tx, Plain(q))
    {
      if DispatchOf(q) == ToQuery {
        tx', res, err := QueryTx(tx, q);
      } else {
        tx', res, err := ExecTx(tx, q);
      }
    }

    /** The transaction's loop. The branch for a statement helper's error is unreachable. */
    method StatementsTx(begin: S, queries: seq<string>) returns (tx: S, results: seq<Response>)
      ensures tx == Replay(engine, begin, NonBlank(queries))
      ensures AnswersInOrder(engine, begin, NonBlank(queries), results)
      ensures Transacted(engine, begin, queries, tx, results)
    {
      tx, results := begin, [];
      ghost var run: seq<string> := [];
      for k := 0 to |queries|
        invariant run == NonBlank(queries[..k])
        invariant tx == Replay(engine, begin, run)
        invariant AnswersInOrder(engine, begin, run, results)
      {
        NonBlankNext(queries, k);
        var q := TrimSpace(queries[k]);
        if q == "" {
          continue;
        }
        AnswersExtend(engine, begin, run, results, q);
        ReplayNext(engine, begin, run, q);
        var res: Response;
        var err: Option<string>;
        tx, res, err := StatementTx(tx, q);
        if err.Some? {
          assert false;
        }
        results := results + [res];
        run := run + [q];
      }
      assert queries[..|queries|] == queries;
      TransactionMeaning(engine, begin, queries, results);
    }

    /** A transaction: the statements run on a working copy that replaces the database on commit. */
    method ExecuteTransactionContext(name: string, queries: seq<string>, faults: Faults)
        returns (r: Result<seq<Response>>)
      modifies this
      ensures faults.open.Some? || faults.begin.Some? || faults.commit.Some? <==> r.Err?
      ensures r.Err? ==> forall n :: Database(n) == old(Database(n))
      ensures r.Ok? ==>
        && databases == old(databases)[name := Replay(engine, old(Database(name)), NonBlank(queries))]
        && AnswersInOrder(engine, old(Database(name)), NonBlank(queries), r.value)
      ensures r.Ok? ==> Transacted(engine, old(Database(name)), queries, Database(name), r.value)
    {
      if faults.open.Some? {
        return Err("open database: " + faults.open.value);
      }
      databases := databases[name := Database(name)];
      OpeningIsNeutral(old(databases), name, engine.empty);
      if faults.begin.Some? {
        return Err("begin transaction: " + faults.begin.value);
      }
      var tx, results := StatementsTx(databases[name], queries);
      if faults.commit.Some? {
        return Err("commit transaction: " + faults.commit.value);
      }
      databases := databases[name := tx];
      r := Ok(results);
    }
  }

  lemma OpeningIsNeutral<S>(databases: map<string, S>, name: string, default: S)
    ensures forall n :: Find(databases[name := Find(databases, name, default)], n, default)
                     == Find(databases, n, default)
  {
  }

  lemma NonBlankNext(queries: seq<string>, k: nat)
    requires k < |queries|
    ensures var q := TrimSpace(queries[k]);
            NonBlank(queries[..k + 1]) == if q == "" then NonBlank(queries[..k]) else NonBlank(queries[..k]) + [q]
    ensures TrimSpace(TrimSpace(queries[k])) == TrimSpace(queries[k])
  {
    assert queries[..k + 1][..k] == queries[..k];
    TrimIdempotent(queries[k]);
  }

  lemma ReplayNext<S>(e: Engine<S>, s: S, texts: seq<string>, q: string)
    requires TrimSpace(q) == q != ""
    ensures Replay(e, s, texts + [q]) == Run(e, Replay(e, s, texts), Plain(q)).0
  {
    assert (texts + [q])[..|texts|] == texts;
  }

  lemma CollectStopsAtError(rows: seq<Result<seq<Value>>>, k: nat)
    requires 0 < k <= |rows|
    requires Collect(rows[..k]).Err?
    ensures Collect(rows) == Collect(rows[..k])
    decreases |rows|
  {
    if k == |rows| {
      assert rows[..k] == rows;
    } else {
      assert rows[..|rows| - 1][..k] == rows[..k];
      CollectStopsAtError(rows[..|rows| - 1], k);
    }
  }

  /** A row set is answered in full exactly when every row scans; otherwise with the first error. */
  lemma {:induction false} CollectMeaning(rows: seq<Result<seq<Value>>>)
    ensures Collect(rows).Ok? <==> forall i :: 0 <= i < |rows| ==> rows[i].Ok?
    ensures Collect(rows).Ok? ==>
      |Collect(rows).value| == |rows| && forall i :: 0 <= i < |rows| ==> Ok(Collect(rows).value[i]) == rows[i]
    ensures Collect(rows).Err? ==>
      exists i :: 0 <= i < |rows| && rows[i] == Err(Collect(rows).error) && forall j :: 0 <= j < i ==> rows[j].Ok?
  {
    if rows != [] {
      var init := rows[..|rows| - 1];
      CollectMeaning(init);
      if Collect(init).Err? {
        var i :| 0 <= i < |init| && init[i] == Err(Collect(init).error) && forall j :: 0 <= j < i ==> init[j].Ok?;
        assert rows[i] == Err(Collect(rows).error);
        assert forall j :: 0 <= j < i ==> rows[j] == init[j];
      } else {
        assert forall j :: 0 <= j < |init| ==> rows[j] == init[j];
        if rows[|rows| - 1].Err? {
          assert rows[|rows| - 1] == Err(Collect(rows).error);
        }
      }
    }
  }

  lemma AnswersExtend<S>(e: Engine<S>, s: S, run: seq<string>, results: seq<Response>, q: string)
    requires AnswersInOrder(e, s, run, results)
    ensures AnswersInOrder(e, s, run + [q], results + [Run(e, Replay(e, s, run), Plain(q)).1])
  {
    var run' := run + [q];
    assert forall i :: 0 <= i <= |run| ==> run'[..i] == run[..i];
    assert run[..|run|] == run;
  }
}
