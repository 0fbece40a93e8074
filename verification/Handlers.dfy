/**
 The request handlers of the primary (internal/server/routes.go): screening first, then the
 replication log, then execution. A failed log insert is audited and otherwise ignored, and
 nothing takes a logged statement back when the execution fails.
 */
module Handlers {
  import opened Text
  import opened Statements
  import opened Executor
  import opened ReplicationLog
  import opened Redelivery
  import opened Selection
  import opened Wrappers

  function Target(database: string): string {
    if database == "" then "main" else database
  }

  datatype Reply = BadRequest | Forbidden | InternalError(error: string) | Answer(responses: seq<Response>)

  /** The log has grown at its end, by these texts for this database and by nothing else. */
  ghost predicate Appended(before: seq<Entry>, after: seq<Entry>, d: string, texts: seq<string>) {
    && before <= after
    && |after| == |before| + |texts|
    && forall n :: TextsFor(after, n) == TextsFor(before, n) + if n == d then texts else []
  }

  lemma NothingAppended(log: seq<Entry>, d: string)
    ensures Appended(log, log, d, [])
  {
  }

  lemma OneMoreAppended(before: seq<Entry>, after: seq<Entry>, d: string, texts: seq<string>, x: Entry)
    requires Appended(before, after, d, texts) && x.database == d
    ensures Appended(before, after + [x], d, texts + [x.query])
  {
    forall n ensures TextsFor(after + [x], n) == TextsFor(before, n) + if n == d then texts + [x.query] else [] {
      TextsForAppend(after, x, n);
    }
  }

  lemma AppendedAgain(a: seq<Entry>, b: seq<Entry>, c: seq<Entry>, d: string, s: seq<string>, t: seq<string>)
    requires Appended(a, b, d, s) && Appended(b, c, d, t)
    ensures Appended(a, c, d, s + t)
  {
  }

  /** Does the handler want this query of a transaction in the log? */
  predicate Loggable(query: string) {
    !Blank(query) && IsWriteQuery(TrimSpace(query))
  }

  /** The texts a transaction leaves in the log, when the k-th query's insert fails as given. */
  function LoggedOf(queries: seq<string>, fault: nat -> Option<string>): seq<string> {
    if queries == [] then []
    else
      var k := |queries| - 1;
      LoggedOf(queries[..k], fault)
      + if Loggable(queries[k]) && fault(k).None? then [TrimSpace(queries[k])] else []
  }

  lemma LoggedOfNext(queries: seq<string>, k: nat, fault: nat -> Option<string>)
    requires k < |queries|
    ensures LoggedOf(queries[..k + 1], fault) ==
      LoggedOf(queries[..k], fault) + if Loggable(queries[k]) && fault(k).None? then [TrimSpace(queries[k])] else []
  {
    assert queries[..k + 1][..k] == queries[..k];
  }

  /** The k-th query is not blank, is a write, and its insert works. */
  predicate Leaves(queries: seq<string>, fault: nat -> Option<string>, k: nat) {
    k < |queries| && !Blank(queries[k]) && IsWriteQuery(queries[k]) && fault(k).None?
  }

  /** The texts are those of exactly these positions, trimmed, in order. */
  ghost predicate LoggedAt(queries: seq<string>, fault: nat -> Option<string>, texts: seq<string>, picks: seq<nat>) {
    && |picks| == |texts| && Increasing(picks) && Below(picks, |queries|)
    && (forall i :: 0 <= i < |picks| ==> picks[i] < |queries| && texts[i] == TrimSpace(queries[picks[i]]))
    && (forall k: nat :: k in picks <==> Leaves(queries, fault, k))
  }

  lemma LeavesNext(before: seq<string>, q: string, fault: nat -> Option<string>, k: nat)
    ensures k < |before| ==> (Leaves(before + [q], fault, k) <==> Leaves(before, fault, k))
    ensures k == |before| ==> (Leaves(before + [q], fault, k) <==> Loggable(q) && fault(k).None?)
    ensures k > |before| ==> !Leaves(before + [q], fault, k)
  {
    ClassificationIgnoresOuterSpace(q);
  }

  lemma LoggedAtNext(before: seq<string>, q: string, fault: nat -> Option<string>, texts: seq<string>, picks: seq<nat>,
                     pick: bool, texts': seq<string>, picks': seq<nat>)
    requires LoggedAt(before, fault, texts, picks) && (pick <==> Loggable(q) && fault(|before|).None?)
    requires texts' == (if pick then texts + [TrimSpace(q)] else texts) && picks' == if pick then picks + [|before|] else picks
    ensures LoggedAt(before + [q], fault, texts', picks')
  {
    PickNext(picks, |before|, pick, picks');
    forall k: nat ensures k in picks' <==> Leaves(before + [q], fault, k) {
      LeavesNext(before, q, fault, k);
    }
    var queries := before + [q];
    forall i | 0 <= i < |picks'| ensures picks'[i] < |queries| && texts'[i] == TrimSpace(queries[picks'[i]]) {
      if i < |picks| { assert picks[i] in picks && queries[picks[i]] == before[picks[i]]; }
    }
  }

  /** What a transaction leaves in the log, query by query: a failing insert costs its own query and no other. */
  lemma {:induction false} LoggedQueries(queries: seq<string>, fault: nat -> Option<string>) returns (picks: seq<nat>)
    ensures LoggedAt(queries, fault, LoggedOf(queries, fault), picks)
  {
    picks := [];
    if queries != [] {
      var before, q := queries[..|queries| - 1], queries[|queries| - 1];
      assert queries == before + [q];
      var earlier := LoggedQueries(before, fault);
      var pick := Loggable(q) && fault(|before|).None?;
      picks := if pick then earlier + [|before|] else earlier;
      assert LoggedOf(before, fault) + [] == LoggedOf(before, fault);
      LoggedAtNext(before, q, fault, LoggedOf(before, fault), earlier, pick, LoggedOf(queries, fault), picks);
    }
  }

  /** Some query that is not blank is refused. */
  ghost predicate AnyRefused(queries: seq<string>, granted: Option<set<Permission>>) {
    exists i :: 0 <= i < |queries| && !Blank(queries[i]) && Refused(queries[i], granted)
  }

  class Handler<S(!new)> {
    const executor: Executor<S>
    const systemDB: SystemDB
    const replicating: bool    // a replication engine is attached

    constructor (executor: Executor<S>, systemDB: SystemDB, replicating: bool)
      ensures this.executor == executor && this.systemDB == systemDB && this.replicating == replicating
    {
      this.executor, this.systemDB, this.replicating := executor, systemDB, replicating;
    }

    /** The screening of one statement. */
    method ScreenOne(q: string, granted: Option<set<Permission>>) returns (ok: bool)
      ensures ok <==> !Refused(q, granted)
    {
      DangerousIff(q);
      if granted.Some? { LacksIff(q, granted.value); }
      if IsDangerous(q) {
        return false;
      }
      var permission := RequiredPermission(IdentifyType(q));
      if permission.Some? && granted.Some? && permission.value !in granted.value {
        return false;
      }
      ok := true;
    }

    /** A write statement is offered to the log; if the insert fails, the request goes on all the same. */
    method LogOne(d: string, q: string, fault: Option<string>)
      requires systemDB.Valid()
      modifies systemDB`log, systemDB`sequence
      ensures systemDB.Valid()
      ensures Appended(old(systemDB.log), systemDB.log, d, if IsWriteQuery(q) && fault.None? then [q] else [])
    {
      NothingAppended(systemDB.log, d);
      if IsWriteQuery(q) {
        ghost var before := systemDB.log;
        var id := systemDB.LogReplication(d, q, fault);
        if id.Ok? {
          OneMoreAppended(before, before, d, [], Entry(id.value, d, q));
        }
      }
    }

    /** Nothing is logged or executed unless the screening lets the statement through. */
    method HandleQuery(database: string, text: string, params: seq<Value>, granted: Option<set<Permission>>,
                       logFault: Option<string>, open: Option<string>) returns (reply: Reply)
      requires systemDB.Valid()
      modifies executor, systemDB`log, systemDB`sequence
      ensures systemDB.Valid()
      ensures text == "" <==> reply == BadRequest
      ensures text != "" && Refused(text, granted) <==> reply == Forbidden
      ensures reply in {BadRequest, Forbidden} ==>
        systemDB.log == old(systemDB.log) && executor.databases == old(executor.databases)
      ensures reply !in {BadRequest, Forbidden} ==>
        var d := if database == "" then "main" else database;
        && Appended(old(systemDB.log), systemDB.log, d,
                    if replicating && IsWriteQuery(text) && logFault.None? then [text] else [])
        && executor.databases == (
             if open.Some? then old(executor.databases)
             else old(executor.databases)[d := Effect(executor.engine, old(executor.Database(d)), Stmt(text, params))])
        && (open.Some? <==> reply.InternalError?)
      ensures reply.Answer? ==>
        var d := if database == "" then "main" else database;
        && |reply.responses| == 1
        && if Blank(text) then reply.responses[0] == Response([], [], "empty query")
           else Submitted(executor.engine, old(executor.Database(d)), text, params, executor.Database(d), reply.responses[0])
    {
      if text == "" {
        return BadRequest;
      }
      var ok := ScreenOne(text, granted);
      if !ok {
        return Forbidden;
      }
      var d := Target(database);
      if replicating {
        LogOne(d, text, logFault);
      } else {
        NothingAppended(systemDB.log, d);
      }
      var r := executor.ExecuteContext(d, text, params, open);
      reply := match r case Err(error) => InternalError(error) case Ok(response) => Answer([response]);
    }

    /** The screening loop of a transaction. */
    method Screen(queries: seq<string>, granted: Option<set<Permission>>) returns (ok: bool)
      ensures ok <==> !AnyRefused(queries, granted)
    {
      for k := 0 to |queries|
        invariant forall i :: 0 <= i < k && !Blank(queries[i]) ==> !Refused(queries[i], granted)
      {
        var q := TrimSpace(queries[k]);
        if q == "" {
          continue;
        }
        RefusedIgnoresOuterSpace(queries[k], granted);
        ok := ScreenOne(q, granted);
        if !ok {
          return;
        }
      }
      ok := true;
    }

    /** The logging loop of a transaction. */
    method LogAll(d: string, queries: seq<string>, logFault: nat -> Option<string>)
      requires systemDB.Valid()
      modifies systemDB`log, systemDB`sequence
      ensures systemDB.Valid()
      ensures Appended(old(systemDB.log), systemDB.log, d, LoggedOf(queries, logFault))
    {
      NothingAppended(systemDB.log, d);
      for k := 0 to |queries|
        invariant systemDB.Valid()
        invariant Appended(old(systemDB.log), systemDB.log, d, LoggedOf(queries[..k], logFault))
      {
        LoggedOfNext(queries, k, logFault);
        var q := TrimSpace(queries[k]);
        if q == "" {
          continue;
        }
        ghost var before := systemDB.log;
        LogOne(d, q, logFault(k));
        AppendedAgain(old(systemDB.log), before, systemDB.log, d, LoggedOf(queries[..k], logFault),
                      if IsWriteQuery(q) && logFault(k).None? then [q] else []);
      }
      assert queries[..|queries|] == queries;
    }

    /** The queries that get through the screening are logged, and then run. */
    method LogAndRun(d: string, queries: seq<string>, logFault: nat -> Option<string>, faults: Faults) returns (reply: Reply)
      requires systemDB.Valid()
      modifies executor, systemDB`log, systemDB`sequence
      ensures systemDB.Valid()
      ensures Appended(old(systemDB.log), systemDB.log, d, if replicating then LoggedOf(queries, logFault) else [])
      ensures reply.Answer? || reply.InternalError?
      ensures reply.InternalError? <==> faults != NO_FAULTS
      ensures reply.InternalError? ==> forall n :: executor.Database(n) == old(executor.Database(n))
      ensures reply.Answer? ==>
        var before := old(executor.Database(d));
        && executor.databases == old(executor.databases)[d := Replay(executor.engine, before, NonBlank(queries))]
        && AnswersInOrder(executor.engine, before, NonBlank(queries), reply.responses)
        && Transacted(executor.engine, before, queries, executor.Database(d), reply.responses)
    {
      if replicating {
        LogAll(d, queries, logFault);
      } else {
        NothingAppended(systemDB.log, d);
      }
      var r := executor.ExecuteTransactionContext(d, queries, faults);
      reply := match r case Err(error) => InternalError(error) case Ok(responses) => Answer(responses);
    }

    /** All queries are screened before the first is logged, and logged before the first is executed. */
    method HandleTransaction(database: string, queries: seq<string>, granted: Option<set<Permission>>,
                             logFault: nat -> Option<string>, faults: Faults) returns (reply: Reply)
      requires systemDB.Valid()
      modifies executor, systemDB`log, systemDB`sequence
      ensures systemDB.Valid()
      ensures queries == [] <==> reply == BadRequest
      ensures queries != [] && AnyRefused(queries, granted) <==> reply == Forbidden
      ensures reply in {BadRequest, Forbidden} ==>
        systemDB.log == old(systemDB.log) && executor.databases == old(executor.databases)
      ensures reply !in {BadRequest, Forbidden} ==>
        var d := if database == "" then "main" else database;
        && Appended(old(systemDB.log), systemDB.log, d, if replicating then LoggedOf(queries, logFault) else [])
        && (reply.InternalError? <==> faults != NO_FAULTS)
      ensures reply.InternalError? ==> forall n :: executor.Database(n) == old(executor.Database(n))
      ensures reply.Answer? ==>
        var d := if database == "" then "main" else database;
        var before := old(executor.Database(d));
        && executor.databases == old(executor.databases)[d := Replay(executor.engine, before, NonBlank(queries))]
        && AnswersInOrder(executor.engine, before, NonBlank(queries), reply.responses)
        && Transacted(executor.engine, before, queries, executor.Database(d), reply.responses)
    {
      if queries == [] {
        return BadRequest;
      }
      var ok := Screen(queries, granted);
      if !ok {
        return Forbidden;
      }
      reply := LogAndRun(Target(database), queries, logFault, faults);
    }
  }

  // --------------------------------------- when a request leaves log and database in step

  /** What a query request leaves in the log. */
  function LoggedQuery(text: string, inserted: bool): seq<string> {
    if IsWriteQuery(text) && inserted then [text] else []
  }

  /** The condition under which a query request leaves the log and the database in step. */
  predicate QueryInStep(text: string, params: seq<Value>, inserted: bool, ran: bool) {
    !IsWriteQuery(text) || Blank(text) || (inserted == ran && (ran ==> params == []))
  }

  /**
   A query request keeps log and database in step, for every engine, if it is a read or
   blank, or if it is logged exactly when it runs and carries no parameters; for an engine
   that tells histories apart, only then.
   */
  lemma QueryInStepIff<S(!new)>(e: Engine<S>, s: S, r: seq<Stmt>, text: string, params: seq<Value>, inserted: bool, ran: bool)
    requires ReadsAreNeutral(e)
    ensures QueryInStep(text, params, inserted, ran) ==>
      Replay(e, s, LoggedQuery(text, inserted)) == if ran then Effect(e, s, Stmt(text, params)) else s
    ensures
      var rec := Recorder();
      QueryInStep(text, params, inserted, ran) <==>
      Replay(rec, r, LoggedQuery(text, inserted)) == if ran then Effect(rec, r, Stmt(text, params)) else r
  {
    ClassifiersAgree(text);
    assert [text][..0] == [];
    RecorderEffect(r, Plain(text));
    RecorderEffect(r, Stmt(text, params));
    assert Replay(e, s, [text]) == Effect(e, Replay(e, s, []), Plain(text));
    assert Replay(Recorder(), r, [text]) == Effect(Recorder(), Replay(Recorder(), r, []), Plain(text));
    assert Stmt(TrimSpace(text), params) != Stmt(TrimSpace(text), []) <==> params != [];
    RecordingDiffers(r, Stmt(TrimSpace(text), []), Stmt(TrimSpace(text), params));
  }

  lemma RecordingDiffers(r: seq<Stmt>, a: Stmt, b: Stmt)
    ensures r + [a] == r + [b] <==> a == b
    ensures r + [a] != r && r + [b] != r
  {
    assert (r + [a])[|r|] == a && (r + [b])[|r|] == b;
    assert |r + [a]| == |r| + 1 == |r + [b]|;
  }

  /** Each of the first `k` queries that the log should have is there exactly if the transaction commits. */
  ghost predicate FatesAgree(queries: seq<string>, logFault: nat -> Option<string>, committed: bool, k: nat)
    requires k <= |queries|
  {
    k == 0 || (FatesAgree(queries, logFault, committed, k - 1)
               && (Loggable(queries[k - 1]) ==> (logFault(k - 1).None? <==> committed)))
  }

  ghost predicate TransactionInStep(queries: seq<string>, logFault: nat -> Option<string>, committed: bool) {
    FatesAgree(queries, logFault, committed, |queries|)
  }

  lemma {:induction false} FatesAgreeMeaning(queries: seq<string>, logFault: nat -> Option<string>, committed: bool, k: nat)
    requires k <= |queries|
    ensures FatesAgree(queries, logFault, committed, k) <==>
      forall i: nat :: i < k && Loggable(queries[i]) ==> (logFault(i).None? <==> committed)
  {
    if k > 0 {
      FatesAgreeMeaning(queries, logFault, committed, k - 1);
    }
  }

  lemma WritesNext(queries: seq<string>, k: nat)
    requires k < |queries|
    ensures Writes(NonBlank(queries[..k + 1])) ==
      Writes(NonBlank(queries[..k])) + if Loggable(queries[k]) then [TrimSpace(queries[k])] else []
  {
    NonBlankNext(queries, k);
    WritesAppend(NonBlank(queries[..k]), TrimSpace(queries[k]));
  }

  /** One more query, of which the log has got something if `inserted`, and should have if `wanted`. */
  lemma LoggedStep(logged: seq<string>, writes: seq<string>, q: string, wanted: bool, inserted: bool)
    requires |logged| <= |writes| && (|logged| == |writes| <==> logged == writes) && (inserted ==> wanted)
    ensures var logged', writes' := logged + if inserted then [q] else [], writes + if wanted then [q] else [];
            && |logged'| <= |writes'|
            && (|logged'| == |writes'| <==> |logged| == |writes| && (wanted ==> inserted))
            && (|logged'| == |writes'| <==> logged' == writes')
            && (logged' == [] <==> logged == [] && !inserted)
  {
    assert logged + [] == logged && writes + [] == writes;
  }

  ghost predicate LoggedRight(logged: seq<string>, writes: seq<string>, queries: seq<string>, logFault: nat -> Option<string>, k: nat)
    requires k <= |queries|
  {
    && |logged| <= |writes|
    && (|logged| == |writes| <==> FatesAgree(queries, logFault, true, k))
    && (|logged| == |writes| <==> logged == writes)
    && (logged == [] <==> FatesAgree(queries, logFault, false, k))
  }

  lemma LoggedRightNext(logged: seq<string>, writes: seq<string>, queries: seq<string>, logFault: nat -> Option<string>, k: nat,
                        logged': seq<string>, writes': seq<string>)
    requires k < |queries| && LoggedRight(logged, writes, queries, logFault, k)
    requires var q := TrimSpace(queries[k]);
             && logged' == logged + (if Loggable(queries[k]) && logFault(k).None? then [q] else [])
             && writes' == writes + (if Loggable(queries[k]) then [q] else [])
    ensures LoggedRight(logged', writes', queries, logFault, k + 1)
  {
    LoggedStep(logged, writes, TrimSpace(queries[k]), Loggable(queries[k]), Loggable(queries[k]) && logFault(k).None?);
  }

  /** Everything a transaction writes is in the log exactly when no insert failed; nothing, when all did. */
  lemma {:induction false} LoggedIff(queries: seq<string>, logFault: nat -> Option<string>, k: nat)
    requires k <= |queries|
    ensures LoggedRight(LoggedOf(queries[..k], logFault), Writes(NonBlank(queries[..k])), queries, logFault, k)
  {
    if k > 0 {
      LoggedIff(queries, logFault, k - 1);
      LoggedIffNext(queries, logFault, k - 1, queries[..k - 1], queries[..k]);
    }
  }

  lemma LoggedIffNext(queries: seq<string>, logFault: nat -> Option<string>, k: nat, before: seq<string>, after: seq<string>)
    requires k < |queries| && before == queries[..k] && after == queries[..k + 1]
    requires LoggedRight(LoggedOf(before, logFault), Writes(NonBlank(before)), queries, logFault, k)
    ensures LoggedRight(LoggedOf(after, logFault), Writes(NonBlank(after)), queries, logFault, k + 1)
  {
    LoggedOfNext(queries, k, logFault);
    WritesNext(queries, k);
    LoggedRightNext(LoggedOf(before, logFault), Writes(NonBlank(before)), queries, logFault, k,
                    LoggedOf(after, logFault), Writes(NonBlank(after)));
  }

  /** A recorder grows by one for every non-blank write it is given. */
  lemma {:induction false} RecorderGrows(r: seq<Stmt>, texts: seq<string>)
    requires forall q :: q in texts ==> IsWriteQuery(q) && !Blank(q)
    ensures |Replay(Recorder(), r, texts)| == |r| + |texts|
  {
    if texts != [] {
      var k := |texts| - 1;
      assert forall q :: q in texts[..k] ==> q in texts;
      assert texts[k] in texts;
      RecorderGrows(r, texts[..k]);
      RecorderEffect(Replay(Recorder(), r, texts[..k]), Plain(texts[k]));
    }
  }

  lemma LoggedAreWrites(queries: seq<string>, logFault: nat -> Option<string>)
    ensures forall q :: q in LoggedOf(queries, logFault) ==> IsWriteQuery(q) && !Blank(q)
    ensures forall q :: q in Writes(NonBlank(queries)) ==> IsWriteQuery(q) && !Blank(q)
  {
    if queries != [] {
      var k := |queries| - 1;
      LoggedAreWrites(queries[..k], logFault);
      WritesNext(queries, k);
      assert queries[..k + 1] == queries;
      TrimIdempotent(queries[k]);
    }
  }

  /**
   A transaction request keeps log and database in step, for every engine, if each of its
   write statements is logged exactly when the transaction commits; for an engine that tells
   histories apart, only then.
   */
  lemma TransactionInStepIff<S(!new)>(
      e: Engine<S>, s: S, r: seq<Stmt>, queries: seq<string>, logFault: nat -> Option<string>, committed: bool)
    requires ReadsAreNeutral(e)
    ensures TransactionInStep(queries, logFault, committed) ==>
      Replay(e, s, LoggedOf(queries, logFault)) == if committed then Replay(e, s, NonBlank(queries)) else s
    ensures
      var rec := Recorder();
      TransactionInStep(queries, logFault, committed) <==>
      Replay(rec, r, LoggedOf(queries, logFault)) == if committed then Replay(rec, r, NonBlank(queries)) else r
  {
    assert queries[..|queries|] == queries;
    LoggedIff(queries, logFault, |queries|);
    WritesAlone(e, s, NonBlank(queries));
    WritesAlone(Recorder(), r, NonBlank(queries));
    LoggedAreWrites(queries, logFault);
    RecorderGrows(r, LoggedOf(queries, logFault));
    RecorderGrows(r, Writes(NonBlank(queries)));
  }
}
