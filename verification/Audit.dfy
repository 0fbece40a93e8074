/**
 The audit pipeline (internal/database/system.go): a bounded channel, senders that never wait,
 flushers that wait for their marker to come through, and one worker. The machine's steps are
 the atomic actions of these goroutines, in any interleaving. A step that is not possible in a
 state changes nothing.
 */
module Audit {
  import opened Wrappers

  const CAPACITY := 1024

  datatype AuditEntry = AuditEntry(
    userID: Option<int>, username: string, ip: string, query: string, endpoint: string, status: string)

  /** An entry to be stored, or a flusher's marker, a channel of its own. */
  datatype Message = Entry(entry: AuditEntry) | Marker(id: nat)

  /** What the worker is doing. If it cannot prepare its statement it stops for good. */
  datatype Worker = Starting | Waiting | Holding(message: Message) | Stopped

  datatype Pipeline = Pipeline(
    queue: seq<Message>,
    closed: bool,
    worker: Worker,           // Stopped means that auditDone is closed
    prepared: bool,
    rows: seq<AuditEntry>,                // the table
    released: set<nat>,          // the markers whose channel is closed
    // history
    enqueued: seq<Message>,   // everything the channel has accepted
    handled: seq<Message>,    // everything the worker is done with
    inserts: seq<bool>,       // for every entry handled: did its insert work?
    submitted: nat,
    dropped: nat,
    waiting: set<nat>)           // flushers whose marker is in the channel and not released yet

  function Fresh(): Pipeline {
    Pipeline([], false, Starting, false, [], {}, [], [], [], 0, 0, {})
  }

  datatype Action =
    | Log(entry: AuditEntry)              // LogAudit: one attempt, dropped if the channel is full
    | Flush(id: nat)             // FlushAuditLog: its marker goes into the channel when there is room
    | Close
    | Prepare(ok: bool)
    | Receive
    | Insert(ok: bool)
    | Release
    | Finish                     // the channel is closed and empty: the worker's loop ends

  predicate HasRoom(p: Pipeline) {
    !p.closed && |p.queue| < CAPACITY
  }

  function Send(p: Pipeline, m: Message): Pipeline {
    p.(queue := p.queue + [m], enqueued := p.enqueued + [m])
  }

  function Take(p: Pipeline): Pipeline
    requires p.queue != []
  {
    p.(queue := p.queue[1..], worker := Holding(p.queue[0]))
  }

  /** The worker is done with the message it holds. */
  function Done(p: Pipeline): Pipeline
    requires p.worker.Holding?
  {
    p.(worker := Waiting, handled := p.handled + [p.worker.message])
  }

  predicate Holds(p: Pipeline, marker: bool) {
    p.worker.Holding? && p.worker.message.Marker? == marker
  }

  /** Sending on a closed channel would panic, so no sender acts after `Close`. */
  function Next(p: Pipeline, a: Action): Pipeline {
    match a
    case Log(entry) =>
      if p.closed then p
      else if HasRoom(p) then Send(p, Message.Entry(entry)).(submitted := p.submitted + 1)
      else p.(submitted := p.submitted + 1, dropped := p.dropped + 1)
    case Flush(id) =>
      if HasRoom(p) && Marker(id) !in p.enqueued then Send(p, Marker(id)).(waiting := p.waiting + {id}) else p
    case Close => p.(closed := true)
    case Prepare(ok) =>
      if p.worker.Starting? then p.(worker := if ok then Waiting else Stopped, prepared := ok) else p
    case Receive => if p.worker.Waiting? && p.queue != [] then Take(p) else p
    case Insert(ok) =>
      if Holds(p, false) then
        Done(p).(rows := if ok then p.rows + [p.worker.message.entry] else p.rows, inserts := p.inserts + [ok])
      else p
    case Release =>
      if Holds(p, true) then
        Done(p).(released := p.released + {p.worker.message.id}, waiting := p.waiting - {p.worker.message.id})
      else p
    case Finish => if p.worker.Waiting? && p.closed && p.queue == [] then p.(worker := Stopped) else p
  }

  function Run(actions: seq<Action>): Pipeline {
    if actions == [] then Fresh()
    else Next(Run(actions[..|actions| - 1]), actions[|actions| - 1])
  }

  function Entries(messages: seq<Message>): (r: seq<AuditEntry>)
    ensures |r| <= |messages|
  {
    if messages == [] then []
    else
      var m := messages[|messages| - 1];
      Entries(messages[..|messages| - 1]) + if m.Entry? then [m.entry] else []
  }

  lemma {:induction false} EntriesAppend(a: seq<Message>, b: seq<Message>)
    ensures Entries(a + b) == Entries(a) + Entries(b)
    decreases |b|
  {
    if b == [] {
      assert a + b == a;
    } else {
      assert (a + b)[..|a + b| - 1] == a + b[..|b| - 1];
      EntriesAppend(a, b[..|b| - 1]);
    }
  }

  /** The entries whose insert worked, in order. */
  function Stored(entries: seq<AuditEntry>, inserts: seq<bool>): seq<AuditEntry>
    requires |entries| == |inserts|
  {
    if entries == [] then []
    else
      var k := |entries| - 1;
      Stored(entries[..k], inserts[..k]) + if inserts[k] then [entries[k]] else []
  }

  lemma {:induction false} AllStored(entries: seq<AuditEntry>, inserts: seq<bool>)
    requires |entries| == |inserts| && false !in inserts
    ensures Stored(entries, inserts) == entries
  {
    if entries != [] {
      var k := |entries| - 1;
      assert inserts[k] in inserts && forall b :: b in inserts[..k] ==> b in inserts;
      AllStored(entries[..k], inserts[..k]);
      assert entries == entries[..k] + [entries[k]];
    }
  }

  lemma StoredNext(entries: seq<AuditEntry>, inserts: seq<bool>, x: AuditEntry, ok: bool)
    requires |entries| == |inserts|
    ensures Stored(entries + [x], inserts + [ok]) == if ok then Stored(entries, inserts) + [x] else Stored(entries, inserts)
  {
    assert (entries + [x])[..|entries|] == entries && (inserts + [ok])[..|inserts|] == inserts;
    assert Stored(entries, inserts) + [] == Stored(entries, inserts);
  }

  lemma EntriesNext(messages: seq<Message>, m: Message)
    ensures Entries(messages + [m]) == if m.Entry? then Entries(messages) + [m.entry] else Entries(messages)
  {
    assert (messages + [m])[..|messages|] == messages;
    assert Entries(messages) + [] == Entries(messages);
  }

  function InHand(p: Pipeline): seq<Message> {
    if p.worker.Holding? then [p.worker.message] else []
  }

  function Markers(messages: seq<Message>): set<nat> {
    set m | m in messages && m.Marker? :: m.id
  }

  /**
   Conservation and order: what has gone into the channel is, in order, what the worker is
   done with, then what it holds, then what is queued.
   */
  ghost predicate Conserved(p: Pipeline) {
    && p.enqueued == p.handled + InHand(p) + p.queue
    && |p.queue| <= CAPACITY
    && p.submitted == |Entries(p.enqueued)| + p.dropped
    && (p.worker.Stopped? && p.prepared ==> p.closed && p.queue == [])
    && (!p.prepared ==> p.handled == [] && (p.worker.Starting? || p.worker.Stopped?))
    && (p.prepared ==> !p.worker.Starting?)
  }

  ghost predicate StoredInOrder(p: Pipeline) {
    && |p.inserts| == |Entries(p.handled)|
    && p.rows == Stored(Entries(p.handled), p.inserts)
  }

  ghost predicate FlushersServed(p: Pipeline) {
    && p.released == Markers(p.handled)
    && p.waiting == Markers(InHand(p) + p.queue)
    && MarkersOnce(p.enqueued)
  }

  ghost predicate MarkersOnce(messages: seq<Message>) {
    forall i, j :: 0 <= i < j < |messages| && messages[i].Marker? ==> messages[i] != messages[j]
  }

  ghost predicate Inv(p: Pipeline) {
    Conserved(p) && StoredInOrder(p) && FlushersServed(p)
  }

  lemma AddedBehind(a: seq<Message>, b: seq<Message>, m: Message)
    ensures (a + b) + [m] == a + (b + [m])
  {
  }

  lemma SendConserves(p: Pipeline, m: Message, p': Pipeline)
    requires Conserved(p) && HasRoom(p)
    requires p' == Send(p, m).(submitted := if m.Entry? then p.submitted + 1 else p.submitted, waiting := p'.waiting)
    ensures Conserved(p')
  {
    EntriesNext(p.enqueued, m);
    AddedBehind(p.handled + InHand(p), p.queue, m);
  }

  lemma TakeConserves(p: Pipeline, p': Pipeline)
    requires Conserved(p) && p.worker.Waiting? && p.queue != [] && p' == Take(p)
    ensures Conserved(p')
  {
    assert p.handled + [] + p.queue == p.handled + [p.queue[0]] + p.queue[1..];
  }

  /** Only what is stored and released may differ from `Done`. */
  lemma DoneConserves(p: Pipeline, p': Pipeline)
    requires Conserved(p) && p.worker.Holding?
    requires p' == Done(p).(rows := p'.rows, inserts := p'.inserts, released := p'.released, waiting := p'.waiting)
    ensures Conserved(p')
  {
    assert p.handled + InHand(p) + p.queue == p.handled + InHand(p) + [] + p.queue;
  }

  lemma WorkerConserves(p: Pipeline, a: Action, p': Pipeline)
    requires Conserved(p) && (a == Receive || a.Insert? || a == Release) && p' == Next(p, a)
    ensures Conserved(p')
  {
    match a
    case Receive => if p.worker.Waiting? && p.queue != [] { TakeConserves(p, p'); }
    case Insert(ok) => if Holds(p, false) { DoneConserves(p, p'); }
    case Release => if Holds(p, true) { DoneConserves(p, p'); }
  }

  lemma StatusConserves(p: Pipeline, a: Action)
    requires Conserved(p) && (a == Close || a.Prepare? || a == Finish)
    ensures Conserved(Next(p, a))
  {
  }

  lemma ConservedStep(p: Pipeline, a: Action)
    requires Conserved(p)
    ensures Conserved(Next(p, a))
  {
    if a.Log? {
      if HasRoom(p) { SendConserves(p, Message.Entry(a.entry), Next(p, a)); }
    } else if a.Flush? {
      if HasRoom(p) && Marker(a.id) !in p.enqueued { SendConserves(p, Marker(a.id), Next(p, a)); }
    } else if a == Close || a.Prepare? || a == Finish {
      StatusConserves(p, a);
    } else {
      WorkerConserves(p, a, Next(p, a));
    }
  }

  lemma StoredStep(p: Pipeline, a: Action)
    requires StoredInOrder(p)
    ensures StoredInOrder(Next(p, a))
  {
    if p.worker.Holding? {
      var m := p.worker.message;
      EntriesNext(p.handled, m);
      if m.Entry? && a.Insert? {
        StoredNext(Entries(p.handled), p.inserts, m.entry, a.ok);
      }
    }
  }

  lemma MarkersAppend(a: seq<Message>, m: Message)
    ensures Markers(a + [m]) == Markers(a) + if m.Marker? then {m.id} else {}
  {
    assert forall x :: x in a + [m] <==> x in a || x == m;
  }

  lemma MarkersPrepend(m: Message, a: seq<Message>)
    ensures Markers([m] + a) == Markers(a) + if m.Marker? then {m.id} else {}
  {
    assert forall x :: x in [m] + a <==> x in a || x == m;
  }

  lemma MarkersOnceNext(messages: seq<Message>, m: Message)
    requires MarkersOnce(messages) && (m.Marker? ==> m !in messages)
    ensures MarkersOnce(messages + [m])
  {
  }

  lemma MarkersAfter(hand: seq<Message>, queue: seq<Message>, m: Message)
    ensures Markers(hand + (queue + [m])) == Markers(hand + queue) + if m.Marker? then {m.id} else {}
  {
    MarkersAppend(hand + queue, m);
    assert hand + (queue + [m]) == (hand + queue) + [m];
  }

  lemma SendServes(p: Pipeline, m: Message, p': Pipeline)
    requires FlushersServed(p) && (m.Marker? ==> m !in p.enqueued)
    requires p' == Send(p, m).(waiting := if m.Marker? then p.waiting + {m.id} else p.waiting, submitted := p'.submitted)
    ensures FlushersServed(p')
  {
    MarkersAfter(InHand(p), p.queue, m);
    MarkersOnceNext(p.enqueued, m);
  }

  lemma TakeServes(p: Pipeline)
    requires FlushersServed(p) && p.worker.Waiting? && p.queue != []
    ensures FlushersServed(Take(p))
  {
    assert InHand(Take(p)) + Take(p).queue == InHand(p) + p.queue;
  }

  lemma InsertServes(p: Pipeline)
    requires FlushersServed(p) && Holds(p, false)
    ensures FlushersServed(Done(p))
  {
    MarkersAppend(p.handled, p.worker.message);
    MarkersPrepend(p.worker.message, p.queue);
    assert InHand(Done(p)) + p.queue == p.queue;
  }

  lemma HeldOnce(p: Pipeline)
    requires Conserved(p) && FlushersServed(p) && Holds(p, true)
    ensures p.worker.message !in p.queue
  {
    var m, k := p.worker.message, |p.handled|;
    assert p.enqueued[k] == m;
    forall j | 0 <= j < |p.queue| ensures p.queue[j] != m {
      assert p.enqueued[k + 1 + j] == p.queue[j];
    }
  }

  lemma ReleaseServes(p: Pipeline)
    requires Conserved(p) && FlushersServed(p) && Holds(p, true)
    ensures FlushersServed(Next(p, Release))
  {
    var m := p.worker.message;
    HeldOnce(p);
    MarkersAppend(p.handled, m);
    MarkersPrepend(m, p.queue);
    assert InHand(Next(p, Release)) + p.queue == p.queue;
    MarkersMember(p.queue, m);
  }

  lemma FlushersStep(p: Pipeline, a: Action)
    requires Conserved(p) && FlushersServed(p)
    ensures FlushersServed(Next(p, a))
  {
    match a
    case Log(entry) => if HasRoom(p) { SendServes(p, Message.Entry(entry), Next(p, a)); }
    case Flush(id) => if HasRoom(p) && Marker(id) !in p.enqueued { SendServes(p, Marker(id), Next(p, a)); }
    case Receive => if p.worker.Waiting? && p.queue != [] { TakeServes(p); }
    case Insert(ok) => if Holds(p, false) { InsertServes(p); }
    case Release => if Holds(p, true) { ReleaseServes(p); }
    case _ =>
  }

  lemma InvStep(p: Pipeline, a: Action)
    requires Inv(p)
    ensures Inv(Next(p, a))
  {
    ConservedStep(p, a);
    StoredStep(p, a);
    FlushersStep(p, a);
  }

  lemma {:induction false} InvRun(actions: seq<Action>)
    ensures Inv(Run(actions))
  {
    if actions != [] {
      InvRun(actions[..|actions| - 1]);
      InvStep(Run(actions[..|actions| - 1]), actions[|actions| - 1]);
    }
  }

  /**
   In every reachable state: the accepted entries are, in order, the handled ones, then the
   one in the worker's hand, then the queued ones; every submitted entry was accepted or
   dropped; and the queue never exceeds its capacity.
   */
  lemma Conservation(actions: seq<Action>)
    ensures var p := Run(actions);
            && Entries(p.enqueued) == Entries(p.handled) + Entries(InHand(p)) + Entries(p.queue)
            && p.submitted == |Entries(p.enqueued)| + p.dropped
            && |p.queue| <= 1024
  {
    InvRun(actions);
    var p := Run(actions);
    EntriesAppend(p.handled, InHand(p));
    EntriesAppend(p.handled + InHand(p), p.queue);
  }

  /**
   In every reachable state the stored rows are, in order, those of the handled entries whose
   insert worked: all of them if no insert failed.
   */
  lemma RowsInOrder(actions: seq<Action>)
    ensures var p := Run(actions);
            && |p.inserts| == |Entries(p.handled)|
            && p.rows == Stored(Entries(p.handled), p.inserts)
            && (false !in p.inserts ==> p.rows == Entries(p.handled))
  {
    InvRun(actions);
    var p := Run(actions);
    if false !in p.inserts {
      AllStored(Entries(p.handled), p.inserts);
    }
  }

  /**
   A flush is a barrier: once its marker is released, everything that went into the channel
   before it has been handled. And a marker in the channel is either released or waited for.
   */
  lemma FlushBarrier(actions: seq<Action>, i: nat)
    requires i < |Run(actions).enqueued| && Run(actions).enqueued[i].Marker?
    ensures var p := Run(actions);
            var id := p.enqueued[i].id;
            && (id in p.released <==> i < |p.handled|)
            && (id in p.released <==> id !in p.waiting)
            && (id in p.released ==> p.enqueued[..i + 1] <= p.handled)
  {
    InvRun(actions);
    Barrier(Run(actions), i);
  }

  lemma Barrier(p: Pipeline, i: nat)
    requires Conserved(p) && FlushersServed(p)
    requires i < |p.enqueued| && p.enqueued[i].Marker?
    ensures var id := p.enqueued[i].id;
            && (id in p.released <==> i < |p.handled|)
            && (id in p.released <==> id !in p.waiting)
            && (id in p.released ==> p.enqueued[..i + 1] <= p.handled)
  {
    var rest := InHand(p) + p.queue;
    assert p.enqueued == p.handled + rest;
    MarkerPlace(p, i, p.handled, rest);
  }

  lemma MarkerPlace(p: Pipeline, i: nat, before: seq<Message>, after: seq<Message>)
    requires FlushersServed(p) && p.enqueued == before + after
    requires i < |p.enqueued| && p.enqueued[i].Marker?
    ensures p.enqueued[i].id in Markers(before) <==> i < |before|
    ensures p.enqueued[i].id in Markers(after) <==> |before| <= i
  {
    var m := p.enqueued[i];
    assert m.id in Markers(before) <==> m in before by { MarkersMember(before, m); }
    assert m.id in Markers(after) <==> m in after by { MarkersMember(after, m); }
    if i < |before| {
      assert before[i] == m;
      forall j | 0 <= j < |after| ensures after[j] != m {
        assert p.enqueued[|before| + j] == after[j];
      }
    } else {
      assert after[i - |before|] == m;
      forall j | 0 <= j < |before| ensures before[j] != m {
        assert p.enqueued[j] == before[j];
      }
    }
  }

  lemma MarkersMember(messages: seq<Message>, m: Message)
    requires m.Marker?
    ensures m.id in Markers(messages) <==> m in messages
  {
    if m.id in Markers(messages) {
      var x :| x in messages && x.Marker? && x.id == m.id;
      assert x == m;
    }
  }

  /** `Close` returns when the channel is closed and the worker has signalled that it is done. */
  predicate CloseReturns(p: Pipeline) {
    p.closed && p.worker.Stopped?
  }

  /**
   When `Close` returns, the queue is empty, every accepted entry has been handled and every
   marker released - if and only if the worker could prepare its statement, or nothing was
   ever sent. A worker that could not leaves whatever is sent in the channel, and leaves its
   flushers waiting.
   */
  lemma CloseDrains(actions: seq<Action>)
    requires CloseReturns(Run(actions))
    ensures var p := Run(actions);
            && (p.queue == [] && p.handled == p.enqueued && p.waiting == {} <==> p.prepared || p.enqueued == [])
            && (!p.prepared ==> p.queue == p.enqueued && p.rows == [] && p.released == {}
                                && p.waiting == Markers(p.enqueued))
  {
    InvRun(actions);
    var p := Run(actions);
    assert InHand(p) == [];
    assert p.enqueued == p.handled + p.queue;
    assert InHand(p) + p.queue == p.queue;
    if !p.prepared {
      assert p.enqueued == p.queue;
    }
  }

  // ------------------------------------------------- a worker that could not start

  /** The pipeline after further actions. */
  function Follow(p: Pipeline, actions: seq<Action>): Pipeline {
    if actions == [] then p else Next(Follow(p, actions[..|actions| - 1]), actions[|actions| - 1])
  }

  lemma FollowNext(p: Pipeline, actions: seq<Action>, a: Action)
    ensures Follow(p, actions + [a]) == Next(Follow(p, actions), a)
  {
    assert (actions + [a])[..|actions|] == actions;
  }

  lemma {:induction false} FollowAppend(p: Pipeline, a: seq<Action>, b: seq<Action>)
    ensures Follow(p, a + b) == Follow(Follow(p, a), b)
    decreases |b|
  {
    if b == [] {
      assert a + b == a;
    } else {
      var init, x := b[..|b| - 1], b[|b| - 1];
      assert a + b == (a + init) + [x];
      FollowAppend(p, a, init);
      FollowNext(p, a + init, x);
    }
  }

  ghost predicate Stuck(p: Pipeline, id: nat) {
    p.worker.Stopped? && !p.prepared && id in p.waiting && id !in p.released
  }

  /** If the worker could not prepare its statement, a flush that waits waits for ever. */
  lemma {:induction false} StuckForEver(p: Pipeline, id: nat, more: seq<Action>)
    requires Stuck(p, id)
    ensures Stuck(Follow(p, more), id)
  {
    if more != [] {
      StuckForEver(p, id, more[..|more| - 1]);
    }
  }

  /**
   It happens: the worker fails to prepare, a flush puts its marker into the channel, the
   system database is closed. `Close` returns, and whatever happens then the flush does not.
   */
  lemma FlushNeverReturns(id: nat, more: seq<Action>)
    ensures var p := Follow(Fresh(), [Prepare(false)] + [Flush(id)] + [Close]);
            CloseReturns(p) && Stuck(p, id) && Stuck(Follow(p, more), id)
  {
    var p1 := Follow(Fresh(), [Prepare(false)]);
    FollowNext(Fresh(), [], Prepare(false));
    assert [] + [Prepare(false)] == [Prepare(false)];
    FollowNext(Fresh(), [Prepare(false)], Flush(id));
    FollowNext(Fresh(), [Prepare(false)] + [Flush(id)], Close);
    StuckForEver(Follow(Fresh(), [Prepare(false)] + [Flush(id)] + [Close]), id, more);
  }

  // ------------------------------------------------- the methods of the system database

  /**
   The fields of the system database that the audit pipeline uses. Every method is an action of
   the state machine, taken from any state, so the machine's interleavings are theirs.
   */
  class AuditDB {
    var auditCh: seq<Message>
    var closed: bool
    var rows: seq<AuditEntry>
    ghost var p: Pipeline

    ghost predicate Valid()
      reads this
    {
      auditCh == p.queue && closed == p.closed && rows == p.rows && Inv(p)
    }

    constructor ()
      ensures Valid() && p == Fresh()
    {
      auditCh, closed, rows, p := [], false, [], Fresh();
      new;
      FreshInv();
    }

    /** Never waits: the entry is accepted if there is room and dropped otherwise. */
    method LogAudit(entry: AuditEntry)
      requires Valid() && !closed
      modifies this
      ensures Valid() && p == Next(old(p), Log(entry))
      ensures auditCh == if |old(auditCh)| < 1024 then old(auditCh) + [Message.Entry(entry)] else old(auditCh)
      ensures p.dropped == old(p.dropped) + if |old(auditCh)| < 1024 then 0 else 1
    {
      InvStep(p, Log(entry));
      p := Next(p, Log(entry));
      if |auditCh| < CAPACITY {
        auditCh := auditCh + [Message.Entry(entry)];
      }
    }

    /** The sending half of `FlushAuditLog`, when there is room; `id` stands for its fresh channel. */
    method SendMarker(id: nat)
      requires Valid() && !closed && |auditCh| < CAPACITY && Marker(id) !in p.enqueued
      modifies this
      ensures Valid() && p == Next(old(p), Flush(id)) && id in p.waiting
      ensures auditCh == old(auditCh) + [Marker(id)]
    {
      MarkerSent(p, id, Next(p, Flush(id)));
      p := Next(p, Flush(id));
      auditCh := auditCh + [Marker(id)];
    }

    /** The closing half of `Close`. */
    method CloseChannel()
      requires Valid() && !closed
      modifies this
      ensures Valid() && p == Next(old(p), Close) && closed && auditCh == old(auditCh)
    {
      InvStep(p, Close);
      p := Next(p, Close);
      closed := true;
    }

    /** The worker's first step; if it fails, the worker ends. */
    method PrepareInsert(works: bool)
      requires Valid() && p.worker.Starting?
      modifies this`p
      ensures Valid() && p == Next(old(p), Prepare(works))
      ensures p == old(p).(worker := if works then Waiting else Stopped, prepared := works)
    {
      InvStep(p, Prepare(works));
      p := Next(p, Prepare(works));
    }

    /** One round of the worker's loop: a marker releases its flusher, an entry is stored if its insert works. */
    method HandleNext(insertWorks: bool) returns (ghost actions: seq<Action>)
      requires Valid() && p.worker.Waiting? && auditCh != []
      modifies this
      ensures Valid() && p == Follow(old(p), actions)
      ensures p.worker.Waiting? && p.enqueued == old(p.enqueued) && p.closed == old(p.closed)
      ensures auditCh == old(auditCh)[1..] && p.handled == old(p.handled) + [old(auditCh)[0]]
      ensures rows == if old(auditCh)[0].Entry? && insertWorks then old(rows) + [old(auditCh)[0].entry] else old(rows)
      ensures old(auditCh)[0].Marker? ==> old(auditCh)[0].id in p.released
    {
      var m := auditCh[0];
      ghost var start := p;
      assert m == start.queue[0];
      ghost var action := if m.Entry? then Insert(insertWorks) else Release;
      ghost var taken := Next(start, Receive);
      ghost var after := Next(taken, action);
      actions := [Receive] + [action];
      TwoActions(start, Receive, action);
      MessageHandled(start, insertWorks, action, taken, after);
      p := after;
      auditCh := auditCh[1..];
      if m.Entry? && insertWorks {
        rows := rows + [m.entry];
      }
    }

    /**
     The worker over a channel that has been closed: it handles all that is left and ends; or,
     if it cannot prepare its statement, it ends at once and leaves everything as it is.
     */
    method AuditWorker(prepareWorks: bool, insertWorks: nat -> bool) returns (ghost actions: seq<Action>)
      requires Valid() && closed && p.worker.Starting?
      modifies this
      ensures Valid() && p == Follow(old(p), actions) && p.worker.Stopped? && p.enqueued == old(p.enqueued)
      ensures prepareWorks ==> auditCh == [] && p.handled == p.enqueued && p.waiting == {}
      ensures !prepareWorks ==> auditCh == old(auditCh) && rows == old(rows) && p.waiting == old(p.waiting)
    {
      ghost var start := p;
      actions := [Prepare(prepareWorks)];
      OneAction(start, Prepare(prepareWorks));
      PrepareInsert(prepareWorks);
      if !prepareWorks {
        return;
      }
      var k := 0;
      while auditCh != []
        invariant Valid() && closed && p.worker.Waiting? && p.enqueued == start.enqueued
        invariant p == Follow(start, actions)
        decreases |auditCh|
      {
        ghost var more := HandleNext(insertWorks(k));
        FollowAppend(start, actions, more);
        actions := actions + more;
        k := k + 1;
      }
      WorkerEnds(p, Next(p, Finish));
      FollowNext(start, actions, Finish);
      actions := actions + [Finish];
      p := Next(p, Finish);
    }
  }

  lemma MarkerSent(p: Pipeline, id: nat, p': Pipeline)
    requires Inv(p) && HasRoom(p) && Marker(id) !in p.enqueued && p' == Next(p, Flush(id))
    ensures Inv(p') && p'.queue == p.queue + [Marker(id)] && p'.closed == p.closed && p'.rows == p.rows && id in p'.waiting
  {
    InvStep(p, Flush(id));
  }

  lemma FirstHandled(p: Pipeline, ok: bool, a: Action, p1: Pipeline, p': Pipeline)
    requires p.worker.Waiting? && p.queue != []
    requires a == (if p.queue[0].Entry? then Insert(ok) else Release) && p1 == Next(p, Receive) && p' == Next(p1, a)
    ensures HandledFirst(p, ok, p')
  {
  }

  lemma MessageHandled(p: Pipeline, ok: bool, a: Action, p1: Pipeline, p': Pipeline)
    requires Inv(p) && p.worker.Waiting? && p.queue != []
    requires a == (if p.queue[0].Entry? then Insert(ok) else Release) && p1 == Next(p, Receive) && p' == Next(p1, a)
    ensures Inv(p') && HandledFirst(p, ok, p')
  {
    FirstHandled(p, ok, a, p1, p');
    InvStep(p, Receive);
    InvStep(p1, a);
  }

  /** The first message of the queue has been handled. */
  ghost predicate HandledFirst(p: Pipeline, ok: bool, p': Pipeline)
    requires p.queue != []
  {
    && p'.worker.Waiting? && p'.queue == p.queue[1..] && p'.enqueued == p.enqueued && p'.closed == p.closed
    && p'.handled == p.handled + [p.queue[0]]
    && p'.rows == (if p.queue[0].Entry? && ok then p.rows + [p.queue[0].entry] else p.rows)
    && (p.queue[0].Marker? ==> p.queue[0].id in p'.released)
  }

  lemma WorkerEnds(p: Pipeline, p': Pipeline)
    requires Inv(p) && p.worker.Waiting? && p.closed && p.queue == [] && p' == Next(p, Finish)
    ensures Inv(p') && p' == p.(worker := Stopped) && p.handled == p.enqueued && p.waiting == {}
  {
    InvStep(p, Finish);
    assert InHand(p) == [] && p.handled + [] + [] == p.handled;
  }

  lemma FreshInv()
    ensures Inv(Fresh())
  {
    InvRun([]);
  }

  lemma OneAction(p: Pipeline, a: Action)
    ensures Follow(p, [a]) == Next(p, a)
  {
    FollowNext(p, [], a);
    assert [] + [a] == [a];
  }

  lemma TwoActions(p: Pipeline, a: Action, b: Action)
    ensures Follow(p, [a] + [b]) == Next(Next(p, a), b)
  {
    OneAction(p, a);
    FollowNext(p, [a], b);
  }
}
