/**
 What the login limiter answers, said of the history of its calls and not of its counters: which
 failures count together, when a key is locked, and how many failures a run of logins can add.
 */
module LoginHistory {
  import opened LoginLimiter
  import opened Wrappers

  predicate IsFail(call: Call, key: string) {
    call.Fail? && call.key == key
  }

  predicate IsClear(call: Call, key: string) {
    call.Clear? && call.key == key
  }

  /** No `Reset` of the key strictly between the two positions. */
  ghost predicate NoClear(calls: seq<Call>, key: string, r: nat, s: nat)
    requires s <= |calls|
  {
    forall i :: r < i < s ==> !IsClear(calls[i], key)
  }

  /** A failure at `s` counts with the one at `r`: within the lockout from it, and no `Reset` between. */
  ghost predicate Covers(c: Config, calls: seq<Call>, key: string, r: nat, s: nat)
    requires r < |calls| && s < |calls|
  {
    calls[s].now <= calls[r].now + c.lockout && NoClear(calls, key, r, s)
  }

  /** The call at `s` is a failure that opens a new count: no earlier opening covers it. */
  ghost predicate Opens(c: Config, calls: seq<Call>, key: string, s: nat)
    requires s < |calls|
    decreases s
  {
    IsFail(calls[s], key) && forall r: nat :: r < s && Opens(c, calls, key, r) ==> !Covers(c, calls, key, r, s)
  }

  /** The failures of the key from position `s` up to position `k`. */
  function FailsIn(calls: seq<Call>, key: string, s: nat, k: nat): nat
    requires k <= |calls|
  {
    if k <= s then 0 else FailsIn(calls, key, s, k - 1) + if IsFail(calls[k - 1], key) then 1 else 0
  }

  /** After the first `k` calls, `s` is the last opening, and the key has not been reset since. */
  ghost predicate Current(c: Config, calls: seq<Call>, key: string, k: nat, s: nat)
    requires k <= |calls|
  {
    && s < k && Opens(c, calls, key, s) && NoClear(calls, key, s, k)
    && forall r: nat :: s < r < k ==> !Opens(c, calls, key, r)
  }

  ghost predicate InOrder(calls: seq<Call>) {
    forall i, j :: 0 <= i < j < |calls| ==> calls[i].now <= calls[j].now
  }

  /** Some call since `s` has come after the lockout from it. */
  ghost predicate Passed(c: Config, calls: seq<Call>, s: nat, k: nat)
    requires s < k <= |calls|
  {
    exists j :: s < j < k && calls[j].now > calls[s].now + c.lockout
  }

  ghost predicate AllPassed(c: Config, calls: seq<Call>, key: string, k: nat)
    requires k <= |calls|
  {
    forall s: nat :: Current(c, calls, key, k, s) ==> Passed(c, calls, s, k)
  }

  /** The failures since the last opening, counted against its time. */
  ghost predicate Holds(c: Config, calls: seq<Call>, key: string, k: nat, a: LoginAttempt)
    requires k <= |calls|
  {
    exists s: nat :: Current(c, calls, key, k, s) && a == LoginAttempt(FailsIn(calls, key, s, k), calls[s].now)
  }

  /** What the limiter holds for a key, in terms of the history. */
  ghost predicate Told(c: Config, calls: seq<Call>, key: string, k: nat, m: Attempts)
    requires k <= |calls|
  {
    && (key in m ==> Holds(c, calls, key, k, m[key]))
    && (key !in m ==> AllPassed(c, calls, key, k))
  }

  lemma CurrentUnique(c: Config, calls: seq<Call>, key: string, k: nat, s: nat, s': nat)
    requires k <= |calls| && Current(c, calls, key, k, s) && Current(c, calls, key, k, s')
    ensures s == s'
  {
  }

  /** A call that neither fails nor resets the key leaves its history as it is. */
  lemma CurrentSame(c: Config, calls: seq<Call>, key: string, k: nat, s: nat)
    requires k < |calls| && !IsFail(calls[k], key) && !IsClear(calls[k], key)
    ensures Current(c, calls, key, k + 1, s) <==> Current(c, calls, key, k, s)
    ensures FailsIn(calls, key, s, k + 1) == FailsIn(calls, key, s, k)
  {
  }

  /** A failure that the current opening covers is counted with it. */
  lemma CurrentGrows(c: Config, calls: seq<Call>, key: string, k: nat, s: nat)
    requires k < |calls| && IsFail(calls[k], key) && Current(c, calls, key, k, s)
    requires calls[k].now <= calls[s].now + c.lockout
    ensures Current(c, calls, key, k + 1, s)
    ensures FailsIn(calls, key, s, k + 1) == FailsIn(calls, key, s, k) + 1
  {
    assert Covers(c, calls, key, s, k);
  }

  /** Where no current opening covers it, a failure opens. */
  lemma CurrentOpens(c: Config, calls: seq<Call>, key: string, k: nat)
    requires k < |calls| && IsFail(calls[k], key) && InOrder(calls)
    requires forall s: nat :: Current(c, calls, key, k, s) ==> calls[k].now > calls[s].now + c.lockout
    ensures Current(c, calls, key, k + 1, k) && FailsIn(calls, key, k, k + 1) == 1
  {
    forall r: nat | r < k && Opens(c, calls, key, r) ensures !Covers(c, calls, key, r, k) {
      if NoClear(calls, key, r, k) {
        NotCovered(c, calls, key, r, k);
      }
    }
    assert FailsIn(calls, key, k, k) == 0;
  }

  lemma {:induction false} NotCovered(c: Config, calls: seq<Call>, key: string, r: nat, k: nat)
    requires r < k < |calls| && InOrder(calls) && Opens(c, calls, key, r) && NoClear(calls, key, r, k)
    requires forall s: nat :: Current(c, calls, key, k, s) ==> calls[k].now > calls[s].now + c.lockout
    ensures calls[k].now > calls[r].now + c.lockout
    decreases k - r
  {
    if q: nat :| r < q < k && Opens(c, calls, key, q) {
      assert NoClear(calls, key, r, q) && NoClear(calls, key, q, k);
      assert !Covers(c, calls, key, r, q);
    } else {
      assert Current(c, calls, key, k, r);
    }
  }

  lemma ToldCheck(c: Config, calls: seq<Call>, key: string, k: nat, k': nat, m: Attempts, m': Attempts)
    requires k < |calls| && k' == k + 1 && Told(c, calls, key, k, m) && !IsFail(calls[k], key) && !IsClear(calls[k], key)
    requires key in m' ==> key in m && m'[key] == m[key]
    requires key in m && key !in m' ==> calls[k].now > m[key].firstFail + c.lockout
    ensures Told(c, calls, key, k', m')
  {
    if key in m {
      var s: nat :| Current(c, calls, key, k, s) && m[key] == LoginAttempt(FailsIn(calls, key, s, k), calls[s].now);
      CurrentSame(c, calls, key, k, s);
      if key !in m' {
        forall s': nat | Current(c, calls, key, k', s') ensures Passed(c, calls, s', k') {
          CurrentUnique(c, calls, key, k', s, s');
        }
      }
    } else {
      forall s: nat | Current(c, calls, key, k', s) ensures Passed(c, calls, s, k') {
        CurrentSame(c, calls, key, k, s);
        var j :| s < j < k && calls[j].now > calls[s].now + c.lockout;
      }
    }
  }

  /** After a reset of the key there is no current opening. */
  lemma ClearedNone(c: Config, calls: seq<Call>, key: string, k: nat, k': nat, s: nat)
    requires k < |calls| && k' == k + 1 && IsClear(calls[k], key)
    ensures !Current(c, calls, key, k', s)
  {
  }

  lemma ToldFail(c: Config, calls: seq<Call>, key: string, k: nat, m: Attempts)
    requires k < |calls| && InOrder(calls) && Told(c, calls, key, k, m) && IsFail(calls[k], key)
    ensures Told(c, calls, key, k + 1, After(c, m, calls[k]))
  {
    if key in m {
      var s: nat :| Current(c, calls, key, k, s) && m[key] == LoginAttempt(FailsIn(calls, key, s, k), calls[s].now);
      if calls[k].now <= calls[s].now + c.lockout {
        CurrentGrows(c, calls, key, k, s);
      } else {
        forall s': nat | Current(c, calls, key, k, s') ensures s' == s {
          CurrentUnique(c, calls, key, k, s, s');
        }
        CurrentOpens(c, calls, key, k);
      }
    } else {
      forall s: nat | Current(c, calls, key, k, s) ensures calls[k].now > calls[s].now + c.lockout {
        var j :| s < j < k && calls[j].now > calls[s].now + c.lockout;
      }
      CurrentOpens(c, calls, key, k);
    }
  }

  lemma ToldStep(c: Config, calls: seq<Call>, key: string, k: nat, k': nat, m: Attempts)
    requires k < |calls| && k' == k + 1 && InOrder(calls) && Told(c, calls, key, k, m)
    ensures Told(c, calls, key, k', After(c, m, calls[k]))
  {
    if IsFail(calls[k], key) {
      ToldFail(c, calls, key, k, m);
    } else if IsClear(calls[k], key) {
      forall s: nat ensures !Current(c, calls, key, k', s) {
        ClearedNone(c, calls, key, k, k', s);
      }
    } else {
      ToldCheck(c, calls, key, k, k', m, After(c, m, calls[k]));
    }
  }

  lemma {:induction false} ToldRun(c: Config, calls: seq<Call>, key: string, k: nat)
    requires InOrder(calls) && k <= |calls|
    ensures Told(c, calls, key, k, Run(c, calls[..k]))
  {
    if k == 0 {
      assert calls[..0] == [];
    } else {
      ToldRun(c, calls, key, k - 1);
      ToldStep(c, calls, key, k - 1, k, Run(c, calls[..k - 1]));
      assert calls[..k][..k - 1] == calls[..k - 1];
    }
  }

  /**
   The count that is stored for a key is the number of its failures since the one that set its
   FirstFail, that one included; and that one is the last that opened a count.
   */
  lemma CountIsFailures(c: Config, calls: seq<Call>, key: string)
    requires InOrder(calls) && key in Run(c, calls)
    ensures Holds(c, calls, key, |calls|, Run(c, calls)[key])
  {
    ToldRun(c, calls, key, |calls|);
    assert calls[..|calls|] == calls;
  }

  /** The failures that count against the key at a time: of the opening whose lockout has not passed. */
  ghost predicate CountedAt(c: Config, calls: seq<Call>, key: string, now: int, s: nat) {
    && s < |calls| && Opens(c, calls, key, s) && NoClear(calls, key, s, |calls|)
    && now <= calls[s].now + c.lockout
  }

  lemma CountedIsCurrent(c: Config, calls: seq<Call>, key: string, now: int, s: nat)
    requires ClockOk(calls, now) && CountedAt(c, calls, key, now, s)
    ensures Current(c, calls, key, |calls|, s)
  {
    forall r: nat | s < r < |calls| ensures !Opens(c, calls, key, r) {
      assert NoClear(calls, key, s, r);
      assert Covers(c, calls, key, s, r);
    }
  }

  lemma NotPassed(c: Config, calls: seq<Call>, now: int, s: nat)
    requires ClockOk(calls, now) && s < |calls| && now <= calls[s].now + c.lockout
    ensures !Passed(c, calls, s, |calls|)
  {
  }

  /**
   A key is locked exactly when some failure opened a count within the lockout before now, it
   has not been reset since, and there have been `limit` failures from that one on.
   */
  lemma LockedIff(c: Config, calls: seq<Call>, key: string, now: int)
    requires ClockOk(calls, now)
    ensures Locked(c, Run(c, calls), key, now) <==>
      exists s: nat :: CountedAt(c, calls, key, now, s) && FailsIn(calls, key, s, |calls|) >= c.limit
  {
    var m := Run(c, calls);
    ToldRun(c, calls, key, |calls|);
    assert calls[..|calls|] == calls;
    if Locked(c, m, key, now) {
      var s: nat :| Current(c, calls, key, |calls|, s)
                    && m[key] == LoginAttempt(FailsIn(calls, key, s, |calls|), calls[s].now);
      assert CountedAt(c, calls, key, now, s);
    }
    if s: nat :| CountedAt(c, calls, key, now, s) && FailsIn(calls, key, s, |calls|) >= c.limit {
      CountedIsCurrent(c, calls, key, now, s);
      NotPassed(c, calls, now, s);
      assert key in m;
      var s': nat :| Current(c, calls, key, |calls|, s')
                     && m[key] == LoginAttempt(FailsIn(calls, key, s', |calls|), calls[s'].now);
      CurrentUnique(c, calls, key, |calls|, s, s');
    }
  }

  // ---------------------------------------------------------------- runs of logins

  /** The call that an action makes on the limiter: a failed or correct password, if a login comes to it. */
  function MadeBy(s: System, a: Action): seq<Call> {
    match a
    case Tick(_) => []
    case Enter(i, key) => if i < |s.callers| && s.callers[i] == None then [Check(key, s.now)] else []
    case Resolve(i, verdict) =>
      if i < |s.callers| && s.callers[i].Some? then
        match verdict
        case NoSuchUser => [Fail(s.callers[i].value, s.now)]
        case WrongPassword => [Fail(s.callers[i].value, s.now)]
        case AccountLocked => []
        case Correct => [Clear(s.callers[i].value, s.now)]
      else []
  }

  function CallsOf(c: Config, n: nat, actions: seq<Action>): seq<Call> {
    if actions == [] then []
    else
      var before := actions[..|actions| - 1];
      CallsOf(c, n, before) + MadeBy(RunLogins(c, n, before), actions[|actions| - 1])
  }

  lemma RunNext(c: Config, calls: seq<Call>, call: Call)
    ensures Run(c, calls + [call]) == After(c, Run(c, calls), call)
    ensures Run(c, calls + []) == Run(c, calls)
  {
    assert (calls + [call])[..|calls|] == calls;
    assert calls + [] == calls;
  }

  lemma ClockNext(calls: seq<Call>, now: int, made: seq<Call>, later: int)
    requires ClockOk(calls, now) && now <= later && |made| <= 1 && (made != [] ==> made[0].now == now)
    ensures ClockOk(calls + made, later)
  {
  }

  lemma MadeStep(c: Config, s: System, a: Action, made: seq<Call>, s': System)
    requires made == MadeBy(s, a) && s' == Next(c, s, a)
    ensures s'.attempts == if made == [] then s.attempts else After(c, s.attempts, made[0])
    ensures |made| <= 1 && (made != [] ==> made[0].now == s.now) && s.now <= s'.now
  {
  }

  lemma {:induction false} LoginsAreCalls(c: Config, n: nat, actions: seq<Action>)
    ensures RunLogins(c, n, actions).attempts == Run(c, CallsOf(c, n, actions))
    ensures ClockOk(CallsOf(c, n, actions), RunLogins(c, n, actions).now)
  {
    if actions != [] {
      var before, a := actions[..|actions| - 1], actions[|actions| - 1];
      LoginsAreCalls(c, n, before);
      LoginStep(c, RunLogins(c, n, before), CallsOf(c, n, before), a, MadeBy(RunLogins(c, n, before), a), RunLogins(c, n, actions));
    }
  }

  lemma LoginStep(c: Config, s: System, calls: seq<Call>, a: Action, made: seq<Call>, s': System)
    requires s.attempts == Run(c, calls) && ClockOk(calls, s.now) && made == MadeBy(s, a) && s' == Next(c, s, a)
    ensures s'.attempts == Run(c, calls + made) && ClockOk(calls + made, s'.now)
  {
    MadeStep(c, s, a, made, s');
    ClockNext(calls, s.now, made, s'.now);
    if made != [] {
      RunNext(c, calls, made[0]);
      assert made == [made[0]];
    } else {
      assert calls + made == calls;
    }
  }

  /** The history up to a position does not depend on what comes later. */
  lemma {:induction false} OpensPrefix(c: Config, calls: seq<Call>, more: seq<Call>, key: string, s: nat)
    requires s < |calls|
    ensures Opens(c, calls + more, key, s) <==> Opens(c, calls, key, s)
    decreases s
  {
    var all := calls + more;
    assert all[s] == calls[s];
    forall r: nat | r < s
      ensures Opens(c, all, key, r) <==> Opens(c, calls, key, r)
      ensures Covers(c, all, key, r, s) <==> Covers(c, calls, key, r, s)
    {
      OpensPrefix(c, calls, more, key, r);
      SameCovers(c, calls, more, key, r, s);
    }
  }

  lemma SameCovers(c: Config, calls: seq<Call>, more: seq<Call>, key: string, r: nat, s: nat)
    requires r < s < |calls|
    ensures Covers(c, calls + more, key, r, s) <==> Covers(c, calls, key, r, s)
  {
    assert forall i :: 0 <= i < |calls| ==> (calls + more)[i] == calls[i];
  }

  lemma {:induction false} FailsInPrefix(calls: seq<Call>, more: seq<Call>, key: string, s: nat, k: nat)
    requires k <= |calls|
    ensures FailsIn(calls + more, key, s, k) == FailsIn(calls, key, s, k)
  {
    if k > s {
      FailsInPrefix(calls, more, key, s, k - 1);
      assert (calls + more)[k - 1] == calls[k - 1];
    }
  }

  lemma CurrentPrefix(c: Config, calls: seq<Call>, more: seq<Call>, key: string, k: nat, s: nat)
    requires k <= |calls| && Current(c, calls + more, key, k, s)
    ensures Current(c, calls, key, k, s)
  {
    var all := calls + more;
    assert forall i :: 0 <= i < |calls| ==> all[i] == calls[i];
    OpensPrefix(c, calls, more, key, s);
    forall r: nat | s < r < k ensures !Opens(c, calls, key, r) {
      OpensPrefix(c, calls, more, key, r);
      assert !Opens(c, all, key, r);
    }
  }

  /** A call that is no failure of the key adds nothing to its current count. */
  lemma OtherCallAdds(c: Config, calls: seq<Call>, x: Call, key: string, s: nat)
    requires !IsFail(x, key) && Current(c, calls + [x], key, |calls| + 1, s)
    ensures Current(c, calls, key, |calls|, s)
    ensures FailsIn(calls + [x], key, s, |calls| + 1) == FailsIn(calls, key, s, |calls|)
  {
    var all := calls + [x];
    assert all[|calls|] == x && s < |calls|;
    assert Current(c, all, key, |calls|, s);
    CurrentPrefix(c, calls, [x], key, |calls|, s);
    FailsInPrefix(calls, [x], key, s, |calls|);
  }

  /** After a failure of the key, what the limiter holds is its current count. */
  lemma CountAfterFailure(c: Config, calls: seq<Call>, key: string, s: nat)
    requires InOrder(calls) && calls != [] && IsFail(calls[|calls| - 1], key) && Current(c, calls, key, |calls|, s)
    ensures key in Run(c, calls) && Run(c, calls)[key].count == FailsIn(calls, key, s, |calls|)
  {
    assert key in Run(c, calls);
    CountIsFailures(c, calls, key);
    var s': nat :| Current(c, calls, key, |calls|, s')
                   && Run(c, calls)[key] == LoginAttempt(FailsIn(calls, key, s', |calls|), calls[s'].now);
    CurrentUnique(c, calls, key, |calls|, s, s');
  }

  lemma FailureBounded(c: Config, n: nat, actions: seq<Action>, key: string, s: nat, calls: seq<Call>)
    requires n >= 1 && calls == CallsOf(c, n, actions) && calls != [] && IsFail(calls[|calls| - 1], key)
    requires Current(c, calls, key, |calls|, s)
    ensures FailsIn(calls, key, s, |calls|) <= AtLeastOne(c.limit) + n - 1
  {
    LoginsAreCalls(c, n, actions);
    CountBounded(c, n, actions, key);
    CountAfterFailure(c, calls, key, s);
  }

  /**
   Any interleaving of logins by n concurrent callers, over any keys, with expiry and resets:
   at most limit + n - 1 failed logins of a key come to count with one that opened a count,
   that one included. In particular a single caller never gets more than the limit.
   */
  lemma {:induction false} FailuresBounded(c: Config, n: nat, actions: seq<Action>, key: string, s: nat)
    requires n >= 1
    requires Current(c, CallsOf(c, n, actions), key, |CallsOf(c, n, actions)|, s)
    ensures FailsIn(CallsOf(c, n, actions), key, s, |CallsOf(c, n, actions)|) <= AtLeastOne(c.limit) + n - 1
  {
    var before, a := actions[..|actions| - 1], actions[|actions| - 1];
    var calls, made := CallsOf(c, n, before), MadeBy(RunLogins(c, n, before), a);
    if made == [] {
      assert calls + made == calls;
      FailuresBounded(c, n, before, key, s);
    } else {
      MadeStep(c, RunLogins(c, n, before), a, made, RunLogins(c, n, actions));
      assert made == [made[0]];
      if IsFail(made[0], key) {
        FailureBounded(c, n, actions, key, s, CallsOf(c, n, actions));
      } else {
        OtherCallAdds(c, calls, made[0], key, s);
        FailuresBounded(c, n, before, key, s);
      }
    }
  }

  /** Some run of logins brings the number of failures that count together to this. */
  ghost predicate Reachable(c: Config, n: nat, key: string, count: int) {
    exists actions, s: nat :: RunCounts(c, n, actions, key, s, count)
  }

  ghost predicate RunCounts(c: Config, n: nat, actions: seq<Action>, key: string, s: nat, count: int) {
    var calls := CallsOf(c, n, actions);
    Current(c, calls, key, |calls|, s) && FailsIn(calls, key, s, |calls|) == count
  }

  /** With a negative lockout every failure opens a count of its own. */
  lemma {:induction false} OneAlone(c: Config, calls: seq<Call>, key: string, k: nat, s: nat)
    requires c.lockout < 0 && InOrder(calls) && s < k <= |calls|
    requires IsFail(calls[s], key) && forall r: nat :: s < r < k ==> !Opens(c, calls, key, r)
    ensures FailsIn(calls, key, s, k) == 1
  {
    if k == s + 1 {
      assert FailsIn(calls, key, s, s) == 0;
    } else {
      OneAlone(c, calls, key, k - 1, s);
      assert !Opens(c, calls, key, k - 1);
    }
  }

  lemma BoundReached(c: Config, n: nat, key: string, actions: seq<Action>, count: int) returns (s: nat)
    requires count > 0 && Count(RunLogins(c, n, actions).attempts, key) == count
    ensures RunCounts(c, n, actions, key, s, count)
  {
    LoginsAreCalls(c, n, actions);
    var calls := CallsOf(c, n, actions);
    CountIsFailures(c, calls, key);
    s :| Current(c, calls, key, |calls|, s)
         && Run(c, calls)[key] == LoginAttempt(FailsIn(calls, key, s, |calls|), calls[s].now);
  }

  lemma OneAtMost(c: Config, n: nat, key: string, actions: seq<Action>, s: nat, count: int)
    requires c.lockout < 0 && RunCounts(c, n, actions, key, s, count)
    ensures count == 1
  {
    LoginsAreCalls(c, n, actions);
    OneAlone(c, CallsOf(c, n, actions), key, |CallsOf(c, n, actions)|, s);
  }

  /**
   For every limit and every number of callers there is an interleaving that reaches the
   bound, if and only if the lockout is not negative or the bound is a single failure.
   */
  lemma FailuresBoundReached(c: Config, n: nat, key: string)
    requires n >= 1
    ensures Reachable(c, n, key, AtLeastOne(c.limit) + n - 1) <==> c.lockout >= 0 || AtLeastOne(c.limit) + n - 1 == 1
  {
    var bound := AtLeastOne(c.limit) + n - 1;
    CountReached(c, n, key);
    if Reaches(c, n, key, bound) {
      var actions :| Count(RunLogins(c, n, actions).attempts, key) == bound;
      var s := BoundReached(c, n, key, actions, bound);
    }
    if Reachable(c, n, key, bound) && c.lockout < 0 {
      var actions, s: nat :| RunCounts(c, n, actions, key, s, bound);
      OneAtMost(c, n, key, actions, s, bound);
    }
  }
}
