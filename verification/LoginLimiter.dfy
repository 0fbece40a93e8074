/**
 The login lockout (internal/auth/password.go) and the login sequence that rests on it
 (internal/auth/auth.go). The check and the record are separate critical sections, so
 concurrent logins interleave between them. Times are integers and do not run backwards.
 */
module LoginLimiter {
  import opened Wrappers

  datatype Config = Config(limit: int, lockout: int)

  datatype LoginAttempt = LoginAttempt(count: int, firstFail: int)

  type Attempts = map<string, LoginAttempt>

  predicate Expired(c: Config, a: LoginAttempt, now: int) {
    now - a.firstFail > c.lockout
  }

  /** Is the key locked? */
  predicate Locked(c: Config, m: Attempts, key: string, now: int) {
    key in m && !Expired(c, m[key], now) && m[key].count >= c.limit
  }

  datatype Call = Check(key: string, now: int) | Fail(key: string, now: int) | Clear(key: string, now: int)

  /** The effect of the limiter's three operations; `Check` discards an expired attempt. */
  function After(c: Config, m: Attempts, call: Call): Attempts {
    match call
    case Check(key, now) => if key in m && Expired(c, m[key], now) then m - {key} else m
    case Fail(key, now) => Failed(c, m, key, now)
    case Clear(key, now) => m - {key}
  }

  function Failed(c: Config, m: Attempts, key: string, now: int): Attempts {
    if key !in m || Expired(c, m[key], now) then m[key := LoginAttempt(1, now)]
    else m[key := m[key].(count := m[key].count + 1)]
  }

  class LoginRateLimiter {
    const config: Config
    var attempts: Attempts

    constructor (limit: int, lockout: int)
      ensures config == Config(limit, lockout) && attempts == map[]
    {
      config, attempts := Config(limit, lockout), map[];
    }

    method IsLocked(key: string, now: int) returns (locked: bool)
      modifies this
      ensures locked <==> Locked(config, old(attempts), key, now)
      ensures attempts == After(config, old(attempts), Check(key, now))
    {
      if key !in attempts {
        return false;
      }
      var a := attempts[key];
      if now - a.firstFail > config.lockout {
        attempts := attempts - {key};
        return false;
      }
      locked := a.count >= config.limit;
    }

    method RecordFail(key: string, now: int)
      modifies this
      ensures attempts == After(config, old(attempts), Fail(key, now))
      ensures attempts - {key} == old(attempts) - {key} && key in attempts
      ensures attempts[key] ==
        if key in old(attempts) && now - old(attempts)[key].firstFail <= config.lockout
        then old(attempts)[key].(count := old(attempts)[key].count + 1)
        else LoginAttempt(1, now)
    {
      if key !in attempts {
        attempts := attempts[key := LoginAttempt(1, now)];
        return;
      }
      var a := attempts[key];
      if now - a.firstFail > config.lockout {
        attempts := attempts[key := LoginAttempt(1, now)];
        return;
      }
      attempts := attempts[key := a.(count := a.count + 1)];
    }

    method Reset(key: string, now: int)
      modifies this
      ensures attempts == old(attempts) - {key} == After(config, old(attempts), Clear(key, now))
    {
      attempts := attempts - {key};
    }
  }

  // ---------------------------------------------------------------- lazy deletion

  /** The reference: a limiter whose check deletes nothing. */
  function AfterKeeping(c: Config, m: Attempts, call: Call): Attempts {
    if call.Check? then m else After(c, m, call)
  }

  function Run(c: Config, calls: seq<Call>): Attempts {
    if calls == [] then map[] else After(c, Run(c, calls[..|calls| - 1]), calls[|calls| - 1])
  }

  function RunKeeping(c: Config, calls: seq<Call>): Attempts {
    if calls == [] then map[] else AfterKeeping(c, RunKeeping(c, calls[..|calls| - 1]), calls[|calls| - 1])
  }

  ghost predicate ClockOk(calls: seq<Call>, now: int) {
    && (forall i :: 0 <= i < |calls| ==> calls[i].now <= now)
    && (forall i, j :: 0 <= i < j < |calls| ==> calls[i].now <= calls[j].now)
  }

  /** Both limiters know the same live attempts. */
  predicate SameLive(c: Config, m: Attempts, r: Attempts, key: string, now: int) {
    && (key in m ==> key in r && m[key] == r[key])
    && (key in r && key !in m ==> Expired(c, r[key], now))
  }

  lemma SameLiveAfter(c: Config, m: Attempts, r: Attempts, call: Call, key: string)
    requires SameLive(c, m, r, key, call.now) && SameLive(c, m, r, call.key, call.now)
    ensures SameLive(c, After(c, m, call), AfterKeeping(c, r, call), key, call.now)
  {
  }

  lemma {:induction false} SameLiveRun(c: Config, calls: seq<Call>, key: string, now: int)
    requires ClockOk(calls, now)
    ensures SameLive(c, Run(c, calls), RunKeeping(c, calls), key, now)
  {
    if calls != [] {
      var before, call := calls[..|calls| - 1], calls[|calls| - 1];
      SameLiveRun(c, before, key, call.now);
      SameLiveRun(c, before, call.key, call.now);
      SameLiveAfter(c, Run(c, before), RunKeeping(c, before), call, key);
    }
  }

  /** The lazy deletion changes no answer: after any calls, both limiters agree on who is locked. */
  lemma LazyDeletionUnobservable(c: Config, calls: seq<Call>, key: string, now: int)
    requires ClockOk(calls, now)
    ensures Locked(c, Run(c, calls), key, now) <==> Locked(c, RunKeeping(c, calls), key, now)
  {
    SameLiveRun(c, calls, key, now);
  }

  // ---------------------------------------------------------------- how long a lock holds

  function RunFrom(c: Config, m: Attempts, calls: seq<Call>): Attempts {
    if calls == [] then m else After(c, RunFrom(c, m, calls[..|calls| - 1]), calls[|calls| - 1])
  }

  lemma {:induction false} LockPersists(c: Config, m: Attempts, key: string, calls: seq<Call>, now: int)
    requires key in m && m[key].count >= c.limit
    requires ClockOk(calls, now) && now <= m[key].firstFail + c.lockout
    requires forall call :: call in calls && call.Clear? ==> call.key != key
    ensures var m' := RunFrom(c, m, calls);
            key in m' && m'[key].firstFail == m[key].firstFail && m'[key].count >= m[key].count
  {
    if calls != [] {
      var before, call := calls[..|calls| - 1], calls[|calls| - 1];
      assert call in calls && forall x :: x in before ==> x in calls;
      LockPersists(c, m, key, before, now);
    }
  }

  /**
   A lock holds exactly until its lockout has passed: for every run of checks and failures
   without a Reset of the key, and whatever failures are recorded in it, the key stays locked
   up to FirstFail + lockout; past that moment it is unlocked, unless it is failed anew.
   */
  lemma LockDuration(c: Config, m: Attempts, key: string, calls: seq<Call>, now: int)
    requires key in m && m[key].count >= c.limit
    requires ClockOk(calls, now)
    requires forall call :: call in calls && call.Clear? ==> call.key != key
    requires forall call :: call in calls && call.Fail? && call.key == key ==> call.now <= m[key].firstFail + c.lockout
    ensures Locked(c, RunFrom(c, m, calls), key, now) <==> now <= m[key].firstFail + c.lockout
  {
    if now <= m[key].firstFail + c.lockout {
      LockPersists(c, m, key, calls, now);
    } else {
      NeverLater(c, m, key, calls);
    }
  }

  /** Failures while an attempt is live never move its FirstFail. */
  lemma {:induction false} NeverLater(c: Config, m: Attempts, key: string, calls: seq<Call>)
    requires key in m
    requires forall i, j :: 0 <= i < j < |calls| ==> calls[i].now <= calls[j].now
    requires forall call :: call in calls && call.Clear? ==> call.key != key
    requires forall call :: call in calls && call.Fail? && call.key == key ==> call.now <= m[key].firstFail + c.lockout
    ensures var m' := RunFrom(c, m, calls);
            && (key in m' ==> m'[key].firstFail == m[key].firstFail)
            && (key !in m' ==> exists i :: 0 <= i < |calls| && calls[i].now > m[key].firstFail + c.lockout)
  {
    if calls != [] {
      var before, call := calls[..|calls| - 1], calls[|calls| - 1];
      assert call in calls && forall x :: x in before ==> x in calls;
      NeverLater(c, m, key, before);
      if key !in RunFrom(c, m, before) {
        var i :| 0 <= i < |before| && before[i].now > m[key].firstFail + c.lockout;
        assert calls[i] == before[i] && calls[i].now <= call.now;
      } else if key !in RunFrom(c, m, calls) {
        assert calls[|calls| - 1].now > m[key].firstFail + c.lockout;
      }
    }
  }

  // ---------------------------------------------------------------- interleaved logins

  /** Login handlers: each is idle, or past the check for some key and about to verify the password. */
  datatype System = System(attempts: Attempts, now: int, callers: seq<Option<string>>)

  datatype Verdict = NoSuchUser | AccountLocked | WrongPassword | Correct

  datatype Action =
    | Tick(delta: nat)
    | Enter(caller: nat, key: string)      // IsLocked: refuse, or go on to verify
    | Resolve(caller: nat, verdict: Verdict)

  function Idle(n: nat): System {
    System(map[], 0, seq(n, i => None))
  }

  function Next(c: Config, s: System, a: Action): System {
    match a
    case Tick(delta) => s.(now := s.now + delta)
    case Enter(i, key) =>
      if i < |s.callers| && s.callers[i] == None then
        s.(attempts := After(c, s.attempts, Check(key, s.now)),
           callers := if Locked(c, s.attempts, key, s.now) then s.callers else s.callers[i := Some(key)])
      else s
    case Resolve(i, verdict) =>
      if i < |s.callers| && s.callers[i].Some? then
        var key := s.callers[i].value;
        s.(callers := s.callers[i := None],
           attempts :=
             match verdict
             case NoSuchUser => Failed(c, s.attempts, key, s.now)
             case WrongPassword => Failed(c, s.attempts, key, s.now)
             case AccountLocked => s.attempts
             case Correct => s.attempts - {key})
      else s
  }

  function RunLogins(c: Config, n: nat, actions: seq<Action>): System {
    if actions == [] then Idle(n) else Next(c, RunLogins(c, n, actions[..|actions| - 1]), actions[|actions| - 1])
  }

  /** The callers past the check for this key. */
  function Pending(callers: seq<Option<string>>, key: string): (r: nat)
    ensures r <= |callers|
  {
    if callers == [] then 0
    else Pending(callers[..|callers| - 1], key) + if callers[|callers| - 1] == Some(key) then 1 else 0
  }

  lemma {:induction false} PendingUpdate(callers: seq<Option<string>>, i: nat, x: Option<string>, key: string)
    requires i < |callers|
    ensures Pending(callers[i := x], key)
         == Pending(callers, key) - (if callers[i] == Some(key) then 1 else 0) + (if x == Some(key) then 1 else 0)
  {
    var n := |callers| - 1;
    if i < n {
      PendingUpdate(callers[..n], i, x, key);
      assert callers[i := x][..n] == callers[..n][i := x];
    } else {
      assert callers[i := x][..n] == callers[..n];
    }
  }

  function Count(m: Attempts, key: string): int {
    if key in m then m[key].count else 0
  }

  function AtLeastOne(limit: int): int {
    if limit < 1 then 1 else limit
  }

  /** Failures recorded against the current FirstFail, and those that may still be, are bounded. */
  ghost predicate Bounded(c: Config, s: System, key: string) {
    && Count(s.attempts, key) + Pending(s.callers, key) <= AtLeastOne(c.limit) - 1 + |s.callers|
    && (key in s.attempts ==> s.attempts[key].count >= 1)
  }

  lemma BoundedStep(c: Config, s: System, a: Action, key: string)
    requires Bounded(c, s, key)
    ensures Bounded(c, Next(c, s, a), key)
  {
    if a.Enter? && a.caller < |s.callers| {
      PendingUpdate(s.callers, a.caller, Some(a.key), key);
    } else if a.Resolve? && a.caller < |s.callers| {
      PendingUpdate(s.callers, a.caller, None, key);
    }
  }

  lemma {:induction false} CallersConstant(c: Config, n: nat, actions: seq<Action>)
    ensures |RunLogins(c, n, actions).callers| == n
  {
    if actions != [] {
      CallersConstant(c, n, actions[..|actions| - 1]);
    }
  }

  lemma {:induction false} IdlePending(n: nat, key: string)
    ensures Pending(seq<Option<string>>(n, i => None), key) == 0
  {
    if n > 0 {
      IdlePending(n - 1, key);
      assert seq<Option<string>>(n, i => None)[..n - 1] == seq<Option<string>>(n - 1, i => None);
    }
  }

  /**
   Any interleaving of logins by n concurrent callers, over any keys, with expiry and resets:
   no count ever exceeds limit + n - 1.
   */
  lemma {:induction false} CountBounded(c: Config, n: nat, actions: seq<Action>, key: string)
    requires n >= 1
    ensures var s := RunLogins(c, n, actions);
            Bounded(c, s, key) && Count(s.attempts, key) <= AtLeastOne(c.limit) + n - 1
  {
    CallersConstant(c, n, actions);
    if actions == [] {
      IdlePending(n, key);
    } else {
      var before := actions[..|actions| - 1];
      CountBounded(c, n, before, key);
      CallersConstant(c, n, before);
      BoundedStep(c, RunLogins(c, n, before), actions[|actions| - 1], key);
    }
  }

  // ---------------------------------------------------------------- the bound is reached

  /** `k` failures against a FirstFail at time 0. */
  function Counted(key: string, k: nat): Attempts {
    if k == 0 then map[] else map[key := LoginAttempt(k, 0)]
  }

  /** The first `j` of `n` callers are past the check. */
  function FirstPending(n: nat, j: nat, key: string): seq<Option<string>> {
    seq(n, i => if i < j then Some(key) else None)
  }

  lemma RunLoginsNext(c: Config, n: nat, actions: seq<Action>, a: Action)
    ensures RunLogins(c, n, actions + [a]) == Next(c, RunLogins(c, n, actions), a)
  {
    assert (actions + [a])[..|actions|] == actions;
  }

  lemma {:induction false} FailOneByOne(c: Config, n: nat, key: string, k: nat) returns (actions: seq<Action>)
    requires n >= 1 && k < AtLeastOne(c.limit) && c.lockout >= 0
    ensures RunLogins(c, n, actions) == System(Counted(key, k), 0, FirstPending(n, 0, key))
  {
    if k == 0 {
      actions := [];
      assert Idle(n).callers == FirstPending(n, 0, key);
    } else {
      actions := FailOneByOne(c, n, key, k - 1);
      var enter, fail := Enter(0, key), Resolve(0, WrongPassword);
      RunLoginsNext(c, n, actions, enter);
      RunLoginsNext(c, n, actions + [enter], fail);
      assert FirstPending(n, 0, key)[0 := Some(key)][0 := None] == FirstPending(n, 0, key);
      assert Failed(c, Counted(key, k - 1), key, 0) == Counted(key, k);
      actions := actions + [enter] + [fail];
    }
  }

  lemma {:induction false} AllEnter(c: Config, n: nat, key: string, k: nat, j: nat) returns (actions: seq<Action>)
    requires j <= n && n >= 1 && k < AtLeastOne(c.limit) && c.lockout >= 0
    ensures RunLogins(c, n, actions) == System(Counted(key, k), 0, FirstPending(n, j, key))
  {
    if j == 0 {
      actions := FailOneByOne(c, n, key, k);
    } else {
      actions := AllEnter(c, n, key, k, j - 1);
      RunLoginsNext(c, n, actions, Enter(j - 1, key));
      assert FirstPending(n, j - 1, key)[j - 1 := Some(key)] == FirstPending(n, j, key);
      actions := actions + [Enter(j - 1, key)];
    }
  }

  lemma {:induction false} AllFail(c: Config, n: nat, key: string, k: nat, j: nat) returns (actions: seq<Action>)
    requires j <= n && n >= 1 && k < AtLeastOne(c.limit) && c.lockout >= 0
    ensures RunLogins(c, n, actions) == System(Counted(key, k + (n - j)), 0, FirstPending(n, j, key))
    decreases n - j
  {
    if j == n {
      actions := AllEnter(c, n, key, k, n);
    } else {
      actions := AllFail(c, n, key, k, j + 1);
      RunLoginsNext(c, n, actions, Resolve(j, WrongPassword));
      assert FirstPending(n, j + 1, key)[j := None] == FirstPending(n, j, key);
      assert Failed(c, Counted(key, k + (n - j - 1)), key, 0) == Counted(key, k + (n - j));
      actions := actions + [Resolve(j, WrongPassword)];
    }
  }

  /** A negative lockout has always passed, so every failure starts anew. */
  ghost predicate OneEach(s: System) {
    forall key :: key in s.attempts ==> s.attempts[key].count == 1 && s.attempts[key].firstFail <= s.now
  }

  lemma OneEachStep(c: Config, s: System, a: Action)
    requires c.lockout < 0 && OneEach(s)
    ensures OneEach(Next(c, s, a))
  {
  }

  lemma {:induction false} OneEachRun(c: Config, n: nat, actions: seq<Action>)
    requires c.lockout < 0
    ensures OneEach(RunLogins(c, n, actions))
  {
    if actions != [] {
      OneEachRun(c, n, actions[..|actions| - 1]);
      OneEachStep(c, RunLogins(c, n, actions[..|actions| - 1]), actions[|actions| - 1]);
    }
  }

  lemma OneFailure(c: Config, n: nat, key: string) returns (actions: seq<Action>)
    requires n >= 1
    ensures Count(RunLogins(c, n, actions).attempts, key) == 1
  {
    var enter, fail := Enter(0, key), Resolve(0, WrongPassword);
    RunLoginsNext(c, n, [], enter);
    RunLoginsNext(c, n, [] + [enter], fail);
    actions := [] + [enter] + [fail];
  }

  ghost predicate Reaches(c: Config, n: nat, key: string, count: int) {
    exists actions :: Count(RunLogins(c, n, actions).attempts, key) == count
  }

  /**
   For every limit and every number of callers there is an interleaving in which the count
   reaches the bound, if and only if the lockout is not negative or the bound is one.
   */
  lemma CountReached(c: Config, n: nat, key: string)
    requires n >= 1
    ensures Reaches(c, n, key, AtLeastOne(c.limit) + n - 1) <==> c.lockout >= 0 || AtLeastOne(c.limit) + n - 1 == 1
  {
    var bound := AtLeastOne(c.limit) + n - 1;
    if c.lockout >= 0 {
      var actions := AllFail(c, n, key, AtLeastOne(c.limit) - 1, 0);
      assert Count(RunLogins(c, n, actions).attempts, key) == bound;
    } else {
      var actions := OneFailure(c, n, key);
      assert Count(RunLogins(c, n, actions).attempts, key) == 1;
      if actions' :| Count(RunLogins(c, n, actions').attempts, key) == bound {
        OneEachRun(c, n, actions');
      }
    }
  }

  // ---------------------------------------------------------------- the login handler

  /** What the user table says: until when the account is locked, and whether the password fits its hash. */
  datatype User = User(lockedUntil: Option<int>, verified: Option<bool>)

  function VerdictOf(user: Option<User>, now: int): Verdict {
    match user
    case None => NoSuchUser
    case Some(User(lockedUntil, verified)) =>
      if lockedUntil.Some? && now < lockedUntil.value then AccountLocked
      else if verified == Some(true) then Correct
      else WrongPassword
  }

  datatype LoginResult = TooManyFailures | InvalidCredentials | Disabled | LoggedIn

  class Authenticator {
    const loginLimiter: LoginRateLimiter

    constructor (loginLimiter: LoginRateLimiter)
      ensures this.loginLimiter == loginLimiter
    {
      this.loginLimiter := loginLimiter;
    }

    /** One login without interruption is one caller's two actions of the machine. */
    method Login(username: string, user: Option<User>, now: int) returns (r: LoginResult)
      modifies loginLimiter
      ensures
        var c, key := loginLimiter.config, "login:" + username;
        var s := System(old(loginLimiter.attempts), now, [None]);
        var s' := Next(c, Next(c, s, Enter(0, key)), Resolve(0, VerdictOf(user, now)));
        s'.attempts == loginLimiter.attempts && s'.callers == [None]
      ensures
        var locked := Locked(loginLimiter.config, old(loginLimiter.attempts), "login:" + username, now);
        var disabled := user.Some? && user.value.lockedUntil.Some? && now < user.value.lockedUntil.value;
        && (r == TooManyFailures <==> locked)
        && (r == Disabled <==> !locked && disabled)
        && (r == LoggedIn <==> !locked && !disabled && user.Some? && user.value.verified == Some(true))
      ensures
        var m, m', key := old(loginLimiter.attempts), loginLimiter.attempts, "login:" + username;
        && m' - {key} == m - {key}
        && (r == LoggedIn ==> key !in m')
        && (r == InvalidCredentials ==>
              && key in m'
              && m'[key] == (if key in m && now - m[key].firstFail <= loginLimiter.config.lockout
                             then m[key].(count := m[key].count + 1) else LoginAttempt(1, now)))
    {
      var lockKey := "login:" + username;
      var locked := loginLimiter.IsLocked(lockKey, now);
      if locked {
        return TooManyFailures;
      }
      if user.None? {
        loginLimiter.RecordFail(lockKey, now);
        return InvalidCredentials;
      }
      if user.value.lockedUntil.Some? && now < user.value.lockedUntil.value {
        return Disabled;
      }
      if user.value.verified != Some(true) {
        loginLimiter.RecordFail(lockKey, now);
        return InvalidCredentials;
      }
      loginLimiter.Reset(lockKey, now);
      r := LoggedIn;
    }
  }
}
