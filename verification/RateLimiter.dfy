/**
 The sliding-window request limiter (internal/query/validator.go). Times are integers; the
 clock is read under the limiter's lock, so the calls see non-decreasing times.
 */
module RateLimiter {
  import opened Selection

  datatype Config = Config(limit: int, window: int)

  type Attempts = map<string, seq<int>>

  function TimesOf(a: Attempts, key: string): seq<int> {
    if key in a then a[key] else []
  }

  /** The times later than `start`. */
  function Recent(times: seq<int>, start: int): (r: seq<int>)
    ensures |r| <= |times|
  {
    if times == [] then []
    else
      var t := times[|times| - 1];
      Recent(times[..|times| - 1], start) + if t > start then [t] else []
  }

  lemma RecentNext(times: seq<int>, t: int, start: int)
    ensures Recent(times + [t], start) == if t > start then Recent(times, start) + [t] else Recent(times, start)
  {
    assert (times + [t])[..|times|] == times;
    assert Recent(times, start) + [] == Recent(times, start);
  }

  /** What has been discarded once would be discarded at every later time. */
  lemma {:induction false} RecentAgain(times: seq<int>, early: int, late: int)
    requires early <= late
    ensures Recent(Recent(times, early), late) == Recent(times, late)
  {
    if times != [] {
      var init, t := times[..|times| - 1], times[|times| - 1];
      RecentAgain(init, early, late);
      assert times == init + [t];
      RecentNext(init, t, early);
      RecentNext(init, t, late);
      RecentNext(Recent(init, early), t, late);
    }
  }

  predicate Allows(c: Config, times: seq<int>, now: int) {
    |Recent(times, now - c.window)| < c.limit
  }

  class RateLimiter {
    const config: Config
    var attempts: Attempts

    constructor (limit: int, window: int)
      ensures config == Config(limit, window) && attempts == map[]
    {
      config, attempts := Config(limit, window), map[];
    }

    /** The loop of `Allow` that drops the times that have left the window. */
    method Prune(entries: seq<int>, windowStart: int) returns (valid: seq<int>)
      ensures valid == Recent(entries, windowStart)
    {
      valid := [];
      for i := 0 to |entries|
        invariant valid == Recent(entries[..i], windowStart)
      {
        assert entries[..i + 1] == entries[..i] + [entries[i]];
        RecentNext(entries[..i], entries[i], windowStart);
        if entries[i] > windowStart {
          valid := valid + [entries[i]];
        }
      }
      assert entries[..|entries|] == entries;
    }

    /** Admits the call if, after pruning, fewer times than the limit remain. */
    method Allow(key: string, now: int) returns (ok: bool)
      modifies this
      ensures ok <==> Allows(config, TimesOf(old(attempts), key), now)
      ensures attempts == After(config, old(attempts), Attempt(key, now))
    {
      var valid := Prune(TimesOf(attempts, key), now - config.window);
      if |valid| >= config.limit {
        attempts := attempts[key := valid];
        return false;
      }
      valid := valid + [now];
      attempts := attempts[key := valid];
      ok := true;
    }

    method Reset(key: string)
      modifies this
      ensures attempts == old(attempts) - {key} == After(config, old(attempts), Clear(key))
    {
      attempts := attempts - {key};
    }
  }

  // ---------------------------------------------------------------- runs of one limiter

  datatype Call = Attempt(key: string, now: int) | Clear(key: string)

  function After(c: Config, a: Attempts, call: Call): Attempts {
    match call
    case Clear(key) => a - {key}
    case Attempt(key, now) => a[key := Kept(c, TimesOf(a, key), now)]
  }

  /** What an attempt leaves stored for its key. */
  function Kept(c: Config, times: seq<int>, now: int): seq<int> {
    var valid := Recent(times, now - c.window);
    if |valid| < c.limit then valid + [now] else valid
  }

  function Run(c: Config, calls: seq<Call>): Attempts {
    if calls == [] then map[] else After(c, Run(c, calls[..|calls| - 1]), calls[|calls| - 1])
  }

  /** The limiter's answer to a call made after the given ones. */
  predicate Answer(c: Config, calls: seq<Call>, key: string, now: int) {
    Allows(c, TimesOf(Run(c, calls), key), now)
  }

  /** Every time at which the limiter admitted the key since the last `Reset` of it. */
  function Admitted(c: Config, calls: seq<Call>, key: string): seq<int> {
    if calls == [] then []
    else
      var before, call := calls[..|calls| - 1], calls[|calls| - 1];
      if call.key != key then Admitted(c, before, key)
      else if call.Clear? then []
      else Admitted(c, before, key) + if Answer(c, before, key, call.now) then [call.now] else []
  }

  /** The clock does not run backwards, and has come to `now` at most. */
  ghost predicate ClockOk(calls: seq<Call>, now: int) {
    && (forall i :: 0 <= i < |calls| && calls[i].Attempt? ==> calls[i].now <= now)
    && (forall i, j :: 0 <= i < j < |calls| && calls[i].Attempt? && calls[j].Attempt? ==> calls[i].now <= calls[j].now)
  }

  lemma ClockBefore(calls: seq<Call>, now: int)
    requires calls != [] && ClockOk(calls, now)
    ensures var call := calls[|calls| - 1]; ClockOk(calls[..|calls| - 1], if call.Attempt? then call.now else now)
  {
  }

  lemma PrunedAfter(stored: seq<int>, all: seq<int>, early: int, late: int, t: int)
    requires early <= late && Recent(stored, early) == Recent(all, early)
    ensures Recent(Recent(stored, early), late) == Recent(all, late)
    ensures Recent(Recent(stored, early) + [t], late) == Recent(all + [t], late)
  {
    var valid := Recent(stored, early);
    assert Recent(valid, late) == Recent(all, late) by {
      RecentAgain(all, early, late);
    }
    RecentNext(valid, t, late);
    RecentNext(all, t, late);
  }

  /** One attempt on a pruned list and on the full list leave lists that agree from then on. */
  lemma KeptAgrees(c: Config, stored: seq<int>, all: seq<int>, t: int, now: int)
    requires t <= now && Recent(stored, t - c.window) == Recent(all, t - c.window)
    ensures Allows(c, stored, t) <==> Allows(c, all, t)
    ensures Recent(Kept(c, stored, t), now - c.window)
         == Recent(if Allows(c, stored, t) then all + [t] else all, now - c.window)
  {
    PrunedAfter(stored, all, t - c.window, now - c.window, t);
  }

  /** From `now` on, what is stored and what has been admitted agree. */
  ghost predicate Agrees(c: Config, stored: seq<int>, all: seq<int>, now: int) {
    Recent(stored, now - c.window) == Recent(all, now - c.window)
  }

  lemma AgreesNext(c: Config, m: Attempts, key: string, all: seq<int>, t: int, now: int, m': Attempts, all': seq<int>)
    requires t <= now && Agrees(c, TimesOf(m, key), all, t) && m' == After(c, m, Attempt(key, t))
    requires all' == if Allows(c, TimesOf(m, key), t) then all + [t] else all
    ensures Agrees(c, TimesOf(m', key), all', now)
  {
    KeptAgrees(c, TimesOf(m, key), all, t, now);
  }

  lemma {:induction false} PrunedAgrees(c: Config, calls: seq<Call>, key: string, now: int)
    requires ClockOk(calls, now)
    ensures Agrees(c, TimesOf(Run(c, calls), key), Admitted(c, calls, key), now)
  {
    if calls != [] {
      var before, call := calls[..|calls| - 1], calls[|calls| - 1];
      ClockBefore(calls, now);
      if call.Attempt? && call.key == key {
        PrunedAgrees(c, before, key, call.now);
        assert Admitted(c, before, key) + [] == Admitted(c, before, key);
        AgreesNext(c, Run(c, before), key, Admitted(c, before, key), call.now, now, Run(c, calls), Admitted(c, calls, key));
      } else if call.key != key {
        PrunedAgrees(c, before, key, now);
      }
    }
  }

  /**
   Pruning is unobservable: after any calls the limiter answers as one would that keeps every
   admitted time since the last Reset of the key; and it never stores more than its limit.
   */
  lemma PruningUnobservable(c: Config, calls: seq<Call>, key: string, now: int)
    requires ClockOk(calls, now)
    ensures Answer(c, calls, key, now) <==> Allows(c, Admitted(c, calls, key), now)
    ensures |TimesOf(Run(c, calls), key)| <= if c.limit < 0 then 0 else c.limit
  {
    StoredBound(c, calls, key);
    SameAnswer(c, calls, key, now);
  }

  lemma SameAllows(c: Config, x: seq<int>, y: seq<int>, now: int)
    requires Recent(x, now - c.window) == Recent(y, now - c.window)
    ensures Allows(c, x, now) <==> Allows(c, y, now)
  {
  }

  lemma SameAnswer(c: Config, calls: seq<Call>, key: string, now: int)
    requires ClockOk(calls, now)
    ensures Answer(c, calls, key, now) <==> Allows(c, Admitted(c, calls, key), now)
  {
    PrunedAgrees(c, calls, key, now);
    SameAllows(c, TimesOf(Run(c, calls), key), Admitted(c, calls, key), now);
  }

  lemma {:induction false} StoredBound(c: Config, calls: seq<Call>, key: string)
    ensures |TimesOf(Run(c, calls), key)| <= if c.limit < 0 then 0 else c.limit
  {
    if calls != [] {
      StoredBound(c, calls[..|calls| - 1], key);
    }
  }

  // ---------------------------------------------------------------- the sliding window

  /** How many of the times lie in the half-open interval (lo, hi]. */
  function Within(times: seq<int>, lo: int, hi: int): nat {
    if times == [] then 0
    else
      var t := times[|times| - 1];
      Within(times[..|times| - 1], lo, hi) + if lo < t <= hi then 1 else 0
  }

  ghost predicate Sorted(times: seq<int>) {
    forall i, j :: 0 <= i < j < |times| ==> times[i] <= times[j]
  }

  /** Any two admissions that are `limit` apart in number are at least a window apart in time. */
  ghost predicate Spaced(c: Config, times: seq<int>) {
    && Sorted(times)
    && (c.limit <= 0 ==> times == [])
    && (c.limit > 0 ==> forall i :: c.limit <= i < |times| ==> times[i - c.limit] <= times[i] - c.window)
  }

  /** The number of times up to `x`; in a sorted list they come first. */
  function UpTo(times: seq<int>, x: int): (r: nat)
    ensures r <= |times|
  {
    if times == [] then 0 else UpTo(times[..|times| - 1], x) + if times[|times| - 1] <= x then 1 else 0
  }

  lemma {:induction false} UpToSplits(times: seq<int>, x: int)
    requires Sorted(times)
    ensures forall i :: 0 <= i < |times| ==> (times[i] <= x <==> i < UpTo(times, x))
    ensures |Recent(times, x)| == |times| - UpTo(times, x)
  {
    if times != [] {
      UpToSplits(times[..|times| - 1], x);
    }
  }

  lemma {:induction false} WithinIsDifference(times: seq<int>, lo: int, hi: int)
    ensures lo <= hi ==> Within(times, lo, hi) == UpTo(times, hi) - UpTo(times, lo)
    ensures hi <= lo ==> Within(times, lo, hi) == 0
  {
    if times != [] {
      WithinIsDifference(times[..|times| - 1], lo, hi);
    }
  }

  lemma SpacedBound(c: Config, times: seq<int>, a: int)
    requires Spaced(c, times)
    ensures Within(times, a, a + c.window) <= if c.limit < 0 then 0 else c.limit
  {
    WithinIsDifference(times, a, a + c.window);
    UpToSplits(times, a);
    UpToSplits(times, a + c.window);
    var q := UpTo(times, a + c.window);
    if 0 < c.limit < q {
      assert times[q - 1 - c.limit] <= times[q - 1] - c.window;
    }
  }

  lemma SpacedNext(c: Config, times: seq<int>, now: int)
    requires Spaced(c, times) && Allows(c, times, now)
    requires forall i :: 0 <= i < |times| ==> times[i] <= now
    ensures Spaced(c, times + [now])
  {
    UpToSplits(times, now - c.window);
  }

  lemma {:induction false} AdmittedBefore(c: Config, calls: seq<Call>, key: string, now: int)
    requires ClockOk(calls, now)
    ensures forall i :: 0 <= i < |Admitted(c, calls, key)| ==> Admitted(c, calls, key)[i] <= now
  {
    if calls != [] {
      AdmittedBefore(c, calls[..|calls| - 1], key, now);
    }
  }

  lemma {:induction false} AdmittedSpaced(c: Config, calls: seq<Call>, key: string, now: int)
    requires ClockOk(calls, now)
    ensures Spaced(c, Admitted(c, calls, key))
  {
    if calls != [] {
      var before, call := calls[..|calls| - 1], calls[|calls| - 1];
      ClockBefore(calls, now);
      if call.Attempt? {
        AdmittedSpaced(c, before, key, call.now);
        AdmittedBefore(c, before, key, call.now);
        SameAnswer(c, before, key, call.now);
        if call.key == key && Answer(c, before, key, call.now) {
          SpacedNext(c, Admitted(c, before, key), call.now);
        }
      } else {
        AdmittedSpaced(c, before, key, now);
      }
    }
  }

  /**
   The sliding-window bound: for every key and every run, every interval (a, a + window]
   contains at most `limit` admitted requests (since the last Reset of the key).
   */
  lemma WindowBound(c: Config, calls: seq<Call>, key: string, now: int, a: int)
    requires ClockOk(calls, now)
    ensures Within(Admitted(c, calls, key), a, a + c.window) <= if c.limit < 0 then 0 else c.limit
  {
    AdmittedSpaced(c, calls, key, now);
    SpacedBound(c, Admitted(c, calls, key), a);
  }

  lemma {:induction false} WithinIsRecent(times: seq<int>, lo: int, hi: int)
    requires forall i :: 0 <= i < |times| ==> times[i] <= hi
    ensures Within(times, lo, hi) == |Recent(times, lo)|
  {
    if times != [] {
      WithinIsRecent(times[..|times| - 1], lo, hi);
    }
  }

  /** A call is admitted if and only if fewer than `limit` of the key's admissions lie in (now - window, now]. */
  lemma AdmittedIff(c: Config, calls: seq<Call>, key: string, now: int)
    requires ClockOk(calls, now)
    ensures Answer(c, calls, key, now) <==> Within(Admitted(c, calls, key), now - c.window, now) < c.limit
  {
    SameAnswer(c, calls, key, now);
    AdmittedBefore(c, calls, key, now);
    WithinIsRecent(Admitted(c, calls, key), now - c.window, now);
  }

  /** The call at `k` is an attempt of the key that was admitted. */
  ghost predicate IsAdmission(c: Config, calls: seq<Call>, key: string, k: nat)
    requires k < |calls|
  {
    calls[k].Attempt? && calls[k].key == key && Answer(c, calls[..k], key, calls[k].now)
  }

  predicate IsReset(call: Call, key: string) {
    call.Clear? && call.key == key
  }

  /** ... and no `Reset` of the key has come since. */
  ghost predicate Stands(c: Config, calls: seq<Call>, key: string, k: nat) {
    k < |calls| && IsAdmission(c, calls, key, k) && forall i :: k < i < |calls| ==> !IsReset(calls[i], key)
  }

  lemma StandsNext(c: Config, before: seq<Call>, call: Call, key: string, k: nat)
    ensures k < |before| ==> (Stands(c, before + [call], key, k) <==> Stands(c, before, key, k) && !IsReset(call, key))
    ensures k == |before| ==> (Stands(c, before + [call], key, k) <==> call.Attempt? && call.key == key && Answer(c, before, key, call.now))
    ensures k > |before| ==> !Stands(c, before + [call], key, k)
  {
    var calls := before + [call];
    assert k <= |before| ==> calls[..k] == before[..k];
    assert before[..|before|] == before;
    assert forall i :: 0 <= i < |before| ==> calls[i] == before[i];
    assert calls[|before|] == call;
  }

  /** These are the positions of the admissions that stand, and these their times. */
  ghost predicate TimesAt(c: Config, calls: seq<Call>, key: string, times: seq<int>, picks: seq<nat>) {
    && |picks| == |times| && Increasing(picks) && Below(picks, |calls|)
    && (forall i :: 0 <= i < |picks| ==> picks[i] < |calls| && calls[picks[i]] == Attempt(key, times[i]))
    && (forall k: nat :: k in picks <==> Stands(c, calls, key, k))
  }

  lemma TimesReset(c: Config, before: seq<Call>, call: Call, key: string)
    requires IsReset(call, key)
    ensures TimesAt(c, before + [call], key, [], [])
  {
    forall k: nat ensures !Stands(c, before + [call], key, k) {
      StandsNext(c, before, call, key, k);
    }
  }

  lemma TimesNext(c: Config, before: seq<Call>, call: Call, key: string, times: seq<int>, picks: seq<nat>,
                  pick: bool, times': seq<int>, picks': seq<nat>)
    requires TimesAt(c, before, key, times, picks) && !IsReset(call, key)
    requires pick <==> call.Attempt? && call.key == key && Answer(c, before, key, call.now)
    requires times' == (if pick then times + [call.now] else times) && picks' == if pick then picks + [|before|] else picks
    ensures TimesAt(c, before + [call], key, times', picks')
  {
    var calls := before + [call];
    PickNext(picks, |before|, pick, picks');
    forall k: nat ensures k in picks' <==> Stands(c, calls, key, k) {
      StandsNext(c, before, call, key, k);
    }
    assert forall i :: 0 <= i < |before| ==> calls[i] == before[i];
  }

  /** What counts as admitted: the times of exactly those attempts of the key that were answered yes since its last `Reset`. */
  lemma {:induction false} AdmittedCalls(c: Config, calls: seq<Call>, key: string) returns (picks: seq<nat>)
    ensures TimesAt(c, calls, key, Admitted(c, calls, key), picks)
  {
    picks := [];
    if calls != [] {
      var before, call := calls[..|calls| - 1], calls[|calls| - 1];
      assert calls == before + [call];
      if IsReset(call, key) {
        TimesReset(c, before, call, key);
      } else {
        var earlier := AdmittedCalls(c, before, key);
        var pick := call.Attempt? && call.key == key && Answer(c, before, key, call.now);
        picks := if pick then earlier + [|before|] else earlier;
        assert Admitted(c, before, key) + [] == Admitted(c, before, key);
        TimesNext(c, before, call, key, Admitted(c, before, key), earlier, pick, Admitted(c, calls, key), picks);
      }
    }
  }
}
