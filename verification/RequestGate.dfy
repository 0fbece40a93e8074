/**
 The middleware that puts two request limiters in sequence (internal/server/middleware.go). A
 request first charges the limiter of addresses and then, if that admits it, the limiter of
 users. Each limiter locks itself and reads its own clock, and other requests run in between,
 so a request takes two steps of a state machine.
 */
module RequestGate {
  import opened RateLimiter
  import opened Wrappers

  /** `who` is the person behind a request; the middleware knows only `user`, if anybody. */
  datatype Request = Request(who: string, address: string, user: Option<string>)

  function KeyOf(r: Request): string {
    if r.user.Some? then r.user.value else r.address
  }

  datatype Limits = Limits(user: Config, ip: Config)

  /** A request that the address limiter has admitted, and one that has passed both limiters. */
  datatype Waiting = Waiting(request: Request, at: int)

  datatype Passage = Passage(request: Request, atAddress: int, atUser: int)

  /** The calls that each limiter has seen, the requests between the two, and those that have passed. */
  datatype Gate = Gate(addressCalls: seq<Call>, userCalls: seq<Call>, waiting: seq<Waiting>, passed: seq<Passage>)

  datatype Step = AtAddress(request: Request, now: int) | AtUser(k: nat, now: int)

  function Without<T>(s: seq<T>, k: nat): seq<T>
    requires k < |s|
  {
    s[..k] + s[k + 1..]
  }

  function GateNext(l: Limits, g: Gate, step: Step): Gate {
    match step
    case AtAddress(r, now) =>
      g.(addressCalls := g.addressCalls + [Attempt(r.address, now)],
         waiting := if Answer(l.ip, g.addressCalls, r.address, now) then g.waiting + [Waiting(r, now)] else g.waiting)
    case AtUser(k, now) =>
      if k < |g.waiting| then
        var w := g.waiting[k];
        var key := KeyOf(w.request);
        g.(userCalls := g.userCalls + [Attempt(key, now)],
           waiting := Without(g.waiting, k),
           passed := if Answer(l.user, g.userCalls, key, now) then g.passed + [Passage(w.request, w.at, now)] else g.passed)
      else g
  }

  function RunGate(l: Limits, steps: seq<Step>): Gate {
    if steps == [] then Gate([], [], [], [])
    else GateNext(l, RunGate(l, steps[..|steps| - 1]), steps[|steps| - 1])
  }

  class Middleware {
    const userLimiter: RateLimiter
    const ipLimiter: RateLimiter

    constructor (userLimiter: RateLimiter, ipLimiter: RateLimiter)
      ensures this.userLimiter == userLimiter && this.ipLimiter == ipLimiter
    {
      this.userLimiter, this.ipLimiter := userLimiter, ipLimiter;
    }

    ghost function Limiting(): Limits {
      Limits(userLimiter.config, ipLimiter.config)
    }

    /** The limiters have seen the calls of the gate. */
    ghost predicate At(g: Gate)
      reads userLimiter, ipLimiter
    {
      ipLimiter.attempts == Run(ipLimiter.config, g.addressCalls)
      && userLimiter.attempts == Run(userLimiter.config, g.userCalls)
    }

    /** One request, with the times that the two limiters read. It takes its steps of the gate. */
    method Pass(r: Request, first: int, second: int, ghost g: Gate) returns (ok: bool, ghost g': Gate)
      requires userLimiter != ipLimiter && At(g)
      modifies userLimiter, ipLimiter
      ensures At(g') && g'.waiting == g.waiting
      ensures var g1 := GateNext(Limiting(), g, AtAddress(r, first));
              g' == if g1.waiting == g.waiting then g1 else GateNext(Limiting(), g1, AtUser(|g.waiting|, second))
      ensures g'.passed == if ok then g.passed + [Passage(r, first, second)] else g.passed
      ensures
        var key := if r.user.Some? then r.user.value else r.address;
        var byAddress := Allows(ipLimiter.config, TimesOf(old(ipLimiter.attempts), r.address), first);
        && (ok <==> byAddress && Allows(userLimiter.config, TimesOf(old(userLimiter.attempts), key), second))
        && ipLimiter.attempts - {r.address} == old(ipLimiter.attempts) - {r.address}
        && (!byAddress ==> userLimiter.attempts == old(userLimiter.attempts))
        && userLimiter.attempts - {key} == old(userLimiter.attempts) - {key}
    {
      g' := GateNext(Limiting(), g, AtAddress(r, first));
      CallsNext(ipLimiter.config, g.addressCalls, Attempt(r.address, first));
      ok := ipLimiter.Allow(r.address, first);
      if !ok {
        return;
      }
      assert g'.waiting == g.waiting + [Waiting(r, first)];
      var key := r.address;
      if r.user.Some? {
        key := r.user.value;
      }
      CallsNext(userLimiter.config, g.userCalls, Attempt(key, second));
      g' := GateNext(Limiting(), g', AtUser(|g.waiting|, second));
      ok := userLimiter.Allow(key, second);
    }
  }

  lemma CallsNext(c: Config, calls: seq<Call>, call: Call)
    ensures Run(c, calls + [call]) == After(c, Run(c, calls), call)
  {
    assert (calls + [call])[..|calls|] == calls;
  }

  // ---------------------------------------------------------------- counting

  /**
   Passages of an address, of a key, of an address again, of a person, or of a person from some
   addresses, in an interval: by the time at the address limiter, by the time at the user
   limiter, and by both in the others.
   */
  datatype Selector =
    | OfAddress(address: string, lo: int, hi: int)
    | OfKey(key: string, lo: int, hi: int)
    | OfBoth(address: string, lo: int, hi: int)
    | OfWho(who: string, lo: int, hi: int)
    | OfPerson(who: string, addresses: set<string>, lo: int, hi: int)

  predicate Selects(of: Selector, p: Passage) {
    match of
    case OfAddress(address, lo, hi) => p.request.address == address && lo < p.atAddress <= hi
    case OfKey(key, lo, hi) => KeyOf(p.request) == key && lo < p.atUser <= hi
    case OfBoth(address, lo, hi) =>
      p.request.address == address && lo < p.atAddress <= hi && lo < p.atUser <= hi
    case OfWho(who, lo, hi) => p.request.who == who && lo < p.atAddress <= hi && lo < p.atUser <= hi
    case OfPerson(who, addresses, lo, hi) =>
      && p.request.who == who && p.request.address in addresses
      && lo < p.atAddress <= hi && lo < p.atUser <= hi
  }

  function Count(passed: seq<Passage>, of: Selector): (n: nat)
    ensures n <= |passed|
  {
    if passed == [] then 0
    else Count(passed[..|passed| - 1], of) + if Selects(of, passed[|passed| - 1]) then 1 else 0
  }

  lemma CountNext(passed: seq<Passage>, p: Passage, of: Selector)
    ensures Count(passed + [p], of) == Count(passed, of) + if Selects(of, p) then 1 else 0
  {
    assert (passed + [p])[..|passed|] == passed;
  }

  lemma {:induction false} CountUnion(passed: seq<Passage>, of: Selector, a: Selector, b: Selector)
    requires forall p :: p in passed && Selects(of, p) ==> Selects(a, p) || Selects(b, p)
    ensures Count(passed, of) <= Count(passed, a) + Count(passed, b)
    ensures a == b ==> Count(passed, of) <= Count(passed, a)
  {
    if passed != [] {
      var init, p := passed[..|passed| - 1], passed[|passed| - 1];
      assert p in passed && forall q :: q in init ==> q in passed;
      CountUnion(init, of, a, b);
    }
  }

  lemma {:induction false} CountAll(passed: seq<Passage>, of: Selector)
    ensures (forall p :: p in passed ==> Selects(of, p)) ==> Count(passed, of) == |passed|
    ensures (forall p :: p in passed ==> !Selects(of, p)) ==> Count(passed, of) == 0
  {
    if passed != [] {
      var init, p := passed[..|passed| - 1], passed[|passed| - 1];
      assert p in passed && forall q :: q in init ==> q in passed;
      CountAll(init, of);
    }
  }

  /** The waiting requests that an address limiter has admitted for an address in the interval. */
  function CountWaiting(waiting: seq<Waiting>, address: string, lo: int, hi: int): nat {
    if waiting == [] then 0
    else
      var w := waiting[|waiting| - 1];
      CountWaiting(waiting[..|waiting| - 1], address, lo, hi) + Weight(w, address, lo, hi)
  }

  function Weight(w: Waiting, address: string, lo: int, hi: int): nat {
    if w.request.address == address && lo < w.at <= hi then 1 else 0
  }

  lemma WaitingNext(waiting: seq<Waiting>, w: Waiting, address: string, lo: int, hi: int)
    ensures CountWaiting(waiting + [w], address, lo, hi) == CountWaiting(waiting, address, lo, hi) + Weight(w, address, lo, hi)
  {
    assert (waiting + [w])[..|waiting|] == waiting;
  }

  lemma {:induction false} WaitingWithout(waiting: seq<Waiting>, k: nat, address: string, lo: int, hi: int)
    requires k < |waiting|
    ensures CountWaiting(waiting, address, lo, hi)
         == CountWaiting(Without(waiting, k), address, lo, hi) + Weight(waiting[k], address, lo, hi)
  {
    var n := |waiting| - 1;
    if k < n {
      var init := waiting[..n];
      WaitingWithout(init, k, address, lo, hi);
      WaitingNext(Without(init, k), waiting[n], address, lo, hi);
      assert Without(waiting, k) == Without(init, k) + [waiting[n]];
    } else {
      assert Without(waiting, k) == waiting[..n];
    }
  }

  // ---------------------------------------------------------------- both bounds, interleaved

  ghost predicate StepsInOrder(steps: seq<Step>) {
    forall i, j :: 0 <= i < j < |steps| ==> steps[i].now <= steps[j].now
  }

  function Latest(steps: seq<Step>): int {
    if steps == [] then 0 else steps[|steps| - 1].now
  }

  lemma WithinNext(times: seq<int>, t: int, lo: int, hi: int)
    ensures Within(times + [t], lo, hi) == Within(times, lo, hi) + if lo < t <= hi then 1 else 0
  {
    assert (times + [t])[..|times|] == times;
  }

  /** One more call, counted. */
  lemma AdmittedWithin(c: Config, calls: seq<Call>, key: string, now: int, k: string, lo: int, hi: int)
    ensures Within(Admitted(c, calls + [Attempt(k, now)], key), lo, hi)
         == Within(Admitted(c, calls, key), lo, hi)
          + if k == key && Answer(c, calls, key, now) && lo < now <= hi then 1 else 0
  {
    var times := Admitted(c, calls, key);
    assert (calls + [Attempt(k, now)])[..|calls|] == calls;
    assert times + [] == times;
    WithinNext(times, now, lo, hi);
  }

  /** What passes for an address, or is about to, the address limiter has admitted. */
  ghost predicate AddressCounted(l: Limits, g: Gate, address: string, lo: int, hi: int) {
    Count(g.passed, OfAddress(address, lo, hi)) + CountWaiting(g.waiting, address, lo, hi)
    <= Within(Admitted(l.ip, g.addressCalls, address), lo, hi)
  }

  /** What passes for a key is exactly what the user limiter has admitted. */
  ghost predicate KeyCounted(l: Limits, g: Gate, key: string, lo: int, hi: int) {
    Count(g.passed, OfKey(key, lo, hi)) == Within(Admitted(l.user, g.userCalls, key), lo, hi)
  }

  lemma AddressStep(l: Limits, g: Gate, r: Request, now: int, address: string, lo: int, hi: int)
    requires AddressCounted(l, g, address, lo, hi)
    ensures AddressCounted(l, GateNext(l, g, AtAddress(r, now)), address, lo, hi)
  {
    AdmittedWithin(l.ip, g.addressCalls, address, now, r.address, lo, hi);
    WaitingNext(g.waiting, Waiting(r, now), address, lo, hi);
  }

  lemma UserStep(l: Limits, g: Gate, k: nat, now: int, address: string, lo: int, hi: int)
    requires AddressCounted(l, g, address, lo, hi) && k < |g.waiting|
    ensures AddressCounted(l, GateNext(l, g, AtUser(k, now)), address, lo, hi)
  {
    var w := g.waiting[k];
    WaitingWithout(g.waiting, k, address, lo, hi);
    CountNext(g.passed, Passage(w.request, w.at, now), OfAddress(address, lo, hi));
  }

  lemma KeyStep(l: Limits, g: Gate, k: nat, now: int, key: string, lo: int, hi: int)
    requires KeyCounted(l, g, key, lo, hi) && k < |g.waiting|
    ensures KeyCounted(l, GateNext(l, g, AtUser(k, now)), key, lo, hi)
  {
    var w := g.waiting[k];
    AdmittedWithin(l.user, g.userCalls, key, now, KeyOf(w.request), lo, hi);
    CountNext(g.passed, Passage(w.request, w.at, now), OfKey(key, lo, hi));
  }

  lemma CountedStep(l: Limits, g: Gate, step: Step, address: string, key: string, lo: int, hi: int)
    ensures AddressCounted(l, g, address, lo, hi) ==> AddressCounted(l, GateNext(l, g, step), address, lo, hi)
    ensures KeyCounted(l, g, key, lo, hi) ==> KeyCounted(l, GateNext(l, g, step), key, lo, hi)
  {
    match step
    case AtAddress(r, now) =>
      if AddressCounted(l, g, address, lo, hi) { AddressStep(l, g, r, now, address, lo, hi); }
    case AtUser(k, now) =>
      if k < |g.waiting| {
        if AddressCounted(l, g, address, lo, hi) { UserStep(l, g, k, now, address, lo, hi); }
        if KeyCounted(l, g, key, lo, hi) { KeyStep(l, g, k, now, key, lo, hi); }
      }
  }

  lemma {:induction false} Counted(l: Limits, steps: seq<Step>, address: string, key: string, lo: int, hi: int)
    ensures AddressCounted(l, RunGate(l, steps), address, lo, hi)
    ensures KeyCounted(l, RunGate(l, steps), key, lo, hi)
  {
    if steps != [] {
      var before, step := steps[..|steps| - 1], steps[|steps| - 1];
      Counted(l, before, address, key, lo, hi);
      CountedStep(l, RunGate(l, before), step, address, key, lo, hi);
    }
  }

  lemma ClockNext(calls: seq<Call>, key: string, now: int, before: int)
    requires ClockOk(calls, before) && before <= now
    ensures ClockOk(calls, now) && ClockOk(calls + [Attempt(key, now)], now)
  {
  }

  ghost predicate GateClockOk(g: Gate, now: int) {
    ClockOk(g.addressCalls, now) && ClockOk(g.userCalls, now)
  }

  lemma ClockStep(l: Limits, g: Gate, step: Step, earlier: int)
    requires GateClockOk(g, earlier) && earlier <= step.now
    ensures GateClockOk(GateNext(l, g, step), step.now)
  {
    var key := match step
      case AtAddress(r, _) => r.address
      case AtUser(k, _) => if k < |g.waiting| then KeyOf(g.waiting[k].request) else "";
    ClockNext(g.addressCalls, key, step.now, earlier);
    ClockNext(g.userCalls, key, step.now, earlier);
  }

  lemma {:induction false} GateClock(l: Limits, steps: seq<Step>)
    requires StepsInOrder(steps)
    ensures GateClockOk(RunGate(l, steps), Latest(steps))
  {
    if steps != [] {
      var before, step := steps[..|steps| - 1], steps[|steps| - 1];
      GateClock(l, before);
      ClockStep(l, RunGate(l, before), step, if before == [] then step.now else Latest(before));
    }
  }

  function AtLeastZero(n: int): nat {
    if n < 0 then 0 else n
  }

  lemma GateAddressBound(l: Limits, g: Gate, now: int, address: string, a: int)
    requires GateClockOk(g, now) && AddressCounted(l, g, address, a, a + l.ip.window)
    ensures Count(g.passed, OfAddress(address, a, a + l.ip.window)) <= AtLeastZero(l.ip.limit)
  {
    WindowBound(l.ip, g.addressCalls, address, now, a);
  }

  lemma GateKeyBound(l: Limits, g: Gate, now: int, key: string, a: int)
    requires GateClockOk(g, now) && KeyCounted(l, g, key, a, a + l.user.window)
    ensures Count(g.passed, OfKey(key, a, a + l.user.window)) <= AtLeastZero(l.user.limit)
  {
    WindowBound(l.user, g.userCalls, key, now, a);
  }

  /**
   Requests that pass the middleware obey both bounds, however their steps interleave: in
   every window of the address limiter at most its limit for each address, by the times at
   which that limiter was asked, and likewise for the user limiter and each key it charges.
   */
  lemma {:induction false} BothBounds(l: Limits, steps: seq<Step>, address: string, key: string, a: int)
    requires StepsInOrder(steps)
    ensures Count(RunGate(l, steps).passed, OfAddress(address, a, a + l.ip.window)) <= AtLeastZero(l.ip.limit)
    ensures Count(RunGate(l, steps).passed, OfKey(key, a, a + l.user.window)) <= AtLeastZero(l.user.limit)
  {
    var g := RunGate(l, steps);
    GateClock(l, steps);
    Counted(l, steps, address, key, a, a + l.ip.window);
    Counted(l, steps, address, key, a, a + l.user.window);
    GateAddressBound(l, g, Latest(steps), address, a);
    GateKeyBound(l, g, Latest(steps), key, a);
  }

  // ---------------------------------------------------------------- the limit for one person

  /** No request carries a user, and this person sends from these addresses only. */
  ghost predicate Anonymous(steps: seq<Step>, who: string, addresses: set<string>) {
    forall i :: 0 <= i < |steps| && steps[i].AtAddress? ==> Known(steps[i].request, who, addresses)
  }

  predicate Known(r: Request, who: string, addresses: set<string>) {
    r.user == None && (r.who == who ==> r.address in addresses)
  }

  ghost predicate AllKnown(g: Gate, who: string, addresses: set<string>) {
    && (forall w :: w in g.waiting ==> Known(w.request, who, addresses))
    && (forall p :: p in g.passed ==> Known(p.request, who, addresses))
  }

  lemma {:induction false} PassedKnown(l: Limits, steps: seq<Step>, who: string, addresses: set<string>)
    requires Anonymous(steps, who, addresses)
    ensures AllKnown(RunGate(l, steps), who, addresses)
  {
    if steps != [] {
      var before, step := steps[..|steps| - 1], steps[|steps| - 1];
      PassedKnown(l, before, who, addresses);
      assert step.AtAddress? ==> Known(step.request, who, addresses);
    }
  }

  lemma AnonymousNoUsers(steps: seq<Step>, who: string, addresses: set<string>)
    requires Anonymous(steps, who, addresses)
    ensures NoUsers(steps)
  {
    forall i | 0 <= i < |steps| && steps[i].AtAddress? ensures steps[i].request.user == None {
      assert Known(steps[i].request, who, addresses);
    }
  }

  /** What one address can let through: the smaller of the two limits. */
  function Cap(l: Limits): nat {
    AtLeastZero(if l.user.limit < l.ip.limit then l.user.limit else l.ip.limit)
  }

  /** Nobody is known to the middleware. */
  ghost predicate NoUsers(steps: seq<Step>) {
    forall i :: 0 <= i < |steps| && steps[i].AtAddress? ==> steps[i].request.user == None
  }

  lemma {:induction false} PassedNoUsers(l: Limits, steps: seq<Step>)
    requires NoUsers(steps)
    ensures forall w :: w in RunGate(l, steps).waiting ==> w.request.user == None
    ensures forall p :: p in RunGate(l, steps).passed ==> p.request.user == None
  {
    if steps != [] {
      var before, step := steps[..|steps| - 1], steps[|steps| - 1];
      PassedNoUsers(l, before);
      assert step.AtAddress? ==> step.request.user == None;
    }
  }

  /** Then both limiters count by address, and each address is held to the smaller limit. */
  lemma WithoutUsers(l: Limits, steps: seq<Step>, x: string, a: int, w: int)
    requires StepsInOrder(steps) && NoUsers(steps)
    requires w <= l.user.window && w <= l.ip.window
    ensures Count(RunGate(l, steps).passed, OfBoth(x, a, a + w)) <= Cap(l)
  {
    var passed := RunGate(l, steps).passed;
    PassedNoUsers(l, steps);
    BothBounds(l, steps, x, x, a);
    var address, key := OfAddress(x, a, a + l.ip.window), OfKey(x, a, a + l.user.window);
    CountUnion(passed, OfBoth(x, a, a + w), address, address);
    CountUnion(passed, OfBoth(x, a, a + w), key, key);
  }

  /** How many of a person's requests pass inside (a, a + w]; and how many of those from some addresses. */
  function WhoCount(l: Limits, steps: seq<Step>, who: string, a: int, w: int): nat {
    Count(RunGate(l, steps).passed, OfWho(who, a, a + w))
  }

  function PersonCount(l: Limits, steps: seq<Step>, who: string, addresses: set<string>, a: int, w: int): nat {
    Count(RunGate(l, steps).passed, OfPerson(who, addresses, a, a + w))
  }

  lemma OneAddress(l: Limits, steps: seq<Step>, who: string, x: string, a: int, w: int)
    requires StepsInOrder(steps) && NoUsers(steps)
    requires w <= l.user.window && w <= l.ip.window
    ensures PersonCount(l, steps, who, {x}, a, w) <= Cap(l)
  {
    WithoutUsers(l, steps, x, a, w);
    CountUnion(RunGate(l, steps).passed, OfPerson(who, {x}, a, a + w), OfBoth(x, a, a + w), OfBoth(x, a, a + w));
  }

  lemma {:induction false} SomeAddresses(l: Limits, steps: seq<Step>, who: string, some: set<string>, a: int, w: int)
    requires StepsInOrder(steps) && NoUsers(steps)
    requires w <= l.user.window && w <= l.ip.window
    ensures PersonCount(l, steps, who, some, a, w) <= |some| * Cap(l)
    decreases some
  {
    var passed := RunGate(l, steps).passed;
    if some == {} {
      CountAll(passed, OfPerson(who, some, a, a + w));
    } else {
      var x :| x in some;
      var others := some - {x};
      SomeAddresses(l, steps, who, others, a, w);
      OneAddress(l, steps, who, x, a, w);
      CountUnion(passed, OfPerson(who, some, a, a + w),
                 OfPerson(who, others, a, a + w), OfPerson(who, {x}, a, a + w));
      OneMore(|others|, Cap(l));
      assert |some| == |others| + 1;
    }
  }

  lemma OneMore(n: nat, k: nat)
    ensures n * k + k == (n + 1) * k
  {
  }

  /**
   What is enforced for one person, where the limiters run: outside authentication, so that no
   request carries a user. In every window at most the smaller limit times the number of
   addresses that the person sends from.
   */
  lemma {:induction false} PersonBound(l: Limits, steps: seq<Step>, who: string, addresses: set<string>, a: int, w: int)
    requires StepsInOrder(steps) && Anonymous(steps, who, addresses)
    requires w <= l.user.window && w <= l.ip.window
    ensures WhoCount(l, steps, who, a, w) <= |addresses| * Cap(l)
  {
    AnonymousNoUsers(steps, who, addresses);
    SomeAddresses(l, steps, who, addresses, a, w);
    PassedKnown(l, steps, who, addresses);
    var some := OfPerson(who, addresses, a, a + w);
    CountUnion(RunGate(l, steps).passed, OfWho(who, a, a + w), some, some);
  }

  // ---------------------------------------------------------------- the bound is reached

  /** The calls of visits from these addresses, all at time 0. */
  function BurstCalls(visits: seq<string>): seq<Call> {
    if visits == [] then [] else BurstCalls(visits[..|visits| - 1]) + [Attempt(visits[|visits| - 1], 0)]
  }

  function Zeros(n: nat): (r: seq<int>)
    ensures |r| == n
  {
    seq(n, i => 0)
  }

  /** Times that are all later than `start` are all kept. */
  lemma {:induction false} RecentAll(times: seq<int>, start: int)
    requires forall i :: 0 <= i < |times| ==> times[i] > start
    ensures Recent(times, start) == times
  {
    if times != [] {
      RecentAll(times[..|times| - 1], start);
    }
  }

  lemma RecentZeros(n: nat, start: int)
    requires start < 0
    ensures Recent(Zeros(n), start) == Zeros(n)
  {
    RecentAll(Zeros(n), start);
  }

  /** How often an address is visited from. */
  function Often(visits: seq<string>, x: string): nat {
    if visits == [] then 0
    else Often(visits[..|visits| - 1], x) + if visits[|visits| - 1] == x then 1 else 0
  }

  lemma StoredNext(c: Config, m: Attempts, x: string, n: nat)
    requires c.window > 0 && n < c.limit && TimesOf(m, x) == Zeros(n)
    ensures TimesOf(After(c, m, Attempt(x, 0)), x) == Zeros(n + 1)
  {
    RecentZeros(n, 0 - c.window);
    assert Zeros(n) + [0] == Zeros(n + 1);
  }

  /** While an address is below the limit, every visit from it is stored. */
  lemma {:induction false} BurstStored(c: Config, visits: seq<string>, x: string)
    requires c.window > 0 && Often(visits, x) <= c.limit
    ensures TimesOf(Run(c, BurstCalls(visits)), x) == Zeros(Often(visits, x))
  {
    if visits != [] {
      var before, v := visits[..|visits| - 1], visits[|visits| - 1];
      BurstStored(c, before, x);
      CallsNext(c, BurstCalls(before), Attempt(v, 0));
      if v == x {
        StoredNext(c, Run(c, BurstCalls(before)), x, Often(before, x));
      }
    }
  }

  lemma BurstAnswer(c: Config, visits: seq<string>, x: string)
    requires c.window > 0 && Often(visits, x) < c.limit
    ensures Answer(c, BurstCalls(visits), x, 0)
  {
    BurstStored(c, visits, x);
    RecentZeros(Often(visits, x), 0 - c.window);
  }

  function Anonym(who: string, address: string): Request {
    Request(who, address, None)
  }

  /** One person's visits from these addresses, one after the other, all at time 0. */
  function BurstSteps(who: string, visits: seq<string>): seq<Step> {
    if visits == [] then []
    else BurstSteps(who, visits[..|visits| - 1]) + [AtAddress(Anonym(who, visits[|visits| - 1]), 0)] + [AtUser(0, 0)]
  }

  function BurstPassed(who: string, visits: seq<string>): (r: seq<Passage>)
    ensures |r| == |visits|
    ensures forall p :: p in r ==> p.request.who == who && p.request.address in visits && p.atAddress == 0 == p.atUser
  {
    if visits == [] then []
    else
      var r := BurstPassed(who, visits[..|visits| - 1]) + [Passage(Anonym(who, visits[|visits| - 1]), 0, 0)];
      assert forall p :: p in r ==> p.request.address in visits by {
        assert visits == visits[..|visits| - 1] + [visits[|visits| - 1]];
      }
      r
  }

  lemma RunGateNext(l: Limits, steps: seq<Step>, step: Step)
    ensures RunGate(l, steps + [step]) == GateNext(l, RunGate(l, steps), step)
  {
    assert (steps + [step])[..|steps|] == steps;
  }

  /** A visit that both limiters admit. */
  lemma VisitPasses(l: Limits, g: Gate, r: Request, now: int)
    requires g.waiting == [] && Answer(l.ip, g.addressCalls, r.address, now) && Answer(l.user, g.userCalls, KeyOf(r), now)
    ensures GateNext(l, GateNext(l, g, AtAddress(r, now)), AtUser(0, now))
         == Gate(g.addressCalls + [Attempt(r.address, now)], g.userCalls + [Attempt(KeyOf(r), now)], [],
                 g.passed + [Passage(r, now, now)])
  {
    assert g.waiting + [Waiting(r, now)] == [Waiting(r, now)];
    assert Without([Waiting(r, now)], 0) == [];
  }

  /** If no address is visited more often than the limits allow, every visit passes. */
  lemma {:induction false} BurstPasses(l: Limits, who: string, visits: seq<string>)
    requires l.user.window > 0 && l.ip.window > 0
    requires forall x :: Often(visits, x) <= Cap(l)
    ensures RunGate(l, BurstSteps(who, visits))
         == Gate(BurstCalls(visits), BurstCalls(visits), [], BurstPassed(who, visits))
  {
    if visits != [] {
      var before, v := visits[..|visits| - 1], visits[|visits| - 1];
      assert forall x :: Often(before, x) <= Often(visits, x);
      assert Often(before, v) + 1 == Often(visits, v);
      BurstPasses(l, who, before);
      var steps := BurstSteps(who, before);
      RunGateNext(l, steps, AtAddress(Anonym(who, v), 0));
      RunGateNext(l, steps + [AtAddress(Anonym(who, v), 0)], AtUser(0, 0));
      BurstAnswer(l.ip, before, v);
      BurstAnswer(l.user, before, v);
      VisitPasses(l, RunGate(l, steps), Anonym(who, v), 0);
    }
  }

  lemma {:induction false} BurstInOrder(who: string, visits: seq<string>, addresses: set<string>)
    requires forall v :: v in visits ==> v in addresses
    ensures forall step :: step in BurstSteps(who, visits) ==> step.now == 0
    ensures StepsInOrder(BurstSteps(who, visits)) && Anonymous(BurstSteps(who, visits), who, addresses)
  {
    if visits != [] {
      var before, v := visits[..|visits| - 1], visits[|visits| - 1];
      assert v in visits && forall u :: u in before ==> u in visits;
      BurstInOrder(who, before, addresses);
    }
  }

  lemma {:induction false} OftenConcat(a: seq<string>, b: seq<string>, x: string)
    ensures Often(a + b, x) == Often(a, x) + Often(b, x)
    decreases |b|
  {
    if b == [] {
      assert a + b == a;
    } else {
      assert (a + b)[..|a + b| - 1] == a + b[..|b| - 1];
      OftenConcat(a, b[..|b| - 1], x);
    }
  }

  lemma {:induction false} OftenMember(visits: seq<string>, x: string)
    ensures x in visits <==> Often(visits, x) > 0
  {
    if visits != [] {
      OftenMember(visits[..|visits| - 1], x);
      assert visits == visits[..|visits| - 1] + [visits[|visits| - 1]];
    }
  }

  function Repeated(x: string, n: nat): (r: seq<string>)
    ensures |r| == n
  {
    if n == 0 then [] else Repeated(x, n - 1) + [x]
  }

  lemma {:induction false} OftenRepeated(x: string, n: nat, y: string)
    ensures Often(Repeated(x, n), y) == if y == x then n else 0
  {
    if n > 0 {
      OftenRepeated(x, n - 1, y);
    }
  }

  /** Every address as often as one address may pass. */
  lemma {:induction false} Spread(addresses: set<string>, n: nat) returns (visits: seq<string>)
    ensures |visits| == |addresses| * n
    ensures forall x :: Often(visits, x) == if x in addresses then n else 0
    decreases addresses
  {
    if addresses == {} {
      visits := [];
    } else {
      var x :| x in addresses;
      var others := Spread(addresses - {x}, n);
      OneMore(|addresses| - 1, n);
      visits := others + Repeated(x, n);
      assert |addresses - {x}| == |addresses| - 1;
      forall y ensures Often(visits, y) == if y in addresses then n else 0 {
        OftenConcat(others, Repeated(x, n), y);
        OftenRepeated(x, n, y);
      }
    }
  }

  lemma BurstCount(l: Limits, who: string, visits: seq<string>, w: int)
    requires RunGate(l, BurstSteps(who, visits)).passed == BurstPassed(who, visits)
    requires w > 0
    ensures WhoCount(l, BurstSteps(who, visits), who, -1, w) == |visits|
  {
    CountAll(BurstPassed(who, visits), OfWho(who, -1, -1 + w));
  }

  /** For every set of addresses there is a run in which the person reaches the bound. */
  lemma PersonBoundReached(l: Limits, who: string, addresses: set<string>, w: int) returns (steps: seq<Step>)
    requires l.user.window > 0 && l.ip.window > 0 && w > 0
    ensures StepsInOrder(steps) && Anonymous(steps, who, addresses)
    ensures WhoCount(l, steps, who, -1, w) == |addresses| * Cap(l)
  {
    var visits := Spread(addresses, Cap(l));
    forall v | v in visits ensures v in addresses {
      OftenMember(visits, v);
    }
    steps := BurstSteps(who, visits);
    BurstInOrder(who, visits, addresses);
    BurstPasses(l, who, visits);
    BurstCount(l, who, visits, w);
  }

  /** In every run over the addresses, at most `bound` of the person's requests pass in a window. */
  ghost predicate HeldTo(l: Limits, who: string, addresses: set<string>, w: int, bound: int) {
    forall steps, a :: StepsInOrder(steps) && Anonymous(steps, who, addresses) ==>
      WhoCount(l, steps, who, a, w) <= bound
  }

  lemma {:induction false} HeldToBound(l: Limits, who: string, addresses: set<string>, w: int)
    requires w <= l.user.window && w <= l.ip.window
    ensures HeldTo(l, who, addresses, w, |addresses| * Cap(l))
  {
    forall steps, a | StepsInOrder(steps) && Anonymous(steps, who, addresses)
      ensures WhoCount(l, steps, who, a, w) <= |addresses| * Cap(l)
    {
      PersonBound(l, steps, who, addresses, a, w);
    }
  }

  lemma {:induction false} HeldToLess(l: Limits, who: string, addresses: set<string>, w: int, bound: int)
    requires l.user.window > 0 && l.ip.window > 0 && w > 0 && HeldTo(l, who, addresses, w, bound)
    ensures |addresses| * Cap(l) <= bound
  {
    var steps := PersonBoundReached(l, who, addresses, w);
    assert WhoCount(l, steps, who, -1, w) <= bound;
  }

  /**
   When a person is held to the limit for users: exactly when the addresses the person sends
   from let through no more than that together. If the limit for users is the smaller one, as
   it is by default, that is when there is one address, or the limit is zero.
   */
  lemma {:induction false} HeldToUserLimitIff(l: Limits, who: string, addresses: set<string>, w: int)
    requires 0 < w <= l.user.window && w <= l.ip.window
    ensures HeldTo(l, who, addresses, w, AtLeastZero(l.user.limit))
       <==> |addresses| * Cap(l) <= AtLeastZero(l.user.limit)
    ensures l.user.limit <= l.ip.limit ==>
      (HeldTo(l, who, addresses, w, AtLeastZero(l.user.limit)) <==> |addresses| <= 1 || l.user.limit <= 0)
  {
    var bound := AtLeastZero(l.user.limit);
    HeldToBound(l, who, addresses, w);
    if HeldTo(l, who, addresses, w, bound) {
      HeldToLess(l, who, addresses, w, bound);
    }
    TimesAtMost(|addresses|, bound);
  }

  lemma TimesAtMost(n: nat, k: nat)
    ensures n * k <= k <==> n <= 1 || k == 0
  {
    if n >= 2 && k > 0 {
      assert n * k == 2 * k + (n - 2) * k;
    }
  }
}
