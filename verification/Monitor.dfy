/**
 The latency window (internal/monitor/monitor.go): the most recent durations, their average
 and their 99th percentile. Durations are integers, in nanoseconds. The percentile's index is
 the integer part of 99 n / 100.
 */
module Monitor {

  /** The last `cap` elements. */
  function Suffix(s: seq<int>, cap: nat): seq<int> {
    if |s| <= cap then s else s[|s| - cap..]
  }

  lemma SuffixNext(s: seq<int>, cap: nat, x: int)
    ensures Suffix(Suffix(s, cap) + [x], cap) == Suffix(s + [x], cap)
  {
  }

  ghost predicate Sorted(s: seq<int>) {
    forall i, j :: 0 <= i < j < |s| ==> s[i] <= s[j]
  }

  function Sum(s: seq<int>): int {
    if s == [] then 0 else Sum(s[..|s| - 1]) + s[|s| - 1]
  }

  /** How many elements are at most `x`. */
  function AtMost(s: seq<int>, x: int): (r: nat)
    ensures r <= |s|
  {
    if s == [] then 0 else AtMost(s[..|s| - 1], x) + if s[|s| - 1] <= x then 1 else 0
  }

  /** The order of the elements does not matter to a count. */
  lemma {:induction false} AtMostConcat(a: seq<int>, b: seq<int>, x: int)
    ensures AtMost(a + b, x) == AtMost(a, x) + AtMost(b, x)
    decreases |b|
  {
    if b == [] {
      assert a + b == a;
    } else {
      assert (a + b)[..|a + b| - 1] == a + b[..|b| - 1];
      AtMostConcat(a, b[..|b| - 1], x);
    }
  }

  function Without(s: seq<int>, i: nat): (r: seq<int>)
    requires i < |s|
    ensures |r| == |s| - 1
  {
    s[..i] + s[i + 1..]
  }

  lemma WithoutOne(s: seq<int>, i: nat, x: int)
    requires i < |s|
    ensures multiset(s) - multiset{s[i]} == multiset(Without(s, i))
    ensures AtMost(s, x) == AtMost(Without(s, i), x) + if s[i] <= x then 1 else 0
  {
    assert s == s[..i] + ([s[i]] + s[i + 1..]);
    AtMostConcat(s[..i], [s[i]] + s[i + 1..], x);
    AtMostConcat([s[i]], s[i + 1..], x);
    AtMostConcat(s[..i], s[i + 1..], x);
    assert [s[i]][..0] == [];
    assert AtMost([s[i]], x) == AtMost([], x) + if s[i] <= x then 1 else 0;
  }

  lemma {:induction false} AtMostPermuted(a: seq<int>, b: seq<int>, x: int)
    requires multiset(a) == multiset(b)
    ensures AtMost(a, x) == AtMost(b, x)
    decreases |a|
  {
    assert |multiset(a)| == |a| && |multiset(b)| == |b|;
    if a != [] {
      assert a[0] in multiset(b);
      var i :| 0 <= i < |b| && b[i] == a[0];
      WithoutOne(a, 0, x);
      WithoutOne(b, i, x);
      AtMostPermuted(Without(a, 0), Without(b, i), x);
    }
  }

  lemma {:induction false} AtMostSorted(s: seq<int>, k: nat)
    requires Sorted(s) && k < |s|
    ensures AtMost(s, s[k]) >= k + 1
  {
    if k == |s| - 1 {
      AllAtMost(s, s[k]);
    } else {
      AtMostSorted(s[..|s| - 1], k);
    }
  }

  lemma {:induction false} AllAtMost(s: seq<int>, x: int)
    requires forall i :: 0 <= i < |s| ==> s[i] <= x
    ensures AtMost(s, x) == |s|
  {
    if s != [] {
      AllAtMost(s[..|s| - 1], x);
    }
  }

  lemma {:induction false} FewBelow(s: seq<int>, k: nat, x: int)
    requires Sorted(s) && k < |s| && x < s[k]
    ensures AtMost(s, x) <= k
  {
    if k == |s| - 1 {
    } else {
      FewBelow(s[..|s| - 1], k, x);
    }
  }

  /** The value that a percentile over `samples` must have. */
  ghost predicate IsP99(samples: seq<int>, v: int) {
    && v in samples
    && AtMost(samples, v) >= 99 * |samples| / 100 + 1
    && forall x :: x < v ==> AtMost(samples, x) <= 99 * |samples| / 100
  }

  /**
   The rank: whatever sorting is used, the element at the index is one of the samples, at
   least floor(99 n / 100) + 1 samples are not above it, and nothing smaller has that many.
   */
  lemma P99Rank(samples: seq<int>, sorted: seq<int>)
    requires samples != [] && Sorted(sorted) && multiset(sorted) == multiset(samples)
    ensures |sorted| == |samples| && 99 * |samples| / 100 < |samples|
    ensures IsP99(samples, sorted[99 * |samples| / 100])
  {
    assert |multiset(sorted)| == |sorted| && |multiset(samples)| == |samples|;
    var k := 99 * |samples| / 100;
    var v := sorted[k];
    AtMostSorted(sorted, k);
    AtMostPermuted(sorted, samples, v);
    assert v in multiset(sorted);
    forall x | x < v ensures AtMost(samples, x) <= k {
      FewBelow(sorted, k, x);
      AtMostPermuted(sorted, samples, x);
    }
  }

  /** There is only one such value. */
  lemma P99Unique(samples: seq<int>, v: int, w: int)
    requires IsP99(samples, v) && IsP99(samples, w)
    ensures v == w
  {
    assert !(v < w) && !(w < v);
  }

  lemma SortedConcat(a: seq<int>, b: seq<int>)
    requires Sorted(a) && Sorted(b) && (a != [] && b != [] ==> a[|a| - 1] <= b[0])
    ensures Sorted(a + b)
  {
    var r := a + b;
    forall i, j | 0 <= i < j < |r| ensures r[i] <= r[j] {
      if i < |a| <= j {
        assert i < |a| - 1 ==> a[i] <= a[|a| - 1];
        assert 0 < j - |a| ==> b[0] <= b[j - |a|];
      }
    }
  }

  lemma SortedParts(s: seq<int>, k: nat)
    requires Sorted(s) && k <= |s|
    ensures Sorted(s[..k]) && Sorted(s[k..])
  {
  }

  lemma InsertedSorted(s: seq<int>, k: nat, x: int)
    requires Sorted(s) && k <= |s| && (k > 0 ==> s[k - 1] <= x) && (k < |s| ==> x <= s[k])
    ensures Sorted(s[..k] + [x] + s[k..])
  {
    SortedParts(s, k);
    SortedConcat(s[..k], [x]);
    SortedConcat(s[..k] + [x], s[k..]);
  }

  lemma InsertedSame(s: seq<int>, k: nat, x: int)
    requires k <= |s|
    ensures multiset(s[..k] + [x] + s[k..]) == multiset(s) + multiset{x}
    ensures s == s[..k] + s[k..]
  {
    assert s == s[..k] + s[k..];
  }

  /** `sort.Slice` on a copy. */
  method SortCopy(s: seq<int>) returns (r: seq<int>)
    ensures Sorted(r) && multiset(r) == multiset(s)
  {
    r := [];
    for i := 0 to |s|
      invariant Sorted(r) && multiset(r) == multiset(s[..i])
    {
      assert s[..i + 1] == s[..i] + [s[i]];
      r := Insert(r, s[i]);
    }
    assert s[..|s|] == s;
  }

  method Insert(s: seq<int>, x: int) returns (r: seq<int>)
    requires Sorted(s)
    ensures Sorted(r) && multiset(r) == multiset(s) + multiset{x}
  {
    var k := 0;
    while k < |s| && s[k] <= x
      invariant 0 <= k <= |s|
      invariant k > 0 ==> s[k - 1] <= x
    {
      k := k + 1;
    }
    r := s[..k] + [x] + s[k..];
    InsertedSame(s, k, x);
    InsertedSorted(s, k, x);
  }

  /** `Duration.Microseconds`: nanoseconds divided by 1000, truncated toward zero. */
  function Micros(d: int): int {
    if d >= 0 then d / 1000 else -(-d / 1000)
  }

  /** The whole microseconds of a duration, rounded toward zero. */
  ghost predicate IsMicros(d: int, us: int) {
    if d >= 0 then us * 1000 <= d < us * 1000 + 1000 else us * 1000 - 1000 < d <= us * 1000
  }

  lemma MicrosMeaning(d: int)
    ensures IsMicros(d, Micros(d))
  {
  }

  lemma {:induction false} SumAdds(a: seq<int>, b: seq<int>)
    ensures Sum(a + b) == Sum(a) + Sum(b)
    ensures forall x :: Sum([x]) == x
    decreases |b|
  {
    forall x ensures Sum([x]) == x {
      assert [x][..0] == [];
    }
    if b == [] {
      assert a + b == a;
    } else {
      assert (a + b)[..|a + b| - 1] == a + b[..|b| - 1];
      SumAdds(a, b[..|b| - 1]);
    }
  }

  class Monitor {
    var totalQueries: nat
    var latencies: seq<int>
    const latCap: nat
    ghost var all: seq<int>    // every duration ever recorded

    ghost predicate Valid()
      reads this
    {
      totalQueries == |all| && latCap == 10000 && latencies == Suffix(all, latCap)
    }

    constructor ()
      ensures Valid() && all == [] && latCap == 10000
    {
      totalQueries, latencies, latCap := 0, [], 10000;
      all := [];
    }

    /** The buffer is always the last min(total, cap) durations, in order. */
    method RecordQuery(duration: int)
      requires Valid()
      modifies this
      ensures Valid() && all == old(all) + [duration] && totalQueries == |all|
      ensures latencies == if |all| <= 10000 then all else all[|all| - 10000..]
    {
      SuffixNext(all, latCap, duration);
      all := all + [duration];
      totalQueries := totalQueries + 1;
      latencies := latencies + [duration];
      if |latencies| > latCap {
        latencies := latencies[|latencies| - latCap..];
      }
    }

    /** The average and the percentile of the retained durations in milliseconds; zero when there are none. */
    method Latencies() returns (average: real, p99: real)
      requires Valid()
      ensures var kept := if |all| <= 10000 then all else all[|all| - 10000..];
        if kept == [] then average == 0.0 == p99
        else
          && (exists us :: IsMicros(Sum(kept), us) && average == us as real / |kept| as real / 1000.0)
          && (exists v, us :: IsP99(kept, v) && IsMicros(v, us) && p99 == us as real / 1000.0)
    {
      average, p99 := 0.0, 0.0;
      var lats := latencies;
      if |lats| > 0 {
        var sum := SumOf(lats);
        average := Micros(sum) as real / |lats| as real / 1000.0;
        MicrosMeaning(sum);
        var v := Percentile(lats);
        p99 := Micros(v) as real / 1000.0;
        MicrosMeaning(v);
      }
    }

    method SumOf(lats: seq<int>) returns (sum: int)
      ensures sum == Sum(lats)
    {
      sum := 0;
      for i := 0 to |lats|
        invariant sum == Sum(lats[..i])
      {
        assert lats[..i + 1][..i] == lats[..i];
        sum := sum + lats[i];
      }
      assert lats[..|lats|] == lats;
    }

    method Percentile(lats: seq<int>) returns (v: int)
      requires lats != []
      ensures IsP99(lats, v)
    {
      var sorted := SortCopy(lats);
      var p99Idx := 99 * |sorted| / 100;
      P99Rank(lats, sorted);
      if p99Idx >= |sorted| {
        p99Idx := |sorted| - 1;
      }
      v := sorted[p99Idx];
    }
  }
}
