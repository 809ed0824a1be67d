/**
 internal/httpapi/benchmark_engine.go: a suite of streamed completions, the
 medians of its samples and the rating they earn. Rates are reals, times whole
 nanoseconds and milliseconds.
 */
module BenchmarkRating {
  import opened Sequences
  import opened Sorting
  import opened Wrappers

  // ----- order and counting -------------------------------------------------------------

  function AsReal(n: int): real { n as real }

  function Same(x: real): real { x }

  function ByKey<T>(key: T -> real): (T, T) -> bool { (x, y) => key(x) <= key(y) }

  function Ranked<T>(s: seq<T>, key: T -> real): (r: seq<T>)
    ensures |r| == |s|
  {
    Sorted(s, ByKey(key))
  }

  ghost predicate Ascending<T>(s: seq<T>, key: T -> real) {
    forall i, j :: 0 <= i < j < |s| ==> key(s[i]) <= key(s[j])
  }

  lemma RankingAscends<T(!new)>(s: seq<T>, key: T -> real)
    ensures Ascending(Ranked(s, key), key)
  {
    SortingOrders(s, ByKey(key));
    assert forall i, j :: 0 <= i < j < |s| ==> ByKey(key)(Ranked(s, key)[i], Ranked(s, key)[j]);
  }

  function Singles<T>(key: T -> real, v: real, x: T): nat { if key(x) <= v then 1 else 0 }

  /** How many of `s` are at most `v`. */
  function AtMost<T>(s: seq<T>, key: T -> real, v: real): (n: nat)
    ensures n <= |s|
  {
    if s == [] then 0 else AtMost(s[..|s| - 1], key, v) + Singles(key, v, s[|s| - 1])
  }

  lemma RankingCounts<T>(s: seq<T>, key: T -> real, v: real)
    ensures AtMost(Ranked(s, key), key, v) == AtMost(s, key, v)
  {
    SortingPermutes(s, ByKey(key));
    CountIsOrderFree(Ranked(s, key), s, key, v);
  }

  /** In ascending order, the first `k + 1` are at most `v` exactly when the one at `k` is. */
  lemma {:induction false} RankByCount<T>(s: seq<T>, key: T -> real, v: real, k: nat)
    requires Ascending(s, key) && k < |s|
    ensures key(s[k]) <= v <==> AtMost(s, key, v) > k
  {
    var front, last := s[..|s| - 1], s[|s| - 1];
    if k < |s| - 1 {
      RankByCount(front, key, v, k);
      assert key(s[k]) <= key(last);
    } else if |front| > 0 && key(last) <= v {
      assert key(front[|front| - 1]) <= key(last);
      RankByCount(front, key, v, |front| - 1);
    }
  }

  /** More at or below every bound means lower at every rank. */
  lemma CountsDecideRanks<T(!new)>(s: seq<T>, t: seq<T>, key: T -> real, k: nat)
    requires |s| == |t| && k < |s|
    requires forall v: real :: AtMost(s, key, v) >= AtMost(t, key, v)
    ensures key(Ranked(s, key)[k]) <= key(Ranked(t, key)[k])
  {
    var a, b := Ranked(s, key), Ranked(t, key);
    var v := key(b[k]);
    RankingAscends(s, key);
    RankingAscends(t, key);
    RankByCount(b, key, v, k);
    RankingCounts(s, key, v);
    RankingCounts(t, key, v);
    RankByCount(a, key, v, k);
  }

  ghost predicate Below<T>(s: seq<T>, t: seq<T>, key: T -> real) {
    |s| == |t| && forall i | 0 <= i < |s| :: key(s[i]) <= key(t[i])
  }

  lemma {:induction false} BelowCounts<T>(s: seq<T>, t: seq<T>, key: T -> real, v: real)
    requires Below(s, t, key)
    ensures AtMost(s, key, v) >= AtMost(t, key, v)
  {
    if s != [] { BelowCounts(s[..|s| - 1], t[..|t| - 1], key, v); }
  }

  /** Sorting preserves pointwise dominance. */
  lemma SortingPreservesDominance<T(!new)>(s: seq<T>, t: seq<T>, key: T -> real)
    requires Below(s, t, key)
    ensures Below(Ranked(s, key), Ranked(t, key), key)
  {
    forall v: real ensures AtMost(s, key, v) >= AtMost(t, key, v) { BelowCounts(s, t, key, v); }
    forall k | 0 <= k < |s| ensures key(Ranked(s, key)[k]) <= key(Ranked(t, key)[k]) {
      CountsDecideRanks(s, t, key, k);
    }
  }

  // ----- the medians --------------------------------------------------------------------

  /** To the nearest whole number, halves away from zero. */
  function Round(x: real): int {
    if x >= 0.0 then (x + 0.5).Floor else -((-x + 0.5).Floor)
  }

  /** The middle of values in order, or the rounded mean of the middle two. */
  function MiddleInt(s: seq<int>): int
    requires s != []
  {
    if |s| % 2 == 1 then s[|s| / 2] else Round((s[|s| / 2 - 1] + s[|s| / 2]) as real / 2.0)
  }

  function MedianOfInts(values: seq<int>): int
    requires values != []
  {
    MiddleInt(Ranked(values, AsReal))
  }

  function MiddleReal(s: seq<real>): real
    requires s != []
  {
    if |s| % 2 == 1 then s[|s| / 2] else (s[|s| / 2 - 1] + s[|s| / 2]) / 2.0
  }

  function MedianOfReals(values: seq<real>): real
    requires values != []
  {
    MiddleReal(Ranked(values, Same))
  }

  method MedianInt64(values: array<int>) returns (median: int)
    requires values.Length > 0
    modifies values
    ensures median == MedianOfInts(old(values[..]))
  {
    Sort(values, ByKey(AsReal));
    var n := values.Length;
    var mid := n / 2;
    ghost var ranked := Ranked(old(values[..]), AsReal);
    assert values[..] == ranked;
    assert forall k | 0 <= k < n :: values[k] == ranked[k];
    if n % 2 == 1 { return values[mid]; }
    return Round((values[mid - 1] + values[mid]) as real / 2.0);
  }

  method MedianFloat64(values: array<real>) returns (median: real)
    requires values.Length > 0
    modifies values
    ensures median == MedianOfReals(old(values[..]))
  {
    Sort(values, ByKey(Same));
    var n := values.Length;
    var mid := n / 2;
    ghost var ranked := Ranked(old(values[..]), Same);
    assert values[..] == ranked;
    assert forall k | 0 <= k < n :: values[k] == ranked[k];
    if n % 2 == 1 { return values[mid]; }
    return (values[mid - 1] + values[mid]) / 2.0;
  }

  lemma RoundIsMonotone(x: real, y: real)
    requires x <= y
    ensures Round(x) <= Round(y)
  {
  }

  lemma RoundFixesIntegers(n: int)
    ensures Round(n as real) == n
  {
  }

  /** The mean of two whole numbers rounds to between them. */
  lemma RoundedMeanIsBetween(a: int, b: int)
    requires a <= b
    ensures a <= Round((a + b) as real / 2.0) <= b
  {
    RoundFixesIntegers(a);
    RoundFixesIntegers(b);
    RoundIsMonotone(a as real, (a + b) as real / 2.0);
    RoundIsMonotone((a + b) as real / 2.0, b as real);
  }

  lemma MiddleRanks(s: seq<int>)
    requires s != [] && Ascending(s, AsReal)
    ensures AsReal(s[(|s| - 1) / 2]) <= AsReal(MiddleInt(s)) <= AsReal(s[|s| / 2])
  {
    if |s| % 2 == 0 {
      var k := |s| / 2;
      assert (|s| - 1) / 2 == k - 1;
      assert AsReal(s[k - 1]) <= AsReal(s[k]);
      RoundedMeanIsBetween(s[k - 1], s[k]);
    }
  }

  lemma MiddleRanksOfReals(s: seq<real>)
    requires s != [] && Ascending(s, Same)
    ensures Same(s[(|s| - 1) / 2]) <= MiddleReal(s) <= Same(s[|s| / 2])
  {
    if |s| % 2 == 0 {
      assert (|s| - 1) / 2 == |s| / 2 - 1;
      assert Same(s[|s| / 2 - 1]) <= Same(s[|s| / 2]);
    }
  }

  /** At least half of the values are at most `m`, and of any bound below it no more than half are. */
  ghost predicate Splits<T>(values: seq<T>, key: T -> real, m: real) {
    && 2 * AtMost(values, key, m) >= |values|
    && forall v: real | v < m :: 2 * AtMost(values, key, v) <= |values|
  }

  /** Whatever lies between the middle two ranks splits the values. */
  lemma BetweenTheMiddleTwo<T(!new)>(values: seq<T>, key: T -> real, m: real)
    requires values != []
    requires key(Ranked(values, key)[(|values| - 1) / 2]) <= m <= key(Ranked(values, key)[|values| / 2])
    ensures Splits(values, key, m)
  {
    var s := Ranked(values, key);
    RankingAscends(values, key);
    RankByCount(s, key, m, (|s| - 1) / 2);
    RankingCounts(values, key, m);
    forall v: real | v < m ensures 2 * AtMost(values, key, v) <= |values| {
      RankByCount(s, key, v, |s| / 2);
      RankingCounts(values, key, v);
    }
  }

  /** What makes the two medians medians. */
  lemma MediansSplitTheValues(millis: seq<int>, rates: seq<real>)
    requires millis != [] && rates != []
    ensures Splits(millis, AsReal, AsReal(MedianOfInts(millis)))
    ensures Splits(rates, Same, MedianOfReals(rates))
  {
    RankingAscends(millis, AsReal);
    MiddleRanks(Ranked(millis, AsReal));
    BetweenTheMiddleTwo(millis, AsReal, AsReal(MedianOfInts(millis)));
    RankingAscends(rates, Same);
    MiddleRanksOfReals(Ranked(rates, Same));
    BetweenTheMiddleTwo(rates, Same, MedianOfReals(rates));
  }

  lemma {:induction false} CountWithout<T>(t: seq<T>, i: nat, key: T -> real, v: real)
    requires i < |t|
    ensures AtMost(t, key, v) == AtMost(Without(t, i), key, v) + Singles(key, v, t[i])
  {
    var front, last := t[..|t| - 1], t[|t| - 1];
    if i == |t| - 1 {
      assert Without(t, i) == front;
    } else {
      CountWithout(front, i, key, v);
      assert Without(t, i) == Without(front, i) + [last];
    }
  }

  lemma {:induction false} CountIsOrderFree<T>(s: seq<T>, t: seq<T>, key: T -> real, v: real)
    requires multiset(s) == multiset(t)
    ensures AtMost(s, key, v) == AtMost(t, key, v)
  {
    SameSize(s, t);
    if s != [] {
      var n := |s| - 1;
      assert s[n] in multiset(s) && s[n] in t;
      var i :| 0 <= i < |t| && t[i] == s[n];
      MultisetWithout(s, n);
      MultisetWithout(t, i);
      assert Without(s, n) == s[..n];
      CountIsOrderFree(s[..n], Without(t, i), key, v);
      CountWithout(t, i, key, v);
    }
  }

  lemma RanksAreOrderFree<T(!new)>(s: seq<T>, t: seq<T>, key: T -> real, k: nat)
    requires multiset(s) == multiset(t) && |s| == |t| && k < |s|
    ensures key(Ranked(s, key)[k]) == key(Ranked(t, key)[k])
  {
    forall v: real ensures AtMost(s, key, v) == AtMost(t, key, v) { CountIsOrderFree(s, t, key, v); }
    CountsDecideRanks(s, t, key, k);
    CountsDecideRanks(t, s, key, k);
  }

  /** The order in which the samples came does not matter. */
  lemma MediansAreOrderFree(s: seq<int>, t: seq<int>, p: seq<real>, q: seq<real>)
    requires s != [] && multiset(s) == multiset(t) && p != [] && multiset(p) == multiset(q)
    ensures t != [] && MedianOfInts(s) == MedianOfInts(t)
    ensures q != [] && MedianOfReals(p) == MedianOfReals(q)
  {
    SameSize(s, t);
    SameSize(p, q);
    RanksAreOrderFree(s, t, AsReal, |s| / 2);
    RanksAreOrderFree(p, q, Same, |p| / 2);
    if |s| % 2 == 0 { RanksAreOrderFree(s, t, AsReal, |s| / 2 - 1); }
    if |p| % 2 == 0 { RanksAreOrderFree(p, q, Same, |p| / 2 - 1); }
  }

  lemma MediansAreMonotone(s: seq<int>, t: seq<int>, p: seq<real>, q: seq<real>)
    requires s != [] && Below(s, t, AsReal) && p != [] && Below(p, q, Same)
    ensures MedianOfInts(s) <= MedianOfInts(t) && MedianOfReals(p) <= MedianOfReals(q)
  {
    SortingPreservesDominance(s, t, AsReal);
    SortingPreservesDominance(p, q, Same);
    var a, b, c, d := Ranked(s, AsReal), Ranked(t, AsReal), Ranked(p, Same), Ranked(q, Same);
    var i, k := |s| / 2, |p| / 2;
    assert AsReal(a[i]) <= AsReal(b[i]) && Same(c[k]) <= Same(d[k]);
    if |s| % 2 == 0 {
      assert AsReal(a[i - 1]) <= AsReal(b[i - 1]);
      RoundIsMonotone((a[i - 1] + a[i]) as real / 2.0, (b[i - 1] + b[i]) as real / 2.0);
    }
    if |p| % 2 == 0 { assert Same(c[k - 1]) <= Same(d[k - 1]); }
  }

  // ----- the suite -----------------------------------------------------------------------

  /** One call's result: a transport error, or a sample with its own verdict. */
  datatype Result = Failed | Sampled(ok: bool, ttft: int, tokensPerSec: real)

  predicate Counts(r: Result) { r.Sampled? && r.ok }

  datatype Aggregate = Aggregate(
    requests: nat,
    successes: nat,
    ttftMillis: Option<int>,
    tokensPerSec: Option<real>,
    rating: Option<real>)

  /** `Duration.Milliseconds`: truncates toward zero. */
  function Milliseconds(ns: int): int {
    if ns >= 0 then ns / 1_000_000 else -(-ns / 1_000_000)
  }

  function Rating(ttftMillis: int, tokensPerSec: real): real {
    var speed := if tokensPerSec / 80.0 < 1.0 then tokensPerSec / 80.0 else 1.0;
    var left := 1.0 - ttftMillis as real / 2000.0;
    0.5 * speed + 0.5 * (if left > 0.0 then left else 0.0)
  }

  function Ttfts(results: seq<Result>): (r: seq<int>)
    ensures |r| <= |results|
  {
    if results == [] then []
    else
      var last := results[|results| - 1];
      Ttfts(results[..|results| - 1]) + if Counts(last) then [Milliseconds(last.ttft)] else []
  }

  function Rates(results: seq<Result>): (r: seq<real>)
    ensures |r| == |Ttfts(results)|
  {
    if results == [] then []
    else
      var last := results[|results| - 1];
      Rates(results[..|results| - 1]) + if Counts(last) then [last.tokensPerSec] else []
  }

  function Aggregated(results: seq<Result>): Aggregate {
    var n, successes := |results|, |Ttfts(results)|;
    if successes == 0 then Aggregate(n, 0, None, None, None)
    else
      var ttft, rate := MedianOfInts(Ttfts(results)), MedianOfReals(Rates(results));
      Aggregate(n, successes, Some(ttft), Some(rate), if successes == n then Some(Rating(ttft, rate)) else None)
  }

  function Results(stream: nat -> Result, n: nat): seq<Result> {
    seq(n, i requires 0 <= i < n => stream(i))
  }

  /** `stream(i)` is what the i-th call of the injected stream function reports. */
  method RunBenchmarkSuite(stream: nat -> Result, requests: int) returns (agg: Aggregate)
    ensures agg == Aggregated(Results(stream, if requests <= 0 then 0 else requests))
  {
    if requests <= 0 { return Aggregate(0, 0, None, None, None); }
    var ttfts: seq<int>, tps: seq<real> := [], [];
    var successes := 0;
    for i := 0 to requests
      invariant ttfts == Ttfts(Results(stream, i)) && tps == Rates(Results(stream, i)) && successes == |ttfts|
    {
      var sample := stream(i);
      assert Results(stream, i + 1)[..i] == Results(stream, i);
      if sample.Failed? || !sample.ok { continue; }
      successes := successes + 1;
      ttfts := ttfts + [Milliseconds(sample.ttft)];
      tps := tps + [sample.tokensPerSec];
    }
    if |ttfts| == 0 { return Aggregate(requests, successes, None, None, None); }
    var millis := new int[|ttfts|](i requires 0 <= i < |ttfts| => ttfts[i]);
    var rates := new real[|tps|](i requires 0 <= i < |tps| => tps[i]);
    assert millis[..] == ttfts && rates[..] == tps;
    var ttft := MedianInt64(millis);
    var rate := MedianFloat64(rates);
    agg := Aggregate(requests, successes, Some(ttft), Some(rate), None);
    if successes == requests { agg := agg.(rating := Some(Rating(ttft, rate))); }
  }

  predicate AllCount(results: seq<Result>) { forall i | 0 <= i < |results| :: Counts(results[i]) }

  lemma {:induction false} AllCountedMeansAll(results: seq<Result>)
    ensures |Ttfts(results)| == |results| <==> AllCount(results)
    ensures AllCount(results) ==> forall i | 0 <= i < |results| ::
                Ttfts(results)[i] == Milliseconds(results[i].ttft) && Rates(results)[i] == results[i].tokensPerSec
  {
    if results != [] {
      AllCountedMeansAll(results[..|results| - 1]);
      assert forall i | 0 <= i < |results| - 1 :: results[..|results| - 1][i] == results[i];
    }
  }

  /** A rating is given exactly when something was asked and every request succeeded. */
  lemma RatedExactlyWhenAllSucceed(results: seq<Result>)
    ensures Aggregated(results).rating.Some? <==> results != [] && AllCount(results)
  {
    AllCountedMeansAll(results);
  }

  lemma RatingIsMonotone(t: int, u: int, p: real, q: real)
    requires t <= u && p >= q
    ensures Rating(t, p) >= Rating(u, q)
  {
  }

  /** Every sample of `a` is at least as fast as its counterpart in `b`. */
  ghost predicate AsFast(a: seq<Result>, b: seq<Result>) {
    && |a| == |b| && AllCount(a) && AllCount(b)
    && forall i | 0 <= i < |a| :: a[i].ttft <= b[i].ttft && a[i].tokensPerSec >= b[i].tokensPerSec
  }

  /** A suite that is at least as fast throughout is not rated lower. */
  lemma FasterIsNotRatedLower(a: seq<Result>, b: seq<Result>)
    requires AsFast(a, b) && a != []
    ensures Aggregated(a).rating.Some? && Aggregated(b).rating.Some?
    ensures Aggregated(a).rating.value >= Aggregated(b).rating.value
  {
    AllCountedMeansAll(a);
    AllCountedMeansAll(b);
    forall i | 0 <= i < |a| ensures Milliseconds(a[i].ttft) <= Milliseconds(b[i].ttft) {
      MillisecondsAreMonotone(a[i].ttft, b[i].ttft);
    }
    assert Below(Ttfts(a), Ttfts(b), AsReal) && Below(Rates(b), Rates(a), Same);
    MediansAreMonotone(Ttfts(a), Ttfts(b), Rates(b), Rates(a));
    RatingIsMonotone(MedianOfInts(Ttfts(a)), MedianOfInts(Ttfts(b)), MedianOfReals(Rates(a)), MedianOfReals(Rates(b)));
  }

  lemma MillisecondsAreMonotone(a: int, b: int)
    requires a <= b
    ensures Milliseconds(a) <= Milliseconds(b)
  {
  }

  /** Samples as a stream consumer measures them: nothing arrives before it was asked for. */
  ghost predicate Plausible(results: seq<Result>) {
    forall i | 0 <= i < |results| :: Counts(results[i]) ==> results[i].ttft >= 0 && results[i].tokensPerSec >= 0.0
  }

  lemma RatingIsBounded(ttft: int, rate: real)
    requires ttft >= 0 && rate >= 0.0
    ensures 0.0 <= Rating(ttft, rate) <= 1.0
  {
  }

  lemma MediansOfNonnegatives(t: seq<int>, p: seq<real>)
    requires t != [] && (forall i | 0 <= i < |t| :: t[i] >= 0)
    requires p != [] && (forall i | 0 <= i < |p| :: p[i] >= 0.0)
    ensures MedianOfInts(t) >= 0 && MedianOfReals(p) >= 0.0
  {
    var zeros, noughts := seq(|t|, _ => 0), seq(|p|, _ => 0.0);
    assert Below(zeros, t, AsReal) && Below(noughts, p, Same);
    MediansAreMonotone(zeros, t, noughts, p);
    AllAlike(zeros, AsReal, 0);
    AllAlike(noughts, Same, 0.0);
    RoundFixesIntegers(0);
  }

  /** A rating is a score between nought and one. */
  lemma RatingIsAScore(results: seq<Result>)
    requires Plausible(results) && Aggregated(results).rating.Some?
    ensures 0.0 <= Aggregated(results).rating.value <= 1.0
  {
    RatedExactlyWhenAllSucceed(results);
    AllCountedMeansAll(results);
    MediansOfNonnegatives(Ttfts(results), Rates(results));
    RatingIsBounded(MedianOfInts(Ttfts(results)), MedianOfReals(Rates(results)));
  }

  lemma AllAlike<T>(s: seq<T>, key: T -> real, x: T)
    requires forall i | 0 <= i < |s| :: s[i] == x
    ensures forall i | 0 <= i < |s| :: Ranked(s, key)[i] == x
  {
    SortingPermutes(s, ByKey(key));
    forall i | 0 <= i < |s| ensures Ranked(s, key)[i] == x {
      assert Ranked(s, key)[i] in multiset(s);
    }
  }

  // ----- what the numbers mean ---------------------------------------------------------------

  /** Half of a rating is for speed, all of it from 80 tokens a second; half for latency, none of it from 2000 ms. */
  lemma RatingExactly(ttftMillis: int, tokensPerSec: real)
    ensures var speed := if tokensPerSec >= 80.0 then 1.0 else tokensPerSec / 80.0;
            var latency := if ttftMillis >= 2000 then 0.0 else (2000 - ttftMillis) as real / 2000.0;
            Rating(ttftMillis, tokensPerSec) == (speed + latency) / 2.0
  {
  }

  /** Whole milliseconds towards zero. */
  lemma MillisecondsExactly(ns: int)
    ensures ns >= 0 ==> 1_000_000 * Milliseconds(ns) <= ns < 1_000_000 * (Milliseconds(ns) + 1)
    ensures ns <= 0 ==> 1_000_000 * (Milliseconds(ns) - 1) < ns <= 1_000_000 * Milliseconds(ns)
  {
  }

  /** The nearest whole number; of two, the one further from zero. */
  lemma RoundExactly(x: real)
    ensures -0.5 <= Round(x) as real - x <= 0.5
    ensures x - Round(x) as real == 0.5 ==> x < 0.0
    ensures Round(x) as real - x == 0.5 ==> x >= 0.0
  {
  }

  /** Of the values in order the middle one; of an even number the mean of the middle two, halves away from zero. */
  lemma MedianOfWhole(values: seq<int>)
    requires values != []
    ensures var s, n, m := Ranked(values, AsReal), |values|, MedianOfInts(values);
            if n % 2 == 1 then m == s[n / 2]
            else
              var sum := s[n / 2 - 1] + s[n / 2];
              2 * m == sum + (if sum % 2 == 0 then 0 else if sum > 0 then 1 else -1)
  {
    var s, n := Ranked(values, AsReal), |values|;
    if n % 2 == 0 { HalfRounds(s[n / 2 - 1] + s[n / 2]); }
  }

  lemma HalfRounds(sum: int)
    ensures 2 * Round(sum as real / 2.0) == sum + (if sum % 2 == 0 then 0 else if sum > 0 then 1 else -1)
  {
    var x := sum as real / 2.0;
    assert x + x == sum as real;
    RoundExactly(x);
  }

  lemma MedianOfRates(values: seq<real>)
    requires values != []
    ensures var s, n, m := Ranked(values, Same), |values|, MedianOfReals(values);
            if n % 2 == 1 then m == s[n / 2] else m + m == s[n / 2 - 1] + s[n / 2]
  {
  }

  /** Only a successful sample counts, with its time in milliseconds and its rate. */
  lemma SampleBySample(results: seq<Result>, r: Result)
    ensures Ttfts(results + [r]) == Ttfts(results) + if r.Sampled? && r.ok then [Milliseconds(r.ttft)] else []
    ensures Rates(results + [r]) == Rates(results) + if r.Sampled? && r.ok then [r.tokensPerSec] else []
    ensures Ttfts([]) == [] && Rates([]) == []
  {
    assert (results + [r])[..|results|] == results;
  }

  /** The suite's counts, its medians over the successful samples, and its rating if nothing else was sampled. */
  lemma AggregatedExactly(results: seq<Result>)
    ensures var agg, ms, rates := Aggregated(results), Ttfts(results), Rates(results);
            && agg.requests == |results| && agg.successes == |ms|
            && (agg.ttftMillis == None <==> ms == []) && (agg.tokensPerSec == None <==> ms == [])
            && (ms != [] ==> Splits(ms, AsReal, AsReal(agg.ttftMillis.value)))
            && (ms != [] ==> Splits(rates, Same, agg.tokensPerSec.value))
            && (agg.rating != None ==> agg.rating == Some(Rating(agg.ttftMillis.value, agg.tokensPerSec.value)))
  {
    if Ttfts(results) != [] { MediansSplitTheValues(Ttfts(results), Rates(results)); }
  }
}
