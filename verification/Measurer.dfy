/**
 The latency histogram of the benchmark: a map from duration to number of calls that stands in
 for the list of all samples. Doubles are modelled by exact reals.
 */
module Measurer {
  import opened Common
  import opened Ordered

  /** What `percentile` returns: a key, the value -1, or nothing defined at all. */
  datatype Percentile = Key(ns: int) | NotFound | Undefined

  /** What a sum over the samples adds up: one for each sample, or the sample itself. */
  datatype Measure = Ones | Values

  function Weight(m: Measure, x: int): int {
    if m == Ones then 1 else x
  }

  /** n times w. */
  function Times(n: nat, w: int): int {
    if n == 0 then 0 else w + Times(n - 1, w)
  }

  lemma {:induction false} TimesIsProduct(n: nat, w: int)
    ensures Times(n, w) == n * w
  {
    if n > 0 {
      TimesIsProduct(n - 1, w);
      assert n * w == (n - 1) * w + w;
    }
  }

  /** The sum over the samples of at most `v`. */
  function SumLe(samples: seq<int>, v: int, m: Measure): int {
    if samples == [] then 0
    else (if samples[0] <= v then Weight(m, samples[0]) else 0) + SumLe(samples[1..], v, m)
  }

  function Sum(samples: seq<int>, m: Measure): int {
    if samples == [] then 0 else Weight(m, samples[0]) + Sum(samples[1..], m)
  }

  /** The number of samples of at most `v`. */
  function CountLe(samples: seq<int>, v: int): int {
    SumLe(samples, v, Ones)
  }

  /** The map holds each sample with the number of its occurrences, and nothing else. */
  ghost predicate Histogram(t: map<int, nat>, samples: seq<int>) {
    && (forall x :: x in t <==> x in multiset(samples))
    && forall x :: x in t ==> t[x] == multiset(samples)[x]
  }

  /** The sum over the first i entries of the map. */
  function SumUpTo(t: map<int, nat>, order: seq<int>, i: nat, m: Measure): int
    requires i <= |order| && forall j :: 0 <= j < |order| ==> order[j] in t
  {
    if i == 0 then 0 else SumUpTo(t, order, i - 1, m) + Times(t[order[i - 1]], Weight(m, order[i - 1]))
  }

  // ---- The map against the samples -----------------------------------------------------------

  lemma {:induction false} SumLeNext(samples: seq<int>, lo: int, hi: int, m: Measure)
    requires lo < hi && forall i :: 0 <= i < |samples| ==> samples[i] <= lo || samples[i] >= hi
    ensures SumLe(samples, hi, m) == SumLe(samples, lo, m) + Times(multiset(samples)[hi], Weight(m, hi))
  {
    if samples != [] {
      var x, rest := samples[0], samples[1..];
      SumLeNext(rest, lo, hi, m);
      assert samples == [x] + rest;
      assert multiset(samples)[hi] == multiset(rest)[hi] + if x == hi then 1 else 0;
    }
  }

  lemma {:induction false} SumLeFirst(samples: seq<int>, hi: int, m: Measure)
    requires forall i :: 0 <= i < |samples| ==> samples[i] >= hi
    ensures SumLe(samples, hi, m) == Times(multiset(samples)[hi], Weight(m, hi))
  {
    if samples != [] {
      var x, rest := samples[0], samples[1..];
      SumLeFirst(rest, hi, m);
      assert samples == [x] + rest;
      assert multiset(samples)[hi] == multiset(rest)[hi] + if x == hi then 1 else 0;
    }
  }

  lemma {:induction false} SumLeAll(samples: seq<int>, hi: int, m: Measure)
    requires forall i :: 0 <= i < |samples| ==> samples[i] <= hi
    ensures SumLe(samples, hi, m) == Sum(samples, m)
  {
    if samples != [] {
      SumLeAll(samples[1..], hi, m);
    }
  }

  /** A sum is that of its parts, and the sum over one sample is the sample itself. */
  lemma {:induction false} SumConcat(a: seq<int>, b: seq<int>, x: int, m: Measure)
    ensures Sum(a + b, m) == Sum(a, m) + Sum(b, m)
    ensures Sum([x], Values) == x && Sum([x], Ones) == 1
  {
    if a == [] {
      assert a + b == b;
    } else {
      AppendToTail(a, b);
      SumConcat(a[1..], b, x, m);
    }
  }

  lemma {:induction false} SumOfOnes(samples: seq<int>)
    ensures Sum(samples, Ones) == |samples|
  {
    if samples != [] {
      SumOfOnes(samples[1..]);
    }
  }

  lemma KeyIndex(order: seq<int>, x: int) returns (i: nat)
    requires x in order
    ensures i < |order| && order[i] == x
  {
    i :| 0 <= i < |order| && order[i] == x;
  }

  lemma {:induction false} SampleIsKey(t: map<int, nat>, samples: seq<int>, v: int) returns (j: nat)
    requires Histogram(t, samples) && v in multiset(samples)
    ensures j < |t.Keys| && Ascending(t.Keys)[j] == v
  {
    hide Increasing;
    j := KeyIndex(Ascending(t.Keys), v);
  }

  lemma KeyIsSample(t: map<int, nat>, samples: seq<int>, i: nat)
    requires Histogram(t, samples) && i < |t.Keys|
    ensures Ascending(t.Keys)[i] in multiset(samples)
  {
    hide Increasing;
    var x := Ascending(t.Keys)[i];
    assert x in t;
  }

  /** No sample lies strictly between two neighbouring keys, before the first or after the last. */
  lemma {:induction false} SamplesAreKeys(t: map<int, nat>, samples: seq<int>, i: nat)
    requires Histogram(t, samples) && i < |t.Keys|
    ensures var order := Ascending(t.Keys); forall k :: 0 <= k < |samples| ==>
      && (samples[k] >= order[i] || (i > 0 && samples[k] <= order[i - 1]))
      && samples[k] <= order[|order| - 1]
    ensures i > 0 ==> Ascending(t.Keys)[i - 1] < Ascending(t.Keys)[i]
  {
    hide Increasing;
    var order := Ascending(t.Keys);
    forall k | 0 <= k < |samples|
      ensures (samples[k] >= order[i] || (i > 0 && samples[k] <= order[i - 1])) && samples[k] <= order[|order| - 1]
    {
      assert samples[k] in multiset(samples);
      var j := SampleIsKey(t, samples, samples[k]);
      Compare(order, j, i);
      Compare(order, j, |order| - 1);
      if i > 0 {
        Compare(order, j, i - 1);
      }
    }
    if i > 0 {
      Compare(order, i - 1, i);
    }
  }

  lemma Compare(order: seq<int>, i: nat, j: nat)
    requires Increasing(order) && i < |order| && j < |order|
    ensures order[i] < order[j] <==> i < j
    ensures order[i] == order[j] <==> i == j
  {
  }

  /** Entries up to the i-th key stand for exactly the samples of at most that key. */
  lemma {:induction false} SumUpToIsSumLe(t: map<int, nat>, samples: seq<int>, i: nat, m: Measure)
    requires Histogram(t, samples) && 0 < i <= |t.Keys|
    ensures var order := Ascending(t.Keys); SumUpTo(t, order, i, m) == SumLe(samples, order[i - 1], m)
  {
    hide Increasing, SumLe, Weight, Times;
    var order := Ascending(t.Keys);
    var hi := order[i - 1];
    assert hi in t;
    SamplesAreKeys(t, samples, i - 1);
    if i == 1 {
      SumLeFirst(samples, hi, m);
      assert SumUpTo(t, order, 0, m) == 0;
    } else {
      SumUpToIsSumLe(t, samples, i - 1, m);
      SumLeNext(samples, order[i - 2], hi, m);
    }
  }

  lemma {:induction false} SumUpToAll(t: map<int, nat>, samples: seq<int>, m: Measure)
    requires Histogram(t, samples)
    ensures SumUpTo(t, Ascending(t.Keys), |t.Keys|, m) == Sum(samples, m)
  {
    hide Increasing, SumLe, Times;
    EmptyTogether(t, samples);
    var n := |t.Keys|;
    if n > 0 {
      SumUpToIsSumLe(t, samples, n, m);
      SamplesAreKeys(t, samples, n - 1);
      SumLeAll(samples, Ascending(t.Keys)[n - 1], m);
    }
  }

  lemma EmptyTogether(t: map<int, nat>, samples: seq<int>)
    requires Histogram(t, samples)
    ensures |t.Keys| == 0 <==> samples == []
  {
    hide Increasing;
    if samples != [] {
      assert samples[0] in multiset(samples);
      var j := SampleIsKey(t, samples, samples[0]);
    } else if |t.Keys| > 0 {
      KeyIsSample(t, samples, 0);
    }
  }

  lemma {:induction false} CountLeMonotone(samples: seq<int>, u: int, v: int)
    requires u <= v
    ensures 0 <= CountLe(samples, u) <= CountLe(samples, v) <= |samples|
  {
    if samples != [] {
      CountLeMonotone(samples[1..], u, v);
    }
  }

  lemma {:induction false} SumBetween(samples: seq<int>, lo: int, hi: int)
    requires forall i :: 0 <= i < |samples| ==> lo <= samples[i] <= hi
    ensures |samples| * lo <= Sum(samples, Values) <= |samples| * hi
  {
    if samples != [] {
      SumBetween(samples[1..], lo, hi);
      var n := |samples| - 1;
      assert (n + 1) * lo == n * lo + lo && (n + 1) * hi == n * hi + hi;
    }
  }

  // ---- Quantiles ---------------------------------------------------------------------------------

  function Fraction(c: int, n: int): real
    requires n > 0
  {
    c as real / n as real
  }

  /** The fraction of the samples that are at most `v`. */
  ghost function Share(samples: seq<int>, v: int): real
    requires samples != []
  {
    Fraction(CountLe(samples, v), |samples|)
  }

  /** `r` is the smallest sample that at least the fraction `q` of all samples does not exceed. */
  ghost predicate IsQuantile(samples: seq<int>, q: real, r: int) {
    && samples != []
    && r in multiset(samples)
    && Share(samples, r) >= q
    && forall v :: v in multiset(samples) && v < r ==> Share(samples, v) < q
  }

  /** Where `v` lies between the smallest and the largest sample, from 0 to 1. */
  function Position(v: int, lo: int, hi: int): real
    requires lo < hi
  {
    Fraction(v - lo, hi - lo)
  }

  /** The time at the fraction `q` of the way from `lo` to `hi`. */
  function TimeAt(q: real, lo: int, hi: int): real {
    lo as real + q * (hi - lo) as real
  }

  /** `r` is the smallest sample that is not before the given time. */
  ghost predicate IsFirstFrom(samples: seq<int>, time: real, r: int) {
    && r in multiset(samples)
    && r as real >= time
    && forall v :: v in multiset(samples) && v < r ==> (v as real) < time
  }

  /** A position is at least `q` just when the time at the fraction `q` of the range is reached. */
  lemma PositionIff(v: int, lo: int, hi: int, q: real)
    requires lo < hi
    ensures Position(v, lo, hi) >= q <==> v as real >= TimeAt(q, lo, hi)
  {
    ShareOfCount(v - lo, hi - lo, q);
  }

  ghost predicate IsRange(samples: seq<int>, lo: int, hi: int) {
    lo in multiset(samples) && hi in multiset(samples) && forall x :: x in multiset(samples) ==> lo <= x <= hi
  }

  /** Quantiles grow with the fraction; in particular there is only one for each fraction. */
  lemma QuantileMonotone(samples: seq<int>, p: real, q: real, a: int, b: int)
    requires p <= q && IsQuantile(samples, p, a) && IsQuantile(samples, q, b)
    ensures a <= b
  {
    assert Share(samples, b) >= p;
  }

  lemma TimeQuantileMonotone(samples: seq<int>, p: real, q: real, a: int, b: int, lo: int, hi: int)
    requires lo <= hi && p <= q
    requires IsFirstFrom(samples, TimeAt(p, lo, hi), a) && IsFirstFrom(samples, TimeAt(q, lo, hi), b)
    ensures a <= b
  {
    assert TimeAt(p, lo, hi) <= TimeAt(q, lo, hi);
    hide TimeAt;
    assert b as real >= TimeAt(p, lo, hi);
  }

  ghost predicate Sorted(s: seq<int>) {
    forall i, j :: 0 <= i < j < |s| ==> s[i] <= s[j]
  }

  /** The index of the nearest rank, ceil(q * n) - 1, or 0 for fractions of at most 0. */
  function Rank(q: real, n: nat): int {
    var c := -(-(q * n as real)).Floor;
    if c <= 0 then 0 else c - 1
  }

  lemma {:induction false} CountLeSorted(s: seq<int>, i: nat, v: int)
    requires Sorted(s) && i < |s|
    ensures s[i] <= v ==> CountLe(s, v) >= i + 1
    ensures v < s[i] ==> CountLe(s, v) <= i
  {
    if i > 0 {
      assert s[1..][i - 1] == s[i];
      CountLeSorted(s[1..], i - 1, v);
      CountLeMonotone(s[1..], v, v);
    } else if v < s[0] {
      NothingBelow(s, v);
    } else {
      CountLeMonotone(s[1..], v, v);
      assert SumLe(s, v, Ones) == 1 + SumLe(s[1..], v, Ones);
    }
  }

  lemma {:induction false} NothingBelow(s: seq<int>, v: int)
    requires forall i :: 0 <= i < |s| ==> v < s[i]
    ensures CountLe(s, v) == 0
  {
    if s != [] {
      NothingBelow(s[1..], v);
    }
  }

  lemma {:induction false} CountLeOfSplit(a: seq<int>, x: int, b: seq<int>, v: int)
    ensures CountLe(a + [x] + b, v) == CountLe([x] + (a + b), v)
  {
    if a == [] {
      assert a + [x] + b == [x] + (a + b);
    } else {
      CountLeOfSplit(a[1..], x, b, v);
      assert (a + [x] + b)[1..] == a[1..] + [x] + b;
      assert ([x] + (a + b))[1..] == a + b && (a + b)[1..] == a[1..] + b;
      assert ([x] + (a[1..] + b))[1..] == a[1..] + b;
      assert SumLe(a + b, v, Ones) == (if a[0] <= v then 1 else 0) + SumLe(a[1..] + b, v, Ones);
      assert SumLe([x] + (a + b), v, Ones) == (if x <= v then 1 else 0) + SumLe(a + b, v, Ones);
      assert SumLe([x] + (a[1..] + b), v, Ones) == (if x <= v then 1 else 0) + SumLe(a[1..] + b, v, Ones);
    }
  }

  /** Counting does not depend on the order of the samples. */
  lemma {:induction false} CountLePermutes(a: seq<int>, b: seq<int>, v: int)
    requires multiset(a) == multiset(b)
    ensures CountLe(a, v) == CountLe(b, v)
    decreases |a|
  {
    if a == [] {
      assert |multiset(b)| == 0;
      assert b == [];
    } else {
      var i := TakeOut(a, b);
      var rest := b[..i] + b[i + 1..];
      CountLePermutes(a[1..], rest, v);
      CountLeOfSplit(b[..i], a[0], b[i + 1..], v);
      assert b == b[..i] + [a[0]] + b[i + 1..];
      assert ([a[0]] + rest)[1..] == rest;
    }
  }

  lemma TakeOut(a: seq<int>, b: seq<int>) returns (i: nat)
    requires a != [] && multiset(a) == multiset(b)
    ensures i < |b| && b[i] == a[0] && multiset(a[1..]) == multiset(b[..i] + b[i + 1..])
  {
    var x := a[0];
    assert x in multiset(b);
    i := KeyIndex(b, x);
    var c, d := b[..i], b[i + 1..];
    var e := c + [x];
    assert b == e + d;
    assert a == [x] + a[1..];
    assert multiset(b) - multiset{x} == multiset(c) + multiset(d);
    assert multiset(a) - multiset{x} == multiset(a[1..]);
  }

  lemma ShareOfCount(c: int, n: int, q: real)
    requires n > 0
    ensures Fraction(c, n) >= q <==> c as real >= q * n as real
    ensures Fraction(c, n) <= q <==> c as real <= q * n as real
  {
    var x, m := c as real / n as real, n as real;
    assert c as real == x * m;
    assert (x - q) * m == x * m - q * m;
    SignOfProduct(x - q, m);
  }

  lemma SignOfProduct(d: real, m: real)
    requires m > 0.0
    ensures d * m >= 0.0 <==> d >= 0.0
    ensures d * m <= 0.0 <==> d <= 0.0
  {
  }

  /** The quantile is the entry at the nearest rank of the sorted list of all samples. */
  lemma QuantileIsNearestRank(samples: seq<int>, sorted: seq<int>, q: real)
    requires samples != [] && Sorted(sorted) && multiset(sorted) == multiset(samples) && q <= 1.0
    ensures 0 <= Rank(q, |samples|) < |sorted|
    ensures IsQuantile(samples, q, sorted[Rank(q, |samples|)])
  {
    hide Sorted, CountLe, Share;
    assert |multiset(sorted)| == |multiset(samples)|;
    RankInRange(q, |samples|);
    var i := Rank(q, |samples|);
    var r := sorted[i];
    assert r in multiset(sorted);
    ShareAtRank(samples, sorted, q, r);
    forall v | v in multiset(samples) && v < r ensures Share(samples, v) < q {
      ShareAtRank(samples, sorted, q, v);
    }
  }

  lemma RankInRange(q: real, n: nat)
    requires n > 0 && q <= 1.0
    ensures 0 <= Rank(q, n) < n
    ensures Rank(q, n) > 0 ==> (Rank(q, n) as real) < q * n as real
    ensures q * n as real <= (Rank(q, n) + 1) as real
  {
    ShareOfCount(n, n, q);
  }

  /** In the sorted list, a sample has the share q just when it is at least the entry at the nearest rank. */
  lemma {:induction false} ShareAtRank(samples: seq<int>, sorted: seq<int>, q: real, v: int)
    requires samples != [] && q <= 1.0
    requires Sorted(sorted) && multiset(sorted) == multiset(samples) && |sorted| == |samples|
    requires v in multiset(samples)
    ensures 0 <= Rank(q, |samples|) < |sorted|
    ensures Share(samples, v) >= q <==> v >= sorted[Rank(q, |samples|)]
  {
    var n := |samples|;
    RankInRange(q, n);
    var i := Rank(q, n);
    assert v in multiset(sorted);
    var j := KeyIndex(sorted, v);
    CountLeSorted(sorted, i, v);
    CountLeSorted(sorted, j, v);
    CountLePermutes(sorted, samples, v);
    ShareOfCount(CountLe(samples, v), n, q);
    hide CountLe, Rank;
  }

  /** The average lies between the smallest and the largest sample. */
  lemma AverageInRange(samples: seq<int>, lo: int, hi: int)
    requires samples != [] && IsRange(samples, lo, hi)
    ensures lo as real <= Fraction(Sum(samples, Values), |samples|) <= hi as real
  {
    forall i | 0 <= i < |samples| ensures lo <= samples[i] <= hi {
      assert samples[i] in multiset(samples);
    }
    SumBetween(samples, lo, hi);
    Divides(Sum(samples, Values), |samples|, lo, hi);
  }

  lemma Divides(total: int, n: nat, lo: int, hi: int)
    requires n > 0 && n * lo <= total <= n * hi
    ensures lo as real <= Fraction(total, n) <= hi as real
  {
    assert n as real * lo as real == (n * lo) as real && n as real * hi as real == (n * hi) as real;
    ShareOfCount(total, n, lo as real);
    ShareOfCount(total, n, hi as real);
  }

  // ---- The two scans ---------------------------------------------------------------------------

  predicate IsEqual(a: real, b: real, c: real) {
    a == b || (a >= b - c && a <= b + c)
  }

  /** When no earlier key was taken, the test by calls takes a key just when its share reaches p - 0.0005. */
  lemma CallTest(p: real, last: real, now: real)
    requires p > 0.0 && (last == 0.0 || last < p - 0.0005)
    ensures IsEqual(p, now, 0.0005) || (last < p && now > p) <==> now >= p - 0.0005
  {
  }

  /** For a negative fraction the test takes a key just when its share is at most p + 0.0005. */
  lemma CallTestBelow(p: real, last: real, now: real)
    requires p < 0.0 && 0.0 <= last && 0.0 <= now
    ensures IsEqual(p, now, 0.0005) || (last < p && now > p) <==> now <= p + 0.0005
  {
  }

  lemma FractionMonotone(a: int, b: int, n: int)
    requires a <= b && n > 0
    ensures Fraction(a, n) <= Fraction(b, n)
  {
    ShareOfCount(b, n, Fraction(b, n));
    ShareOfCount(a, n, Fraction(b, n));
    hide Fraction;
  }

  lemma ShareMonotone(samples: seq<int>, u: int, v: int)
    requires samples != [] && u <= v
    ensures 0.0 <= Share(samples, u) <= Share(samples, v)
  {
    hide CountLe, Fraction;
    CountLeMonotone(samples, u, v);
    FractionMonotone(CountLe(samples, u), CountLe(samples, v), |samples|);
    ShareOfCount(CountLe(samples, u), |samples|, 0.0);
  }

  lemma NoRangeOfNothing(samples: seq<int>)
    ensures samples == [] ==> forall lo, hi :: !IsRange(samples, lo, hi)
  {
  }

  /** The running count of the scan and its share, at one key. */
  lemma {:induction false} ScanAt(t: map<int, nat>, samples: seq<int>, i: nat)
    requires Histogram(t, samples) && i < |t.Keys|
    ensures var order := Ascending(t.Keys);
            && samples != [] && order[i] in t
            && CountLe(samples, order[i]) == t[order[i]] + (if i == 0 then 0 else CountLe(samples, order[i - 1]))
            && Fraction(0, |samples|) == 0.0
            && 0.0 <= Share(samples, order[i]) <= 1.0
            && (i == |t.Keys| - 1 ==> Share(samples, order[i]) == 1.0)
  {
    hide Increasing, SumLe, Histogram;
    var order := Ascending(t.Keys);
    var c := CountLe(samples, order[i]);
    EmptyTogether(t, samples);
    assert order[i] in t;
    SumUpToIsSumLe(t, samples, i + 1, Ones);
    if i > 0 {
      SumUpToIsSumLe(t, samples, i, Ones);
    }
    TimesIsProduct(t[order[i]], 1);
    CountLeMonotone(samples, order[i], order[i]);
    ShareOfCount(c, |samples|, 0.0);
    ShareOfCount(c, |samples|, 1.0);
    if i == |t.Keys| - 1 {
      SumUpToAll(t, samples, Ones);
      SumOfOnes(samples);
    }
  }

  /** The keys are the samples, and the first key that reaches a fraction is the quantile. */
  lemma FirstToReach(t: map<int, nat>, samples: seq<int>, i: nat, q: real)
    requires Histogram(t, samples) && samples != [] && i < |t.Keys|
    requires forall j :: 0 <= j < i ==> Share(samples, Ascending(t.Keys)[j]) < q
    requires Share(samples, Ascending(t.Keys)[i]) >= q
    ensures IsQuantile(samples, q, Ascending(t.Keys)[i])
  {
    hide Increasing, Share;
    var order := Ascending(t.Keys);
    KeyIsSample(t, samples, i);
    forall v | v in multiset(samples) && v < order[i] ensures Share(samples, v) < q {
      var j := SampleIsKey(t, samples, v);
      Compare(order, j, i);
    }
  }

  /** The share of the samples before the i-th key. */
  ghost function ShareBefore(t: map<int, nat>, samples: seq<int>, i: nat): real
    requires samples != [] && i <= |t.Keys|
  {
    if i == 0 then Fraction(0, |samples|) else Share(samples, Ascending(t.Keys)[i - 1])
  }

  /** The scan by calls has passed over the first i keys. */
  ghost predicate Passed(t: map<int, nat>, samples: seq<int>, p: real, i: nat) {
    samples != [] ==>
      && i <= |t.Keys|
      && (p > 0.0 ==> forall j :: 0 <= j < i ==> Share(samples, Ascending(t.Keys)[j]) < p - 0.0005)
      && (p < 0.0 && i > 0 ==> Share(samples, Ascending(t.Keys)[0]) > p + 0.0005)
  }

  /** What it means that the scan takes a key. */
  ghost predicate Taken(samples: seq<int>, p: real, k: int) {
    && samples != [] && p <= 1.0005
    && (p > 0.0 ==> IsQuantile(samples, p - 0.0005, k))
    && (p < 0.0 ==> Share(samples, k) <= p + 0.0005 && forall lo, hi :: IsRange(samples, lo, hi) ==> lo == k)
  }

  lemma PassedNone(t: map<int, nat>, samples: seq<int>, p: real)
    ensures Passed(t, samples, p, 0)
  {
  }

  lemma TakenMeans(samples: seq<int>, p: real, k: int)
    requires Taken(samples, p, k)
    ensures samples != [] && p <= 1.0005
    ensures p > 0.0 ==> IsQuantile(samples, p - 0.0005, k)
    ensures p < 0.0 ==> forall lo, hi :: IsRange(samples, lo, hi) ==> lo == k && Share(samples, lo) <= p + 0.0005
  {
  }

  /** One step of the scan: the test takes the key or passes over it. */
  lemma ScanStep(t: map<int, nat>, samples: seq<int>, p: real, i: nat)
    requires Histogram(t, samples) && samples != [] && i < |t.Keys| && p != 0.0 && Passed(t, samples, p, i)
    ensures var last, now := ShareBefore(t, samples, i), Share(samples, Ascending(t.Keys)[i]);
            if IsEqual(p, now, 0.0005) || (last < p && now > p) then Taken(samples, p, Ascending(t.Keys)[i])
            else Passed(t, samples, p, i + 1)
  {
    hide Increasing, Histogram, Share, Fraction;
    ScanAt(t, samples, i);
    if p > 0.0 {
      StepAbove(t, samples, p, i);
    } else {
      StepBelow(t, samples, p, i);
    }
  }

  lemma StepAbove(t: map<int, nat>, samples: seq<int>, p: real, i: nat)
    requires Histogram(t, samples) && samples != [] && i < |t.Keys| && p > 0.0 && Passed(t, samples, p, i)
    ensures var last, now := ShareBefore(t, samples, i), Share(samples, Ascending(t.Keys)[i]);
            if IsEqual(p, now, 0.0005) || (last < p && now > p) then Taken(samples, p, Ascending(t.Keys)[i])
            else Passed(t, samples, p, i + 1)
  {
    hide Increasing, Histogram, Share, Fraction, IsEqual, IsQuantile;
    ScanAt(t, samples, i);
    var order := Ascending(t.Keys);
    CallTest(p, ShareBefore(t, samples, i), Share(samples, order[i]));
    if Share(samples, order[i]) >= p - 0.0005 {
      FirstToReach(t, samples, i, p - 0.0005);
    }
  }

  lemma StepBelow(t: map<int, nat>, samples: seq<int>, p: real, i: nat)
    requires Histogram(t, samples) && samples != [] && i < |t.Keys| && p < 0.0 && Passed(t, samples, p, i)
    ensures var last, now := ShareBefore(t, samples, i), Share(samples, Ascending(t.Keys)[i]);
            if IsEqual(p, now, 0.0005) || (last < p && now > p) then Taken(samples, p, Ascending(t.Keys)[i])
            else Passed(t, samples, p, i + 1)
  {
    hide Increasing, Histogram, Share, Fraction, IsEqual;
    ScanAt(t, samples, i);
    var order := Ascending(t.Keys);
    Compare(order, 0, i);
    ShareMonotone(samples, order[0], order[i]);
    if i > 0 {
      ShareMonotone(samples, order[i - 1], order[i - 1]);
    }
    CallTestBelow(p, ShareBefore(t, samples, i), Share(samples, order[i]));
    KeysSpanRange(t, samples);
    OneRange(samples, order[0], order[|order| - 1]);
  }

  /** A scan that passes over every key: the fraction is too large or too small. */
  lemma PassedAll(t: map<int, nat>, samples: seq<int>, p: real)
    requires Histogram(t, samples) && samples != [] && |t.Keys| > 0 && p != 0.0 && Passed(t, samples, p, |t.Keys|)
    ensures p > 0.0 ==> p > 1.0005
    ensures p < 0.0 ==> forall lo, hi :: IsRange(samples, lo, hi) ==> Share(samples, lo) > p + 0.0005
  {
    hide Increasing, Histogram, Share;
    ScanAt(t, samples, |t.Keys| - 1);
    KeysSpanRange(t, samples);
    OneRange(samples, Ascending(t.Keys)[0], Ascending(t.Keys)[|t.Keys| - 1]);
  }

  /** The first and the last key are the range of the samples. */
  lemma KeysSpanRange(t: map<int, nat>, samples: seq<int>)
    requires Histogram(t, samples) && |t.Keys| > 0
    ensures IsRange(samples, Ascending(t.Keys)[0], Ascending(t.Keys)[|t.Keys| - 1])
  {
    hide Increasing;
    var order := Ascending(t.Keys);
    KeyIsSample(t, samples, 0);
    KeyIsSample(t, samples, |order| - 1);
    forall x | x in multiset(samples) ensures order[0] <= x <= order[|order| - 1] {
      var j := SampleIsKey(t, samples, x);
      Compare(order, 0, j);
      Compare(order, j, |order| - 1);
    }
  }

  class Histo {
    var timings: map<int, nat>
    ghost var samples: seq<int>

    ghost predicate Valid()
      reads this
    {
      Histogram(timings, samples)
    }

    constructor ()
      ensures Valid() && samples == []
    {
      timings, samples := map[], [];
    }

    method Track(duration: int)
      requires Valid()
      modifies this
      ensures Valid() && samples == old(samples) + [duration]
    {
      if duration in timings {
        timings := timings[duration := timings[duration] + 1];
      } else {
        timings := timings[duration := 1];
      }
      samples := samples + [duration];
    }

    method Count() returns (count: int)
      requires Valid()
      ensures count == |samples|
    {
      hide Increasing, Times;
      var order := Ascending(timings.Keys);
      count := 0;
      for i := 0 to |order|
        invariant count == SumUpTo(timings, order, i, Ones)
      {
        TimesIsProduct(timings[order[i]], 1);
        count := count + timings[order[i]];
      }
      SumUpToAll(timings, samples, Ones);
      SumOfOnes(samples);
    }

    method TotalDuration() returns (duration: int)
      requires Valid()
      ensures duration == Sum(samples, Values)
    {
      hide Increasing, Times;
      var order := Ascending(timings.Keys);
      duration := 0;
      for i := 0 to |order|
        invariant duration == SumUpTo(timings, order, i, Values)
      {
        TimesIsProduct(timings[order[i]], order[i]);
        duration := duration + order[i] * timings[order[i]];
      }
      SumUpToAll(timings, samples, Values);
    }

    /** `None` is the not-a-number of an empty histogram. */
    method AverageDuration() returns (average: Option<real>)
      requires Valid()
      ensures average == None <==> samples == []
      ensures average.Some? ==> average.value == Fraction(Sum(samples, Values), |samples|)
      ensures average.Some? ==> forall lo, hi :: IsRange(samples, lo, hi) ==> lo as real <= average.value <= hi as real
    {
      var duration := TotalDuration();
      var count := Count();
      if count == 0 {
        return None;
      }
      average := Some(Fraction(duration, count));
      forall lo, hi | IsRange(samples, lo, hi) ensures lo as real <= average.value <= hi as real {
        AverageInRange(samples, lo, hi);
      }
    }

    /** `percentile` in its mode by calls. */
    method PercentileByCall(p: real) returns (r: Percentile)
      requires Valid()
      ensures samples == [] ==> r == if p == 0.0 then Undefined else NotFound
      ensures samples != [] && 0.0 <= p <= 1.0005 ==> r.Key? && IsQuantile(samples, p - 0.0005, r.ns)
      ensures samples != [] && p > 1.0005 ==> r == NotFound
      ensures p < 0.0 ==> forall lo, hi :: IsRange(samples, lo, hi) ==>
        r == if Share(samples, lo) <= p + 0.0005 then Key(lo) else NotFound
    {
      hide Increasing, Histogram, CountLe, IsQuantile, IsEqual, Fraction, Passed, Taken, IsRange;
      var calls := Count();
      var order := Ascending(timings.Keys);
      EmptyTogether(timings, samples);
      NoRangeOfNothing(samples);
      if p == 0.0 {
        if |order| == 0 {
          return Undefined;
        }
        ScanAt(timings, samples, 0);
        FirstToReach(timings, samples, 0, -0.0005);
        return Key(order[0]);
      }
      PassedNone(timings, samples, p);
      var now := 0;
      for i := 0 to |order|
        invariant now == if i == 0 then 0 else CountLe(samples, order[i - 1])
        invariant Passed(timings, samples, p, i)
      {
        ScanAt(timings, samples, i);
        var last := now;
        now := now + timings[order[i]];
        var percentileLast, percentileNow := Fraction(last, calls), Fraction(now, calls);
        ScanStep(timings, samples, p, i);
        if IsEqual(p, percentileNow, 0.0005) || (percentileLast < p && percentileNow > p) {
          TakenMeans(samples, p, order[i]);
          return Key(order[i]);
        }
      }
      if |order| > 0 {
        PassedAll(timings, samples, p);
      }
      return NotFound;
    }

    /** `percentile` in its mode by time; with a single key the positions are not numbers, and no key is ever taken. */
    method PercentileByTime(p: real) returns (r: Percentile)
      requires Valid()
      ensures samples == [] <==> r == Undefined
      ensures forall lo, hi :: IsRange(samples, lo, hi) ==>
        if lo == hi || p > 1.00005 then r == NotFound
        else
          var time := lo as real + (p - 0.00005) * (hi - lo) as real;
          && r.Key? && r.ns in multiset(samples) && r.ns as real >= time
          && forall v :: v in multiset(samples) && v < r.ns ==> (v as real) < time
    {
      r := ScanTimes(p);
      hide Histogram, IsFirstFrom, TimeAt, IsRange;
      forall lo, hi | IsRange(samples, lo, hi)
        ensures
          if lo == hi || p > 1.00005 then r == NotFound
          else
            var time := lo as real + (p - 0.00005) * (hi - lo) as real;
            && r.Key? && r.ns in multiset(samples) && r.ns as real >= time
            && forall v :: v in multiset(samples) && v < r.ns ==> (v as real) < time
      {
        if lo != hi && p <= 1.00005 {
          FirstFromMeans(samples, p - 0.00005, r.ns, lo, hi);
        }
      }
    }

    /** The loop over the keys. */
    method ScanTimes(p: real) returns (r: Percentile)
      requires Valid()
      ensures samples == [] <==> r == Undefined
      ensures forall lo, hi :: IsRange(samples, lo, hi) ==>
        if lo == hi || p > 1.00005 then r == NotFound
        else r.Key? && IsFirstFrom(samples, TimeAt(p - 0.00005, lo, hi), r.ns)
    {
      hide Increasing, Histogram, IsFirstFrom, TimeAt, Position, IsEqual, IsRange;
      var order := Ascending(timings.Keys);
      EmptyTogether(timings, samples);
      NoRangeOfNothing(samples);
      if |order| == 0 {
        return Undefined;
      }
      var smallest, largest := order[0], order[|order| - 1];
      KeysSpanRange(timings, samples);
      OneRange(samples, smallest, largest);
      for i := 0 to |order|
        invariant smallest < largest ==> forall j :: 0 <= j < i ==> Position(order[j], smallest, largest) < p - 0.00005
      {
        if smallest < largest {
          var pct := Position(order[i], smallest, largest);
          TimeTest(p, pct);
          if IsEqual(pct, p, 0.00005) || pct > p {
            FirstInTime(timings, samples, i, p - 0.00005);
            return Key(order[i]);
          }
        }
      }
      if smallest < largest {
        LastPosition(smallest, largest);
      }
      return NotFound;
    }
  }

  lemma FirstFromMeans(samples: seq<int>, q: real, r: int, lo: int, hi: int)
    requires IsFirstFrom(samples, TimeAt(q, lo, hi), r)
    ensures var time := lo as real + q * (hi - lo) as real;
            && r in multiset(samples) && r as real >= time
            && forall v :: v in multiset(samples) && v < r ==> (v as real) < time
  {
  }

  lemma TimeTest(p: real, pct: real)
    ensures IsEqual(pct, p, 0.00005) || pct > p <==> pct >= p - 0.00005
  {
  }

  lemma LastPosition(lo: int, hi: int)
    requires lo < hi
    ensures Position(hi, lo, hi) == 1.0
  {
  }

  lemma OneRange(samples: seq<int>, lo: int, hi: int)
    requires IsRange(samples, lo, hi)
    ensures lo <= hi
    ensures forall a, b :: IsRange(samples, a, b) ==> a == lo && b == hi
  {
  }

  lemma {:induction false} FirstInTime(t: map<int, nat>, samples: seq<int>, i: nat, q: real)
    requires Histogram(t, samples) && i < |t.Keys|
    requires var order := Ascending(t.Keys);
             var lo, hi := order[0], order[|order| - 1];
             && lo < hi
             && (forall j :: 0 <= j < i ==> Position(order[j], lo, hi) < q)
             && Position(order[i], lo, hi) >= q
    ensures var order := Ascending(t.Keys); IsFirstFrom(samples, TimeAt(q, order[0], order[|order| - 1]), order[i])
    ensures q <= 1.0
  {
    hide Increasing;
    var order := Ascending(t.Keys);
    var lo, hi := order[0], order[|order| - 1];
    KeyIsSample(t, samples, i);
    KeysSpanRange(t, samples);
    PositionRange(order[i], lo, hi);
    PositionIff(order[i], lo, hi, q);
    hide Position, TimeAt;
    forall v | v in multiset(samples) && v < order[i] ensures (v as real) < TimeAt(q, lo, hi) {
      var j := SampleIsKey(t, samples, v);
      Compare(order, j, i);
      PositionIff(v, lo, hi, q);
    }
  }

  lemma PositionRange(v: int, lo: int, hi: int)
    requires lo < hi && lo <= v <= hi
    ensures 0.0 <= Position(v, lo, hi) <= 1.0
  {
    ShareOfCount(v - lo, hi - lo, 0.0);
    ShareOfCount(v - lo, hi - lo, 1.0);
  }
}
