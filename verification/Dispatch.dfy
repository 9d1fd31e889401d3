/** Least-loaded dispatch: the choice made by `pool::push` and what it does to the queue lengths. */
module Dispatch {
  import opened Common
  import opened Masks

  /** The first of the least loaded eligible queues; a queue of SIZE_MAX tasks is never chosen. */
  function Choose(loads: seq<nat>, ok: seq<bool>): (r: Option<nat>)
    requires |loads| == |ok|
    ensures r == None <==> forall i :: 0 <= i < |loads| && ok[i] ==> loads[i] >= SIZE_MAX
    ensures r.Some? ==> r.value < |loads| && ok[r.value] && loads[r.value] < SIZE_MAX
    ensures r.Some? ==> forall i :: 0 <= i < |loads| && ok[i] ==> loads[r.value] <= loads[i]
    ensures r.Some? ==> forall i :: 0 <= i < r.value && ok[i] ==> loads[r.value] < loads[i]
  {
    if loads == [] then None else
    var n := |loads| - 1;
    var r := Choose(loads[..n], ok[..n]);
    if ok[n] && loads[n] < (if r == None then SIZE_MAX else loads[r.value]) then Some(n) else r
  }

  /** How the choice changes when one more queue is looked at. */
  lemma ChooseAmongMore(loads: seq<nat>, ok: seq<bool>, n: nat)
    requires |loads| == |ok| && n < |loads|
    ensures var r := Choose(loads[..n], ok[..n]);
            Choose(loads[..n + 1], ok[..n + 1]) ==
            if ok[n] && loads[n] < (if r == None then SIZE_MAX else loads[r.value]) then Some(n) else r
  {
    assert loads[..n + 1][..n] == loads[..n] && ok[..n + 1][..n] == ok[..n];
  }

  /** The queue lengths after k pushes that find the same queues eligible. */
  function Greedy(loads: seq<nat>, ok: seq<bool>, k: nat): (r: seq<nat>)
    requires |loads| == |ok|
    ensures |r| == |loads|
    decreases k
  {
    if k == 0 then loads else
    match Choose(loads, ok)
    case None => loads
    case Some(i) => Greedy(loads[i := loads[i] + 1], ok, k - 1)
  }

  /** One push, then the others; a push that finds no queue changes nothing. */
  lemma {:induction false} GreedyUnfolds(loads: seq<nat>, ok: seq<bool>, k: nat)
    requires |loads| == |ok|
    ensures Greedy(loads, ok, 0) == loads
    ensures k > 0 ==> Greedy(loads, ok, k) == Greedy(OneMore(loads, ok), ok, k - 1)
  {
    if k > 1 && Choose(loads, ok) == None {
      GreedyUnfolds(loads, ok, k - 1);
    }
  }

  /** The queue lengths after one push. */
  function OneMore(loads: seq<nat>, ok: seq<bool>): (r: seq<nat>)
    requires |loads| == |ok|
    ensures |r| == |loads|
  {
    match Choose(loads, ok) case None => loads case Some(i) => loads[i := loads[i] + 1]
  }

  ghost predicate Eligible(choices: seq<nat>, ok: seq<bool>) {
    forall i :: 0 <= i < |choices| ==> choices[i] < |ok| && ok[choices[i]]
  }

  /** The queue lengths after placing one task on each of the given queues. */
  function Place(loads: seq<nat>, choices: seq<nat>): (r: seq<nat>)
    requires forall i :: 0 <= i < |choices| ==> choices[i] < |loads|
    ensures |r| == |loads|
    decreases |choices|
  {
    if choices == [] then loads
    else Place(loads[choices[0] := loads[choices[0]] + 1], choices[1..])
  }

  /** The number of tasks in eligible queues. */
  function Total(loads: seq<nat>, ok: seq<bool>): nat
    requires |loads| == |ok|
  {
    if loads == [] then 0 else (if ok[0] then loads[0] else 0) + Total(loads[1..], ok[1..])
  }

  function Workers(ok: seq<bool>): nat {
    if ok == [] then 0 else (if ok[0] then 1 else 0) + Workers(ok[1..])
  }

  lemma {:induction false} TotalOfOneMore(loads: seq<nat>, ok: seq<bool>, i: nat)
    requires |loads| == |ok| && i < |ok| && ok[i]
    ensures Total(loads[i := loads[i] + 1], ok) == Total(loads, ok) + 1
  {
    var more := loads[i := loads[i] + 1];
    if i == 0 {
      assert more[1..] == loads[1..];
    } else {
      TotalOfOneMore(loads[1..], ok[1..], i - 1);
      assert more[1..] == loads[1..][i - 1 := loads[i] + 1];
    }
  }

  lemma {:induction false} TotalMonotone(a: seq<nat>, b: seq<nat>, ok: seq<bool>)
    requires |a| == |b| == |ok|
    requires forall i :: 0 <= i < |ok| && ok[i] ==> a[i] <= b[i]
    ensures Total(a, ok) <= Total(b, ok)
    ensures (exists i :: 0 <= i < |ok| && ok[i] && a[i] < b[i]) ==> Total(a, ok) < Total(b, ok)
  {
    if a != [] {
      TotalMonotone(a[1..], b[1..], ok[1..]);
      if i :| 0 <= i < |ok| && ok[i] && a[i] < b[i] {
        if i > 0 {
          assert ok[1..][i - 1] && a[1..][i - 1] < b[1..][i - 1];
        }
      }
    }
  }

  /** Every queue that grew beyond its base is at most one longer than any eligible queue. */
  ghost predicate Level(base: seq<nat>, loads: seq<nat>, ok: seq<bool>) {
    && |base| == |loads| == |ok|
    && (forall j :: 0 <= j < |ok| ==> base[j] <= loads[j])
    && forall i, j :: 0 <= i < |ok| && 0 <= j < |ok| && ok[i] && ok[j] ==>
         loads[j] == base[j] || loads[j] <= loads[i] + 1
  }

  lemma ChooseLevels(base: seq<nat>, loads: seq<nat>, ok: seq<bool>, c: nat)
    requires Level(base, loads, ok) && Choose(loads, ok) == Some(c)
    ensures Level(base, loads[c := loads[c] + 1], ok)
  {
    var more := loads[c := loads[c] + 1];
    forall i, j | 0 <= i < |ok| && 0 <= j < |ok| && ok[i] && ok[j]
      ensures more[j] == base[j] || more[j] <= more[i] + 1
    {
      assert loads[c] <= loads[i] && (loads[j] == base[j] || loads[j] <= loads[i] + 1);
    }
  }

  lemma {:induction false} GreedyTotals(loads: seq<nat>, ok: seq<bool>, k: nat, e: nat)
    requires |loads| == |ok| && e < |ok| && ok[e]
    requires forall i :: 0 <= i < |ok| ==> loads[i] + k <= SIZE_MAX
    ensures Total(Greedy(loads, ok, k), ok) == Total(loads, ok) + k
    decreases k
  {
    hide Choose, Total;
    if k > 0 {
      assert ok[e] && loads[e] < SIZE_MAX;
      var c := Choose(loads, ok).value;
      var more := loads[c := loads[c] + 1];
      assert Greedy(loads, ok, k) == Greedy(more, ok, k - 1);
      TotalOfOneMore(loads, ok, c);
      GreedyTotals(more, ok, k - 1, e);
    }
  }

  lemma {:induction false} GreedyLevels(base: seq<nat>, loads: seq<nat>, ok: seq<bool>, k: nat)
    requires |loads| == |ok| && Level(base, loads, ok)
    ensures Level(base, Greedy(loads, ok, k), ok)
    decreases k
  {
    hide Level;
    if k > 0 && Choose(loads, ok).Some? {
      var c := Choose(loads, ok).value;
      ChooseLevels(base, loads, ok, c);
      GreedyLevels(base, loads[c := loads[c] + 1], ok, k - 1);
    }
  }

  lemma {:induction false} PlaceTotals(loads: seq<nat>, choices: seq<nat>, ok: seq<bool>)
    requires |loads| == |ok| && Eligible(choices, ok)
    ensures Total(Place(loads, choices), ok) == Total(loads, ok) + |choices|
    ensures forall i :: 0 <= i < |loads| ==> loads[i] <= Place(loads, choices)[i]
    decreases |choices|
  {
    if choices != [] {
      var c := choices[0];
      TotalOfOneMore(loads, ok, c);
      PlaceTotals(loads[c := loads[c] + 1], choices[1..], ok);
    }
  }

  /** A placement adds to each queue the tasks placed on it, and nothing else. */
  lemma {:induction false} PlaceCounts(loads: seq<nat>, choices: seq<nat>, j: nat)
    requires j < |loads| && forall i :: 0 <= i < |choices| ==> choices[i] < |loads|
    ensures Place(loads, choices)[j] == loads[j] + multiset(choices)[j]
    decreases |choices|
  {
    if choices != [] {
      var c := choices[0];
      PlaceCounts(loads[c := loads[c] + 1], choices[1..], j);
      assert choices == [c] + choices[1..];
    }
  }

  /**
   Least-loaded dispatch is optimal: whatever bound another placement of the same tasks keeps on the eligible queues,
   dispatch keeps too.
   */
  lemma {:induction false} DispatchIsOptimal(loads: seq<nat>, ok: seq<bool>, choices: seq<nat>, bound: nat)
    requires |loads| == |ok| && Eligible(choices, ok)
    requires forall i :: 0 <= i < |ok| ==> loads[i] + |choices| <= SIZE_MAX
    requires forall i :: 0 <= i < |ok| && ok[i] ==> Place(loads, choices)[i] <= bound
    ensures forall i :: 0 <= i < |ok| && ok[i] ==> Greedy(loads, ok, |choices|)[i] <= bound
  {
    if choices != [] {
      assert ok[choices[0]];
      var g, p := Greedy(loads, ok, |choices|), Place(loads, choices);
      GreedyLevels(loads, loads, ok, |choices|);
      GreedyTotals(loads, ok, |choices|, choices[0]);
      PlaceTotals(loads, choices, ok);
      if j :| 0 <= j < |ok| && ok[j] && g[j] > bound {
        assert p[j] < g[j];
        TotalMonotone(p, g, ok);
      }
    }
  }

  lemma {:induction false} TotalBetween(loads: seq<nat>, ok: seq<bool>, lo: int, hi: int)
    requires |loads| == |ok|
    requires forall i :: 0 <= i < |ok| && ok[i] ==> lo <= loads[i] <= hi
    ensures Workers(ok) * lo <= Total(loads, ok) <= Workers(ok) * hi
  {
    if loads != [] {
      TotalBetween(loads[1..], ok[1..], lo, hi);
      var n := Workers(ok[1..]);
      assert (n + 1) * lo == n * lo + lo && (n + 1) * hi == n * hi + hi;
    }
  }

  lemma {:induction false} ZeroTotal(loads: seq<nat>, ok: seq<bool>)
    requires |loads| == |ok| && forall i :: 0 <= i < |loads| ==> loads[i] == 0
    ensures Total(loads, ok) == 0
  {
    if loads != [] {
      ZeroTotal(loads[1..], ok[1..]);
    }
  }

  lemma {:induction false} SomeWorker(ok: seq<bool>, i: nat)
    requires i < |ok| && ok[i]
    ensures Workers(ok) > 0
  {
    if i > 0 {
      SomeWorker(ok[1..], i - 1);
    }
  }

  lemma FairUpper(g: seq<nat>, ok: seq<bool>, i: nat)
    requires |g| == |ok| && i < |ok| && ok[i]
    requires forall j :: 0 <= j < |ok| && ok[j] ==> g[j] <= g[i] + 1
    ensures Workers(ok) * (g[i] + 1) > Total(g, ok)
  {
    TotalOfOneMore(g, ok, i);
    TotalBetween(g[i := g[i] + 1], ok, 0, g[i] + 1);
  }

  lemma FairLower(g: seq<nat>, ok: seq<bool>, i: nat)
    requires |g| == |ok| && i < |ok| && ok[i] && g[i] > 0
    requires forall j :: 0 <= j < |ok| && ok[j] ==> g[i] <= g[j] + 1
    ensures Workers(ok) * (g[i] - 1) < Total(g, ok)
  {
    var under := g[i := g[i] - 1];
    TotalOfOneMore(under, ok, i);
    assert under[i := under[i] + 1] == g;
    hide Workers, Total;
    LowerTotal(under, ok, g[i] - 1);
  }

  lemma {:induction false} LowerTotal(loads: seq<nat>, ok: seq<bool>, lo: int)
    requires |loads| == |ok|
    requires forall i :: 0 <= i < |ok| && ok[i] ==> lo <= loads[i]
    ensures Workers(ok) * lo <= Total(loads, ok)
  {
    if loads != [] {
      LowerTotal(loads[1..], ok[1..], lo);
      var n := Workers(ok[1..]);
      assert (n + 1) * lo == n * lo + lo;
    }
  }

  lemma FlatBase(base: seq<nat>, g: seq<nat>, ok: seq<bool>, i: nat)
    requires |g| == |ok| && Level(base, g, ok) && i < |ok| && ok[i]
    requires forall j :: 0 <= j < |base| ==> base[j] == 0
    ensures forall j :: 0 <= j < |ok| && ok[j] ==> g[j] <= g[i] + 1 && g[i] <= g[j] + 1
  {
  }

  lemma FairBounds(g: seq<nat>, ok: seq<bool>, i: nat)
    requires |g| == |ok| && i < |ok| && ok[i] && Workers(ok) > 0
    requires forall j :: 0 <= j < |ok| && ok[j] ==> g[j] <= g[i] + 1 && g[i] <= g[j] + 1
    ensures var n, k := Workers(ok), Total(g, ok); k / n <= g[i] <= (k + n - 1) / n
  {
    hide Total, Workers;
    FairUpper(g, ok, i);
    DivideUpper(Total(g, ok), Workers(ok), g[i]);
    if g[i] > 0 {
      FairLower(g, ok, i);
      DivideLower(Total(g, ok), Workers(ok), g[i]);
    }
  }

  /** From empty queues, k pushes over n eligible queues leave floor(k/n) or ceil(k/n) tasks in each. */
  lemma {:induction false} DispatchIsFair(loads: seq<nat>, ok: seq<bool>, k: nat, i: nat)
    requires |loads| == |ok| && i < |ok| && ok[i] && k <= SIZE_MAX
    requires forall j :: 0 <= j < |loads| ==> loads[j] == 0
    ensures Workers(ok) > 0
    ensures var n := Workers(ok); k / n <= Greedy(loads, ok, k)[i] <= (k + n - 1) / n
  {
    assert Level(loads, loads, ok);
    hide Greedy, Total, Workers, Level;
    SomeWorker(ok, i);
    ZeroTotal(loads, ok);
    GreedyLevels(loads, loads, ok, k);
    GreedyTotals(loads, ok, k, i);
    var g := Greedy(loads, ok, k);
    FlatBase(loads, g, ok, i);
    FairBounds(g, ok, i);
  }

  lemma {:induction false} DivideUpper(k: nat, n: nat, x: nat)
    requires n > 0 && n * (x + 1) > k
    ensures k / n <= x
  {
    var q := k / n;
    assert n * q <= k;
    Cancel(n, q, x + 1);
  }

  lemma {:induction false} DivideLower(k: nat, n: nat, x: nat)
    requires n > 0 && x > 0 && n * (x - 1) < k
    ensures x <= (k + n - 1) / n
  {
    var q := (k + n - 1) / n;
    assert n * q + n > k + n - 1;
    Cancel(n, x - 1, q);
  }

  lemma Cancel(n: nat, a: int, b: int)
    requires n * a < n * b
    ensures a < b
  {
    assert n * (b - a) > 0;
  }
}
