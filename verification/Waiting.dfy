/**
 The wait loops: a timeout that is cut down after every interruption by an I/O completion,
 and the list of handles from which null objects are left out.

 The operating system is an oracle that returns from each wait within the timeout it was given.
 */
module Waiting {
  import opened Common

  const MILLISECOND: nat := 1_000_000          // in nanoseconds
  const INT32_MAX: nat := 0x7FFF_FFFF
  const NULL_HANDLE: int := 0
  const WAIT_ABANDONED_0: nat := 0x80          // what the system adds to the position of an abandoned object

  datatype Error = Success | Failure | Closed | TimedOut

  /** How the last wait ends; the waits before it were interrupted by an I/O completion. */
  datatype Final = Signalled | Elapsed | Abandoned | Failed

  /** The conversion of a duration to milliseconds, which truncates toward zero. */
  function Milliseconds(ns: int): (ms: int)
    ensures ns >= 0 ==> ms >= 0 && ms * MILLISECOND <= ns < (ms + 1) * MILLISECOND
    ensures ns <= 0 ==> ms <= 0 && (ms - 1) * MILLISECOND < ns <= ms * MILLISECOND
  {
    if ns >= 0 then ns / MILLISECOND else -(-ns / MILLISECOND)
  }

  /** A timeout that the system can be given. */
  function Clamp(ms: int): (timeout: nat)
    ensures 0 <= ms <= INT32_MAX ==> timeout == ms
    ensures ms < 0 ==> timeout == 0
    ensures ms > INT32_MAX ==> timeout == INT32_MAX
  {
    if ms < 0 then 0 else if ms > INT32_MAX then INT32_MAX else ms
  }

  /** The timeout left after a wait that was interrupted after `spent` nanoseconds. */
  function Next(timeout: nat, spent: nat): nat {
    var t := timeout - Milliseconds(spent);
    if t <= 0 then 0 else t
  }

  /** The timeout of the wait that follows the given interrupted ones. */
  function Remaining(timeout: nat, completions: seq<nat>): nat
    decreases |completions|
  {
    if completions == [] then timeout else Remaining(Next(timeout, completions[0]), completions[1..])
  }

  /** Each wait, the last included, took no longer than the timeout it was given. */
  predicate Respected(timeout: nat, completions: seq<nat>, last: nat)
    decreases |completions|
  {
    if completions == [] then last <= timeout * MILLISECOND
    else completions[0] <= timeout * MILLISECOND && Respected(Next(timeout, completions[0]), completions[1..], last)
  }

  function Sum(s: seq<nat>): nat {
    if s == [] then 0 else s[0] + Sum(s[1..])
  }

  lemma {:induction false} RemainingInRange(timeout: nat, completions: seq<nat>)
    ensures 0 <= Remaining(timeout, completions) <= timeout
    decreases |completions|
  {
    if completions != [] {
      RemainingInRange(Next(timeout, completions[0]), completions[1..]);
    }
  }

  /** k interruptions lengthen a wait by less than k milliseconds, and a wait of 0 by nothing. */
  lemma {:induction false} WaitBound(timeout: nat, completions: seq<nat>, last: nat)
    requires Respected(timeout, completions, last)
    ensures Sum(completions) + last <= timeout * MILLISECOND + |completions| * (MILLISECOND - 1)
    ensures timeout == 0 ==> Sum(completions) + last == 0
    decreases |completions|
  {
    if completions != [] {
      var spent := completions[0];
      assert spent - spent / MILLISECOND * MILLISECOND <= MILLISECOND - 1;
      WaitBound(Next(timeout, spent), completions[1..], last);
    }
  }

  /** Interruptions never shorten a wait: whatever they took off the timeout has passed. */
  lemma {:induction false} NeverEndsEarly(timeout: nat, completions: seq<nat>)
    ensures Sum(completions) + Remaining(timeout, completions) * MILLISECOND >= timeout * MILLISECOND
    decreases |completions|
  {
    if completions != [] {
      var spent := completions[0];
      assert Next(timeout, spent) * MILLISECOND >= timeout * MILLISECOND - spent;
      NeverEndsEarly(Next(timeout, spent), completions[1..]);
    }
  }

  function Repeat(n: nat, k: nat): (s: seq<nat>)
    ensures |s| == k
  {
    if k == 0 then [] else [n] + Repeat(n, k - 1)
  }

  /** The bound is reached for every positive timeout and every number of interruptions. */
  lemma {:induction false} WaitBoundAttained(timeout: nat, k: nat)
    requires timeout > 0
    ensures var completions, last := Repeat(MILLISECOND - 1, k), timeout * MILLISECOND;
            && Respected(timeout, completions, last)
            && Sum(completions) + last == timeout * MILLISECOND + k * (MILLISECOND - 1)
  {
    if k > 0 {
      WaitBoundAttained(timeout, k - 1);
      var completions := Repeat(MILLISECOND - 1, k);
      assert completions[1..] == Repeat(MILLISECOND - 1, k - 1);
      assert Next(timeout, MILLISECOND - 1) == timeout;
    }
  }

  /** However a wait with k interruptions goes, it ends within its timeout. */
  ghost predicate KeepsTimeout(timeout: nat, k: nat) {
    forall completions, last :: |completions| == k && Respected(timeout, completions, last) ==>
      Sum(completions) + last <= timeout * MILLISECOND
  }

  /** A wait is sure to end within its timeout just when the timeout is 0 or nothing interrupts it. */
  lemma KeepsTimeoutIff(timeout: nat, k: nat)
    ensures KeepsTimeout(timeout, k) <==> timeout == 0 || k == 0
  {
    if timeout == 0 || k == 0 {
      forall completions, last | |completions| == k && Respected(timeout, completions, last)
        ensures Sum(completions) + last <= timeout * MILLISECOND
      {
        WaitBound(timeout, completions, last);
      }
    } else {
      WaitBoundAttained(timeout, k);
      var completions: seq<nat>, last: nat := Repeat(MILLISECOND - 1, k), timeout * MILLISECOND;
      assert k * (MILLISECOND - 1) > 0;
      assert |completions| == k && Respected(timeout, completions, last);
      assert Sum(completions) + last > timeout * MILLISECOND;
    }
  }

  function Report(final: Final): (err: Error)
    ensures (err == Success <==> final == Signalled) && (err == TimedOut <==> final == Elapsed)
    ensures (err == Closed <==> final == Abandoned) && (err == Failure <==> final == Failed)
  {
    match final
    case Signalled => Success
    case Elapsed => TimedOut
    case Abandoned => Closed
    case Failed => Failure
  }

  lemma {:induction false} RemainingAfterOneMore(timeout: nat, completions: seq<nat>, i: nat)
    requires i < |completions|
    ensures Remaining(timeout, completions[..i + 1]) == Next(Remaining(timeout, completions[..i]), completions[i])
    decreases i
  {
    var head := completions[..i + 1];
    if i == 0 {
      assert head == [completions[0]] && completions[..0] == [];
    } else {
      RemainingAfterOneMore(Next(timeout, completions[0]), completions[1..], i - 1);
      assert head[1..] == completions[1..][..i];
      assert completions[..i][1..] == completions[1..][..i - 1];
    }
  }

  /**
   The loop shared by the three waits. The code after it is never reached: the guard holds at every test.
   `asked` are the timeouts passed to the system, `spent` is the time taken in all. If the last wait took its
   whole timeout, so did all of them together.
   */
  method WaitLoop(duration: int, completions: seq<nat>, final: Final, last: nat)
    returns (err: Error, asked: seq<nat>, spent: nat)
    requires Respected(Clamp(Milliseconds(duration)), completions, last)
    ensures (err == Success <==> final == Signalled) && (err == TimedOut <==> final == Elapsed)
    ensures (err == Closed <==> final == Abandoned) && (err == Failure <==> final == Failed)
    ensures |asked| == |completions| + 1
    ensures asked[0] == if duration < 0 then 0 else Min(duration / MILLISECOND, INT32_MAX)
    ensures forall i :: 0 <= i < |completions| ==> asked[i + 1] == Max(0, asked[i] - completions[i] / MILLISECOND)
    ensures forall i :: 0 <= i <= |completions| ==> asked[i] <= INT32_MAX
    ensures spent == Sum(completions) + last
    ensures spent <= Clamp(Milliseconds(duration)) * MILLISECOND + |completions| * (MILLISECOND - 1)
    ensures last == asked[|completions|] * MILLISECOND ==> spent >= Clamp(Milliseconds(duration)) * MILLISECOND
    ensures duration < MILLISECOND ==> spent == 0
  {
    var timeout := Milliseconds(duration);
    if timeout < 0 {
      timeout := 0;
    } else if timeout > INT32_MAX {
      timeout := INT32_MAX;
    }
    WaitBound(timeout, completions, last);
    NeverEndsEarly(timeout, completions);
    err, asked, spent := RepeatWait(timeout, completions, final, last);
    CutDownMeans(asked, completions);
  }

  /** The `do` loop of the waits, from a timeout that the system can be given. */
  method RepeatWait(start: nat, completions: seq<nat>, final: Final, last: nat)
    returns (err: Error, asked: seq<nat>, spent: nat)
    requires start <= INT32_MAX
    ensures err == Report(final)
    ensures CutDown(asked, completions, |completions|)
    ensures asked[0] == start && asked[|completions|] == Remaining(start, completions)
    ensures spent == Sum(completions) + last
  {
    hide Remaining, CutDown, Sum, Next, Respected, Milliseconds, Report;
    var timeout: int, i := start, 0;
    spent, asked := 0, [];
    CutDownFirst(start, completions);
    assert completions[0..] == completions && [] + [timeout] == [timeout];
    while timeout >= 0
      invariant 0 <= i <= |completions| && 0 <= timeout <= INT32_MAX
      invariant |asked| == i && timeout == Remaining(start, completions[..i])
      invariant CutDown(asked + [timeout], completions, i) && (asked + [timeout])[0] == start
      invariant spent + Sum(completions[i..]) == Sum(completions)
      decreases |completions| - i
    {
      asked := asked + [timeout];
      Interruptions(completions, i);
      if i == |completions| {
        return Report(final), asked, spent + last;
      }
      RemainingAfterOneMore(start, completions, i);
      NextTimeout(timeout, completions[i]);
      CutDownOneMore(asked, completions, i, timeout);
      spent := spent + completions[i];
      timeout := timeout - Milliseconds(completions[i]);
      if timeout <= 0 {
        timeout := 0;
      }
      i := i + 1;
    }
    assert false;
  }

  /** The first timeout, and after each interruption what is left of the one before. */
  ghost predicate CutDown(all: seq<int>, completions: seq<nat>, i: nat) {
    && i <= |completions| && |all| == i + 1
    && (forall j :: 0 <= j < i ==> all[j + 1] == Max(0, all[j] - completions[j] / MILLISECOND))
    && forall j :: 0 <= j <= i ==> 0 <= all[j] <= INT32_MAX
  }

  lemma CutDownFirst(start: nat, completions: seq<nat>)
    requires start <= INT32_MAX
    ensures CutDown([start], completions, 0) && Remaining(start, completions[..0]) == start
  {
  }

  lemma CutDownOneMore(all: seq<int>, completions: seq<nat>, i: nat, last: int)
    requires CutDown(all, completions, i) && i < |completions| && |all| == i + 1 && all[i] == last
    ensures var more := all + [Max(0, last - completions[i] / MILLISECOND)];
            CutDown(more, completions, i + 1) && more[0] == all[0]
  {
  }

  lemma CutDownMeans(all: seq<int>, completions: seq<nat>)
    requires CutDown(all, completions, |completions|)
    ensures |all| == |completions| + 1
    ensures forall j :: 0 <= j < |completions| ==> all[j + 1] == Max(0, all[j] - completions[j] / MILLISECOND)
    ensures forall j :: 0 <= j <= |completions| ==> 0 <= all[j] <= INT32_MAX
  {
  }

  lemma NextTimeout(timeout: nat, spent: nat)
    ensures Milliseconds(spent) == spent / MILLISECOND
    ensures Next(timeout, spent) == Max(0, timeout - spent / MILLISECOND)
  {
  }

  lemma Interruptions(completions: seq<nat>, i: nat)
    requires i <= |completions|
    ensures i < |completions| ==> Sum(completions[i..]) == completions[i] + Sum(completions[i + 1..])
    ensures i == |completions| ==> Sum(completions[i..]) == 0 && completions[..i] == completions
  {
    if i < |completions| {
      assert completions[i..][1..] == completions[i + 1..];
    }
  }

  // ---- Leaving out null objects --------------------------------------------------------------

  type Objects = seq<Option<int>>       // the handle of each object, or none for a null pointer

  /** The positions of the objects that are not null. */
  function Present(objs: Objects): (r: seq<nat>)
    ensures |r| <= |objs|
    ensures forall k :: 0 <= k < |r| ==> r[k] < |objs| && objs[r[k]].Some?
    ensures forall j, k :: 0 <= j < k < |r| ==> r[j] < r[k]
  {
    if objs == [] then [] else
    var n := |objs| - 1;
    Present(objs[..n]) + if objs[n].Some? then [n] else []
  }

  ghost predicate NoNull(objs: Objects) {
    forall i :: 0 <= i < |objs| ==> objs[i].Some?
  }

  lemma {:induction false} EveryObjectPresent(objs: Objects, idx: nat) returns (k: nat)
    requires idx < |objs| && objs[idx].Some?
    ensures k < |Present(objs)| && Present(objs)[k] == idx
  {
    var n := |objs| - 1;
    if idx == n {
      k := |Present(objs)| - 1;
    } else {
      k := EveryObjectPresent(objs[..n], idx);
    }
  }

  lemma {:induction false} AllPresentIff(objs: Objects)
    ensures |Present(objs)| == |objs| <==> NoNull(objs)
    ensures |Present(objs)| == |objs| ==> forall i :: 0 <= i < |objs| ==> Present(objs)[i] == i
  {
    if objs != [] {
      var n := |objs| - 1;
      AllPresentIff(objs[..n]);
      if objs[n] == None {
        assert !NoNull(objs);
      }
    }
  }

  lemma PresentNone()
    ensures Present([]) == []
  {
  }

  lemma PresentOneMore(objs: Objects, idx: nat)
    requires idx < |objs|
    ensures Present(objs[..idx + 1]) == Present(objs[..idx]) + if objs[idx].Some? then [idx] else []
  {
    assert objs[..idx + 1][..idx] == objs[..idx];
  }

  /** Rebuilds the list of handles and their positions; the arrays keep their full length. */
  method Translate(objs: Objects) returns (handles: array<int>, indexes: array<nat>, valid: nat)
    ensures fresh(handles) && fresh(indexes) && handles.Length == indexes.Length == |objs|
    ensures valid == |Present(objs)| && indexes[..valid] == Present(objs)
    ensures forall k :: 0 <= k < valid ==> handles[k] == objs[indexes[k]].value
    ensures forall k :: valid <= k < |objs| ==> handles[k] == NULL_HANDLE && indexes[k] == 0
  {
    hide Present;
    PresentNone();
    handles := new int[|objs|](_ => NULL_HANDLE);
    indexes := new nat[|objs|](_ => 0);
    valid := 0;
    for idx := 0 to |objs|
      invariant valid == |Present(objs[..idx])| && indexes[..valid] == Present(objs[..idx])
      invariant forall k :: 0 <= k < valid ==> handles[k] == objs[indexes[k]].value
      invariant forall k :: valid <= k < |objs| ==> handles[k] == NULL_HANDLE && indexes[k] == 0
    {
      PresentOneMore(objs, idx);
      if objs[idx].Some? {
        handles[valid] := objs[idx].value;
        indexes[valid] := idx;
        valid := valid + 1;
      }
    }
    assert objs[..|objs|] == objs;
  }

  /** Every object is there and has a handle. */
  predicate Complete(objs: Objects) {
    forall i :: 0 <= i < |objs| ==> objs[i].Some? && objs[i].value != NULL_HANDLE
  }

  /** Each object is notified exactly once, and no null pointer is. */
  ghost predicate NotifiedOnce(objs: Objects, notified: seq<nat>) {
    && (forall i: nat :: i < |objs| && objs[i].Some? ==> multiset(notified)[i] == 1)
    && forall k :: 0 <= k < |notified| ==> notified[k] < |objs| && objs[notified[k]].Some?
  }

  /**
   The wait for all. The list passed to the system has the length of the original one, so it ends in
   null handles if an object is null; the system rejects a list that holds a null handle.
   A wait therefore fails at once unless every object is there, and whenever it notifies,
   it notifies each object exactly once.
   */
  method WaitAll(objs: Objects, duration: int, completions: seq<nat>, final: Final, last: nat)
    returns (err: Error, notified: seq<nat>)
    requires 0 < |objs| <= MAXIMUM_WAIT_OBJECTS
    requires Respected(Clamp(Milliseconds(duration)), completions, last)
    ensures !Complete(objs) ==> err == Failure && notified == []
    ensures Complete(objs) ==>
      && (err == Success <==> final == Signalled) && (err == TimedOut <==> final == Elapsed)
      && (err == Closed <==> final == Abandoned) && (err == Failure <==> final == Failed)
      && (final == Signalled || final == Abandoned ==> NotifiedOnce(objs, notified))
      && (final == Elapsed || final == Failed ==> notified == [])
  {
    var handles, indexes, valid := Translate(objs);
    notified := [];
    RejectedIff(objs, handles[..]);
    if exists k :: 0 <= k < handles.Length && handles[..][k] == NULL_HANDLE {
      return Failure, [];
    }
    var asked, spent;
    err, asked, spent := WaitLoop(duration, completions, final, last);
    if err == Success || err == Closed {
      for k := 0 to indexes.Length
        invariant notified == indexes[..k]
      {
        notified := notified + [indexes[k]];
      }
      AllPresentIff(objs);
      assert notified == indexes[..valid];
      PresentNotifiedOnce(objs);
    }
  }

  /**
   The wait for any. It fails at once on the same lists as the wait for all, so the index list is the identity
   whenever an object is signalled: the caller gets the position of the object whose handle the system reports,
   and just this object is notified. `at` is the place the code looks up in the index list. For an abandoned
   object, which no event is, it lies beyond the list.
   */
  method WaitAny(objs: Objects, duration: int, completions: seq<nat>, final: Final, last: nat, result: nat)
    returns (err: Error, at: nat, index: nat, notified: seq<nat>)
    requires 0 < |objs| <= MAXIMUM_WAIT_OBJECTS && result < |objs|
    requires Respected(Clamp(Milliseconds(duration)), completions, last)
    ensures !Complete(objs) ==> err == Failure && notified == []
    ensures Complete(objs) ==>
      && (err == Success <==> final == Signalled) && (err == TimedOut <==> final == Elapsed)
      && (err == Closed <==> final == Abandoned) && (err == Failure <==> final == Failed)
      && (final == Signalled ==> at == result && index == result && objs[index].Some? && notified == [result])
      && (final == Abandoned ==> at >= |objs|)
      && (final == Elapsed || final == Failed ==> notified == [])
  {
    var handles, indexes, valid := Translate(objs);
    at, index, notified := 0, 0, [];
    RejectedIff(objs, handles[..]);
    AllPresentIff(objs);
    if exists k :: 0 <= k < handles.Length && handles[..][k] == NULL_HANDLE {
      return Failure, at, index, notified;
    }
    var asked, spent;
    err, asked, spent := WaitLoop(duration, completions, final, last);
    if err == Success {
      at := result;
      assert indexes[..valid][at] == indexes[at];
      index := indexes[at];
      notified := [index];
    } else if err == Closed {
      at := result + WAIT_ABANDONED_0;
    }
  }

  /** The system finds a null handle in the list just when an object is null or has none. */
  lemma RejectedIff(objs: Objects, handles: seq<int>)
    requires |handles| == |objs|
    requires forall k :: 0 <= k < |Present(objs)| ==> handles[k] == objs[Present(objs)[k]].value
    requires forall k :: |Present(objs)| <= k < |objs| ==> handles[k] == NULL_HANDLE
    ensures (exists k :: 0 <= k < |handles| && handles[k] == NULL_HANDLE) <==> !Complete(objs)
  {
    AllPresentIff(objs);
    if |Present(objs)| < |objs| {
      assert handles[|Present(objs)|] == NULL_HANDLE;
    } else {
      forall k | 0 <= k < |objs| ensures handles[k] == objs[k].value {
        assert handles[k] == objs[Present(objs)[k]].value;
      }
    }
  }

  lemma PresentNotifiedOnce(objs: Objects)
    requires |Present(objs)| == |objs|
    ensures NotifiedOnce(objs, Present(objs))
  {
    AllPresentIff(objs);
    var notified := Present(objs);
    OnceInIncreasing(notified);
    hide Present;
    assert forall i: nat :: i < |objs| ==> notified[i] == i;
  }

  lemma OnceInIncreasing(s: seq<nat>)
    requires forall j, k :: 0 <= j < k < |s| ==> s[j] < s[k]
    ensures forall i: nat :: i < |s| ==> multiset(s)[s[i]] == 1
  {
    forall i: nat | i < |s| ensures multiset(s)[s[i]] == 1 {
      var a, b := s[..i], s[i + 1..];
      var c := a + [s[i]];
      assert s == c + b;
      assert multiset(s) == multiset(a) + multiset{s[i]} + multiset(b);
      assert s[i] !in a && s[i] !in b;
    }
  }
}
