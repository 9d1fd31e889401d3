/** The pool of overlapped objects: freed objects are handed out again before new ones are made. */
module OverlappedQueue {
  import opened Common

  type Object = nat

  datatype State = State(
    free: seq<Object>,
    used: seq<Object>,
    created: nat,             // objects made so far; they are numbered from 0
    backlog: nat,
    peak: nat,                // the most objects ever in use at once
    entered: seq<Object>,     // every object put on the free queue, in order
    left: seq<Object>)        // every object taken from it, in order

  datatype Event = Alloc | Free(obj: Object)

  function RemoveFirst(s: seq<Object>, x: Object): seq<Object> {
    if s == [] then [] else if s[0] == x then s[1..] else [s[0]] + RemoveFirst(s[1..], x)
  }

  function First(n: nat): (r: seq<Object>)
    ensures |r| == n && forall i :: 0 <= i < n ==> r[i] == i
  {
    seq(n, i => i)
  }

  function Start(backlog: nat): State {
    State(First(backlog), [], backlog, backlog, 0, First(backlog), [])
  }

  function Step(s: State, e: Event): State {
    match e
    case Alloc =>
      var t := if s.free != [] then s.(free := s.free[1..], used := s.used + [s.free[0]], left := s.left + [s.free[0]])
               else s.(used := s.used + [s.created], created := s.created + 1);
      t.(peak := Max(s.peak, |t.used|))
    case Free(x) => s.(used := RemoveFirst(s.used, x), free := s.free + [x], entered := s.entered + [x])
  }

  function Run(s: State, events: seq<Event>): State
    decreases |events|
  {
    if events == [] then s else Run(Step(s, events[0]), events[1..])
  }

  /** Only objects in use are freed. */
  predicate Lawful(s: State, events: seq<Event>)
    decreases |events|
  {
    events != [] ==> (events[0].Free? ==> events[0].obj in s.used) && Lawful(Step(s, events[0]), events[1..])
  }

  ghost predicate Distinct(s: seq<Object>) {
    forall i, j :: 0 <= i < j < |s| ==> s[i] != s[j]
  }

  /**
   Free and used objects are all the objects made, each once; there are as many as the backlog or the peak of use; and
   objects leave the free queue in the order in which they entered it.
   */
  ghost predicate Inv(s: State) {
    && Distinct(s.free) && Distinct(s.used)
    && (forall x :: x in s.free ==> x !in s.used && x < s.created)
    && (forall x :: x in s.used ==> x < s.created)
    && |s.free| + |s.used| == s.created == Max(s.backlog, s.peak)
    && s.entered == s.left + s.free
  }

  lemma {:induction false} RemovedMember(s: seq<Object>, x: Object)
    requires Distinct(s)
    ensures Distinct(RemoveFirst(s, x))
    ensures forall y :: y in RemoveFirst(s, x) <==> y in s && y != x
    ensures |RemoveFirst(s, x)| == if x in s then |s| - 1 else |s|
  {
    if s != [] {
      RemovedMember(s[1..], x);
      assert s == [s[0]] + s[1..];
      var h := s[0];
      assert h !in s[1..];
    }
  }

  lemma {:induction false} RemoveMiddle(a: seq<Object>, x: Object, b: seq<Object>)
    requires forall i :: 0 <= i < |a| ==> a[i] != x
    ensures RemoveFirst(a + ([x] + b), x) == a + b
  {
    if a == [] {
      assert a + ([x] + b) == [x] + b && a + b == b;
    } else {
      AppendToTail(a, [x] + b);
      RemoveMiddle(a[1..], x, b);
      Associate([a[0]], a[1..], b);
      assert [a[0]] + a[1..] == a;
    }
  }

  lemma {:induction false} RemoveNothing(s: seq<Object>, x: Object)
    requires forall i :: 0 <= i < |s| ==> s[i] != x
    ensures RemoveFirst(s, x) == s
  {
    if s != [] {
      RemoveNothing(s[1..], x);
      assert s == [s[0]] + s[1..];
    }
  }

  lemma RemoveFirstAt(s: seq<Object>, i: nat, x: Object)
    requires i <= |s| && (i < |s| ==> s[i] == x) && forall j :: 0 <= j < i ==> s[j] != x
    ensures RemoveFirst(s, x) == if i < |s| then s[..i] + s[i + 1..] else s
  {
    hide RemoveFirst;
    if i < |s| {
      assert s == s[..i] + ([x] + s[i + 1..]);
      RemoveMiddle(s[..i], x, s[i + 1..]);
    } else {
      RemoveNothing(s, x);
    }
  }

  lemma AllocInv(s: State)
    requires Inv(s)
    ensures Inv(Step(s, Alloc))
  {
    var r := Step(s, Alloc);
    if s.free != [] {
      var h := s.free[0];
      assert h in s.free && h !in s.used;
      assert s.free == [h] + s.free[1..];
      assert s.left + s.free == s.left + [h] + s.free[1..];
      assert forall i :: 0 < i < |s.free| ==> s.free[i] != h;
      forall x | x in r.free ensures x !in r.used && x < s.created {
        assert x in s.free && x != h;
      }
    } else {
      assert s.created !in s.used;
    }
  }

  lemma FreeInv(s: State, x: Object)
    requires Inv(s) && x in s.used
    ensures Inv(Step(s, Free(x)))
  {
    RemovedMember(s.used, x);
    assert s.left + s.free + [x] == s.left + (s.free + [x]);
  }

  /** Over any run that frees only what is in use, from any backlog. */
  lemma {:induction false} RunInv(s: State, events: seq<Event>)
    requires Inv(s) && Lawful(s, events)
    ensures Inv(Run(s, events)) && Run(s, events).backlog == s.backlog
    decreases |events|
  {
    if events != [] {
      if events[0] == Alloc {
        AllocInv(s);
      } else {
        FreeInv(s, events[0].obj);
      }
      hide Inv;
      RunInv(Step(s, events[0]), events[1..]);
    }
  }

  /** The pool never holds more objects than its backlog or the peak of use required. */
  lemma CreatedIsHighWaterMark(backlog: nat, events: seq<Event>)
    requires Lawful(Start(backlog), events)
    ensures var r := Run(Start(backlog), events);
            && r.created == |r.free| + |r.used| == Max(backlog, r.peak)
            && r.left <= r.entered && r.entered[|r.left|..] == r.free
  {
    RunInv(Start(backlog), events);
  }

  /** An object that is handed out is in use by nobody else: the oldest free one, or a new one if none is free. */
  lemma AllocGivesUnused(s: State, x: Object)
    requires Inv(s)
    ensures var u := Step(s, Alloc);
            u.used == s.used + [x] <==> x !in s.used && if s.free != [] then x == s.free[0] else x == s.created
  {
    if s.free != [] {
      var h := s.free[0];
      assert h in s.free;
    }
    assert (s.used + [x])[|s.used|] == x;
  }

  /** `peak` is the most objects in use at any moment of the run. */
  lemma {:induction false} PeakIsMost(s: State, events: seq<Event>)
    requires |s.used| <= s.peak
    ensures var r := Run(s, events);
            && s.peak <= r.peak
            && (forall k :: 0 <= k <= |events| ==> |Run(s, events[..k]).used| <= r.peak)
            && (r.peak == s.peak || exists k :: 0 <= k <= |events| && |Run(s, events[..k]).used| == r.peak)
    decreases |events|
  {
    hide Step;
    var r := Run(s, events);
    if events == [] {
      assert events[..0] == events;
    } else {
      var u, later := Step(s, events[0]), events[1..];
      StepPeak(s, events[0]);
      PeakIsMost(u, later);
      assert later[..0] == [] && Run(u, []) == u && u.peak <= r.peak;
      forall k | 0 <= k <= |events| ensures |Run(s, events[..k]).used| <= r.peak {
        if k > 0 {
          assert events[..k][1..] == later[..k - 1];
        } else {
          assert Run(s, events[..0]) == s;
        }
      }
      if r.peak != u.peak {
        var j :| 0 <= j <= |later| && |Run(u, later[..j]).used| == r.peak;
        assert events[..j + 1][1..] == later[..j];
        assert |Run(s, events[..j + 1]).used| == r.peak;
      } else if u.peak != s.peak {
        assert events[..1][1..] == [];
        assert Run(s, events[..1]) == u;
      }
    }
  }

  lemma StepPeak(s: State, e: Event)
    requires |s.used| <= s.peak
    ensures var u := Step(s, e);
            s.peak <= u.peak && |u.used| <= u.peak && (u.peak == s.peak || u.peak == |u.used|)
  {
    if e.Free? {
      RemovedLength(s.used, e.obj);
    }
  }

  lemma {:induction false} RemovedLength(s: seq<Object>, x: Object)
    ensures |RemoveFirst(s, x)| <= |s|
  {
    if s != [] {
      RemovedLength(s[1..], x);
    }
  }

  /**
   `free` keeps the pool in order just when the object is in use: a second free and a foreign object both break it.
   */
  lemma FreeKeepsInvIff(s: State, x: Object)
    requires Inv(s)
    ensures Inv(Step(s, Free(x))) <==> x in s.used
  {
    if x in s.used {
      FreeInv(s, x);
    } else {
      RemovedMember(s.used, x);
      var r := Step(s, Free(x));
      assert |r.free| + |r.used| == s.created + 1;
    }
  }

  function Allocs(n: nat): seq<Event> {
    if n == 0 then [] else [Alloc] + Allocs(n - 1)
  }

  lemma {:induction false} AllocsDrainQueue(s: State, n: nat)
    requires n <= |s.free|
    ensures Run(s, Allocs(n)).used == s.used + s.free[..n]
    decreases n
  {
    if n == 0 {
      assert s.used + s.free[..0] == s.used;
    } else {
      var t := Step(s, Alloc);
      assert t.free == s.free[1..] && t.used == s.used + [s.free[0]];
      assert Run(s, Allocs(n)) == Run(t, Allocs(n - 1)) by {
        assert Allocs(n)[1..] == Allocs(n - 1);
      }
      AllocsDrainQueue(t, n - 1);
      hide Step, Run, Allocs;
      assert [s.free[0]] + s.free[1..][..n - 1] == s.free[..n];
      Associate(s.used, [s.free[0]], s.free[1..][..n - 1]);
    }
  }

  /** Freeing twice hands one object out twice: once everything free is handed out again, it is in use at two places. */
  lemma DoubleFreeHandsOutTwice(s: State, x: Object)
    requires Inv(s) && x in s.used
    ensures var twice := Step(Step(s, Free(x)), Free(x));
            var used := Run(twice, Allocs(|twice.free|)).used;
            |used| >= 2 && used[|used| - 1] == x && used[|used| - 2] == x
  {
    var twice := Step(Step(s, Free(x)), Free(x));
    assert twice.free == s.free + [x] + [x];
    AllocsDrainQueue(twice, |twice.free|);
    assert twice.free[..|twice.free|] == twice.free;
  }

  class Queue {
    var free: seq<Object>
    var used: seq<Object>
    var created: nat
    ghost var backlog: nat
    ghost var peak: nat
    ghost var entered: seq<Object>
    ghost var left: seq<Object>

    ghost function Now(): State
      reads this
    {
      State(free, used, created, backlog, peak, entered, left)
    }

    constructor (backlog: nat)
      ensures Now() == Start(backlog)
    {
      this.backlog, peak, used, left := backlog, 0, [], [];
      free, entered, created := [], [], 0;
      new;
      for idx := 0 to backlog
        invariant free == entered == First(idx) && created == idx && used == left == []
        invariant peak == 0 && this.backlog == backlog
      {
        free, entered, created := free + [created], entered + [created], created + 1;
      }
    }

    method AllocObject() returns (obj: Object)
      modifies this
      ensures Now() == Step(old(Now()), Alloc) && obj == used[|used| - 1]
    {
      if |free| > 0 {
        obj := free[0];
        free, left := free[1..], left + [obj];
      } else {
        obj, created := created, created + 1;
      }
      used := used + [obj];
      peak := Max(peak, |used|);
    }

    method FreeObject(obj: Object)
      modifies this
      ensures Now() == Step(old(Now()), Free(obj))
    {
      var i := 0;
      while i < |used|
        invariant 0 <= i <= |used| && Now() == old(Now())
        invariant forall j :: 0 <= j < i ==> used[j] != obj
      {
        if used[i] == obj {
          break;
        }
        i := i + 1;
      }
      RemoveFirstAt(used, i, obj);
      if i < |used| {
        used := used[..i] + used[i + 1..];
      }
      free, entered := free + [obj], entered + [obj];
    }
  }
}
