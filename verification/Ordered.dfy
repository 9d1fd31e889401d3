/** Iteration order of `std::map`: the keys of a finite set of integers, smallest first. */
module Ordered {

  ghost predicate Increasing(s: seq<int>) {
    forall i, j :: 0 <= i < j < |s| ==> s[i] < s[j]
  }

  lemma Member<T>(s: set<T>) returns (y: T)
    requires s != {}
    ensures y in s
  {
    y :| y in s;
  }

  lemma {:induction false} LeastExists(s: set<int>)
    requires s != {}
    ensures exists m :: m in s && forall x :: x in s ==> m <= x
  {
    var y := Member(s);
    var t := s - {y};
    assert forall x :: x in s ==> x == y || x in t;
    if t != {} {
      LeastExists(t);
      var m :| m in t && forall x :: x in t ==> m <= x;
      var k := if m <= y then m else y;
      assert k in s;
    }
  }

  function Least(s: set<int>): (m: int)
    requires s != {}
    ensures m in s && forall x :: x in s ==> m <= x
  {
    LeastExists(s);
    var m :| m in s && forall x :: x in s ==> m <= x;
    m
  }

  /** The keys in the order in which a range-based `for` over a `std::map` visits them. */
  function Ascending(s: set<int>): (r: seq<int>)
    ensures |r| == |s|
    ensures Increasing(r)
    ensures forall x :: x in r <==> x in s
  {
    if s == {} then [] else
    var m := Least(s);
    [m] + Ascending(s - {m})
  }
}
