/**
 The life of the server's pipe handles: waiting for a client, pending acceptance, active, and
 back to waiting or closed.

 The operating system and the application are oracles: which handle connects, what
 ConnectNamedPipe and CreateNamedPipe answer, which clients are accepted and which sockets
 have expired or gone bad. A new handle differs from every earlier one.
 */
module Server {
  import opened Common
  import opened Ordered

  const BACKLOG: nat := 8

  type Handle = int

  datatype ConnectResult = Started | AlreadyConnected | Refused

  datatype Signal = Nothing | Connected(handle: Handle)

  /** The oracles' answers during one pass of the watcher loop. */
  datatype Tick = Tick(
    first: Signal,                      // what the wait of 0 ms finds
    second: Signal,                     // what the wait of 1 ms finds
    connect: Handle -> ConnectResult,
    hooked: bool,                       // on_accept has a listener
    accepts: Handle -> bool,
    creates: Handle -> bool,            // a new pipe can be made once this client is accepted
    gone: Handle -> bool)               // the socket expired or is no longer good

  datatype State = State(
    maxClients: nat,
    sockets: seq<Handle>,
    waiting: seq<Handle>,
    pending: seq<Handle>,
    active: set<Handle>,                // the keys of active_sockets
    ovmap: set<Handle>,                 // the keys of the watcher's map of connects in progress
    closed: seq<Handle>,                // handles closed since `create`
    next: Handle)                       // the next handle the system gives out

  // ---- Lists ---------------------------------------------------------------------------

  /** What `std::list::remove` leaves when called with each of `gone`. */
  function Without(s: seq<Handle>, gone: set<Handle>): seq<Handle> {
    if s == [] then [] else (if s[0] in gone then [] else [s[0]]) + Without(s[1..], gone)
  }

  function Only(s: seq<Handle>, keep: set<Handle>): seq<Handle> {
    if s == [] then [] else (if s[0] in keep then [s[0]] else []) + Only(s[1..], keep)
  }

  function Elements(s: seq<Handle>): set<Handle> {
    set h | h in s
  }

  lemma {:induction false} SplitList(s: seq<Handle>, x: set<Handle>)
    ensures multiset(Without(s, x)) + multiset(Only(s, x)) == multiset(s)
    ensures forall h :: h in Without(s, x) <==> h in s && h !in x
    ensures forall h :: h in Only(s, x) <==> h in s && h in x
  {
    if s != [] {
      SplitList(s[1..], x);
      assert s == [s[0]] + s[1..];
    }
  }

  lemma {:induction false} WithoutTwice(s: seq<Handle>, a: set<Handle>, b: set<Handle>)
    ensures Without(Without(s, a), b) == Without(s, a + b)
  {
    if s != [] {
      WithoutTwice(s[1..], a, b);
      assert [] + Without(s[1..], a) == Without(s[1..], a);
      if s[0] !in a {
        assert Without(s, a)[1..] == Without(s[1..], a);
      }
    }
  }

  lemma {:induction false} WithoutOthers(s: seq<Handle>, x: set<Handle>)
    requires forall h :: h in s ==> h !in x
    ensures Without(s, x) == s
  {
    if s != [] {
      var h := s[0];
      assert h in s && h !in x;
      WithoutOthers(s[1..], x);
      assert Without(s, x) == [s[0]] + s[1..] == s;
    } else {
      assert Without(s, x) == [];
    }
  }

  lemma {:induction false} WithoutAll(s: seq<Handle>, x: set<Handle>)
    requires forall h :: h in s ==> h in x
    ensures Without(s, x) == []
  {
    if s != [] {
      var h := s[0];
      assert h in s && h in x;
      WithoutAll(s[1..], x);
      assert Without(s, x) == [] + Without(s[1..], x);
    }
  }

  lemma EmptyList(x: set<Handle>)
    ensures Only([], x) == Without([], x) == []
    ensures forall h :: Only([h], x) == if h in x then [h] else []
    ensures forall h :: Without([h], x) == if h in x then [] else [h]
  {
  }

  lemma {:induction false} WithoutConcat(a: seq<Handle>, b: seq<Handle>, x: set<Handle>)
    ensures Without(a + b, x) == Without(a, x) + Without(b, x)
  {
    if a == [] {
      assert a + b == b;
    } else {
      WithoutConcat(a[1..], b, x);
      AppendToTail(a, b);
      Associate(if a[0] in x then [] else [a[0]], Without(a[1..], x), Without(b, x));
    }
  }

  lemma {:induction false} OnlyConcat(a: seq<Handle>, b: seq<Handle>, x: set<Handle>)
    ensures Only(a + b, x) == Only(a, x) + Only(b, x)
  {
    if a == [] {
      assert a + b == b;
    } else {
      OnlyConcat(a[1..], b, x);
      AppendToTail(a, b);
      Associate(if a[0] in x then [a[0]] else [], Only(a[1..], x), Only(b, x));
    }
  }

  ghost predicate Distinct(s: seq<Handle>) {
    forall h :: multiset(s)[h] <= 1
  }

  lemma {:induction false} CardinalityBound(x: set<Handle>, s: seq<Handle>)
    requires forall h :: h in x ==> h in s
    ensures |x| <= |s|
  {
    if s == [] {
      if x != {} {
        var h := Member(x);
      }
    } else {
      CardinalityBound(x - {s[0]}, s[1..]);
    }
  }

  // ---- One pass of the watcher -----------------------------------------------------------

  predicate Signalled(s: State, x: Signal) {
    x.Connected? && x.handle in s.ovmap
  }

  /** A connect finished: its handle moves from waiting to pending. */
  function Connect(s: State, h: Handle): State {
    s.(waiting := Without(s.waiting, {h}), pending := s.pending + [h], ovmap := s.ovmap - {h})
  }

  function Wait(s: State, t: Tick): State {
    if Signalled(s, t.first) then Connect(s, t.first.handle)
    else if Signalled(s, t.second) then Connect(s, t.second.handle)
    else s
  }

  /** The waiting handles for which this pass calls ConnectNamedPipe with the given answer. */
  function Tried(s: State, t: Tick, answer: ConnectResult): set<Handle> {
    set h | h in s.waiting && h !in s.ovmap && t.connect(h) == answer
  }

  function Scan(s: State, t: Tick): State {
    var here := Tried(s, t, AlreadyConnected);
    s.(waiting := Without(s.waiting, here),
       pending := s.pending + Only(s.waiting, here),
       ovmap := s.ovmap + Tried(s, t, Started))
  }

  predicate MayGrow(s: State) {
    |s.waiting| + |s.pending| < BACKLOG && |s.sockets| <= s.maxClients && s.maxClients > 0
  }

  /** The accept pass on one pending handle; it stays in `pending` until the pass ends. */
  function AcceptOne(s: State, h: Handle, t: Tick): State {
    if !t.accepts(h) then s.(waiting := s.waiting + [h])
    else
      var u := s.(active := s.active + {h});
      if MayGrow(s) && t.creates(h) then
        u.(sockets := s.sockets + [s.next], waiting := s.waiting + [s.next], next := s.next + 1)
      else u
  }

  function AcceptEach(s: State, hs: seq<Handle>, t: Tick): State
    decreases |hs|
  {
    if hs == [] then s else AcceptEach(AcceptOne(s, hs[0], t), hs[1..], t)
  }

  function Accept(s: State, t: Tick): State {
    if t.hooked then AcceptEach(s, s.pending, t).(pending := []) else s
  }

  function VerifyOne(s: State, h: Handle, t: Tick): State {
    if !t.gone(h) then s
    else
      var u := s.(active := s.active - {h});
      if |s.waiting| + |s.pending| < BACKLOG then u.(waiting := s.waiting + [h]) else u.(closed := s.closed + [h])
  }

  function VerifyEach(s: State, hs: seq<Handle>, t: Tick): State
    decreases |hs|
  {
    if hs == [] then s else VerifyEach(VerifyOne(s, hs[0], t), hs[1..], t)
  }

  function Verify(s: State, t: Tick): State {
    VerifyEach(s, Ascending(s.active), t)
  }

  function Pass(s: State, t: Tick): State {
    Verify(Accept(Scan(Wait(s, t), t), t), t)
  }

  function Run(s: State, ticks: seq<Tick>): State
    decreases |ticks|
  {
    if ticks == [] then s else Run(Pass(s, ticks[0]), ticks[1..])
  }

  /** What a successful `create` leaves. */
  function Created(maxClients: nat, next: Handle): State {
    var handles := seq(BACKLOG, i => next + i);
    State(maxClients, handles, handles, [], {}, {}, [], next + BACKLOG)
  }

  // ---- What every pass keeps ---------------------------------------------------------------

  /** Waiting, pending, active and closed handles are disjoint, free of duplicates and together exactly `sockets`. */
  ghost predicate Partition(s: State) {
    && Distinct(s.sockets)
    && multiset(s.waiting) + multiset(s.pending) + multiset(s.active) + multiset(s.closed) == multiset(s.sockets)
    && forall h :: h in s.sockets ==> h < s.next
  }

  ghost predicate Bounded(s: State) {
    && |s.waiting| + |s.pending| <= BACKLOG
    && |s.waiting| + |s.pending| + |s.active| >= BACKLOG
    && |s.sockets| <= Max(BACKLOG, s.maxClients + 1)
  }

  ghost predicate Inv(s: State) {
    Partition(s) && Bounded(s) && forall h :: h in s.ovmap ==> h in s.waiting
  }

  /** No handle is forgotten, and the client limit does not change. */
  ghost predicate Grows(s: State, r: State) {
    s.sockets <= r.sockets && s.closed <= r.closed && r.maxClients == s.maxClients
  }

  lemma MemberOfOne(s: State, h: Handle)
    requires Partition(s)
    ensures h in s.waiting ==> h !in s.pending && h !in s.active && h !in s.closed && h in s.sockets
    ensures h in s.pending ==> h !in s.active && h !in s.closed && h in s.sockets
    ensures h in s.active ==> h !in s.closed && h in s.sockets
    ensures h in s.sockets ==> h in s.waiting || h in s.pending || h in s.active || h in s.closed
    ensures multiset(s.waiting)[h] <= 1 && multiset(s.pending)[h] <= 1
  {
    assert multiset(s.sockets)[h]
        == multiset(s.waiting)[h] + multiset(s.pending)[h] + multiset(s.active)[h] + multiset(s.closed)[h];
  }

  lemma Counts(s: State)
    requires Partition(s)
    ensures |s.waiting| + |s.pending| + |s.active| + |s.closed| == |s.sockets|
  {
    var all := multiset(s.waiting) + multiset(s.pending) + multiset(s.active) + multiset(s.closed);
    assert |all| == |multiset(s.sockets)|;
  }

  lemma CreatedInv(maxClients: nat, next: Handle)
    ensures Inv(Created(maxClients, next))
  {
    var s := Created(maxClients, next);
    forall h ensures multiset(s.sockets)[h] <= 1 {
      DistinctFresh(next, BACKLOG, h);
    }
  }

  lemma {:induction false} DistinctFresh(next: Handle, n: nat, h: Handle)
    ensures multiset(seq(n, i => next + i))[h] == if next <= h < next + n then 1 else 0
  {
    if n > 0 {
      DistinctFresh(next, n - 1, h);
      assert seq(n, i => next + i) == seq(n - 1, i => next + i) + [next + n - 1];
    }
  }

  lemma {:induction false} WithoutOne(s: seq<Handle>, h: Handle)
    requires multiset(s)[h] == 1
    ensures multiset(Without(s, {h})) == multiset(s) - multiset{h}
  {
    SplitList(s, {h});
    assert h !in Without(s, {h});
    forall x ensures multiset(Without(s, {h}))[x] == (multiset(s) - multiset{h})[x] {
      if x != h {
        assert x !in Only(s, {h});
      }
    }
  }

  lemma ConnectInv(s: State, h: Handle)
    requires Inv(s) && h in s.ovmap
    ensures Inv(Connect(s, h)) && Grows(s, Connect(s, h))
  {
    MemberOfOne(s, h);
    WithoutOne(s.waiting, h);
    SplitList(s.waiting, {h});
    var r := Connect(s, h);
    assert multiset(r.waiting) + multiset(r.pending) == multiset(s.waiting) + multiset(s.pending);
    assert |multiset(r.waiting)| + |multiset(r.pending)| == |multiset(s.waiting)| + |multiset(s.pending)|;
  }

  lemma ScanInv(s: State, t: Tick)
    requires Inv(s)
    ensures Inv(Scan(s, t)) && Grows(s, Scan(s, t))
  {
    hide Without, Only;
    var here := Tried(s, t, AlreadyConnected);
    SplitList(s.waiting, here);
    var r := Scan(s, t);
    assert multiset(r.waiting) + multiset(r.pending) == multiset(s.waiting) + multiset(s.pending);
    assert |multiset(r.waiting)| + |multiset(r.pending)| == |multiset(s.waiting)| + |multiset(s.pending)|;
  }

  /** The invariant in the middle of the accept pass, with `hs` still to be handled. */
  ghost predicate Accepting(s: State, hs: seq<Handle>) {
    && Distinct(s.sockets)
    && multiset(s.waiting) + multiset(hs) + multiset(s.active) + multiset(s.closed) == multiset(s.sockets)
    && (forall h :: h in s.sockets ==> h < s.next)
    && |hs| <= |s.pending|
    && |s.waiting| + |hs| <= BACKLOG
    && |s.waiting| + |hs| + |s.active| >= BACKLOG
    && |s.sockets| <= Max(BACKLOG, s.maxClients + 1)
    && forall h :: h in s.ovmap ==> h in s.waiting
  }

  lemma RejectKeeps(s: State, hs: seq<Handle>)
    requires Accepting(s, hs) && hs != []
    ensures Accepting(s.(waiting := s.waiting + [hs[0]]), hs[1..])
  {
    assert hs == [hs[0]] + hs[1..];
  }

  lemma ActivateKeeps(s: State, hs: seq<Handle>)
    requires Accepting(s, hs) && hs != []
    ensures Accepting(s.(active := s.active + {hs[0]}), hs[1..])
  {
    var h := hs[0];
    assert hs == [h] + hs[1..];
    assert multiset(s.sockets)[h]
        == multiset(s.waiting)[h] + multiset(hs)[h] + multiset(s.active)[h] + multiset(s.closed)[h];
    assert multiset(s.active + {h}) == multiset(s.active) + multiset{h};
  }

  lemma CreateKeeps(s: State, hs: seq<Handle>)
    requires Accepting(s, hs)
    requires |s.waiting| + |hs| < BACKLOG && |s.sockets| <= s.maxClients
    ensures Accepting(s.(sockets := s.sockets + [s.next], waiting := s.waiting + [s.next], next := s.next + 1), hs)
  {
    assert s.next !in s.sockets;
    assert multiset(s.sockets)[s.next] == 0;
    assert multiset(s.sockets + [s.next]) == multiset(s.sockets) + multiset{s.next};
  }

  lemma AcceptOneKeeps(s: State, hs: seq<Handle>, t: Tick)
    requires Accepting(s, hs) && hs != []
    ensures Accepting(AcceptOne(s, hs[0], t), hs[1..])
    ensures Grows(s, AcceptOne(s, hs[0], t)) && AcceptOne(s, hs[0], t).pending == s.pending
  {
    if !t.accepts(hs[0]) {
      RejectKeeps(s, hs);
    } else {
      ActivateKeeps(s, hs);
      if MayGrow(s) && t.creates(hs[0]) {
        assert |s.waiting| + |hs| < BACKLOG;
        CreateKeeps(s.(active := s.active + {hs[0]}), hs[1..]);
      }
    }
  }

  lemma {:induction false} AcceptEachKeeps(s: State, hs: seq<Handle>, t: Tick)
    requires Accepting(s, hs)
    ensures Accepting(AcceptEach(s, hs, t), []) && Grows(s, AcceptEach(s, hs, t))
    decreases |hs|
  {
    if hs != [] {
      AcceptOneKeeps(s, hs, t);
      AcceptEachKeeps(AcceptOne(s, hs[0], t), hs[1..], t);
    }
  }

  lemma AcceptInv(s: State, t: Tick)
    requires Inv(s)
    ensures Inv(Accept(s, t)) && Grows(s, Accept(s, t))
  {
    if t.hooked {
      AcceptEachKeeps(s, s.pending, t);
    }
  }

  lemma RejoinInv(s: State, h: Handle)
    requires Inv(s) && h in s.active && |s.waiting| + |s.pending| < BACKLOG
    ensures Inv(s.(active := s.active - {h}, waiting := s.waiting + [h]))
  {
    assert multiset(s.active) == multiset(s.active - {h}) + multiset{h};
    assert multiset(s.waiting + [h]) == multiset(s.waiting) + multiset{h};
  }

  lemma CloseInv(s: State, h: Handle)
    requires Inv(s) && h in s.active && |s.waiting| + |s.pending| == BACKLOG
    ensures Inv(s.(active := s.active - {h}, closed := s.closed + [h]))
  {
    assert multiset(s.active) == multiset(s.active - {h}) + multiset{h};
    assert multiset(s.closed + [h]) == multiset(s.closed) + multiset{h};
  }

  lemma VerifyOneInv(s: State, h: Handle, t: Tick)
    requires Inv(s) && h in s.active
    ensures Inv(VerifyOne(s, h, t)) && Grows(s, VerifyOne(s, h, t))
  {
    BacklogHolds(s);
    hide Inv;
    if |s.waiting| + |s.pending| < BACKLOG {
      RejoinInv(s, h);
    } else {
      CloseInv(s, h);
    }
  }

  lemma {:induction false} VerifyEachInv(s: State, hs: seq<Handle>, t: Tick)
    requires Inv(s) && Increasing(hs) && forall h :: h in hs ==> h in s.active
    ensures Inv(VerifyEach(s, hs, t)) && Grows(s, VerifyEach(s, hs, t))
    decreases |hs|
  {
    if hs != [] {
      VerifyOneInv(s, hs[0], t);
      assert forall h :: h in hs[1..] ==> h != hs[0];
      VerifyEachInv(VerifyOne(s, hs[0], t), hs[1..], t);
    }
  }

  lemma PassInv(s: State, t: Tick)
    requires Inv(s)
    ensures Inv(Wait(s, t)) && Inv(Scan(Wait(s, t), t)) && Inv(Accept(Scan(Wait(s, t), t), t)) && Inv(Pass(s, t))
    ensures Grows(s, Pass(s, t))
  {
    hide Inv, Scan, Accept, VerifyEach;
    if Signalled(s, t.first) {
      ConnectInv(s, t.first.handle);
    } else if Signalled(s, t.second) {
      ConnectInv(s, t.second.handle);
    }
    ScanInv(Wait(s, t), t);
    AcceptInv(Scan(Wait(s, t), t), t);
    var u := Accept(Scan(Wait(s, t), t), t);
    VerifyEachInv(u, Ascending(u.active), t);
  }

  /**
   At every point of every run where the lock is free: the four kinds of handle partition `sockets`, the backlog holds
   at most 8 handles, at least 8 handles are open, and `sockets` never loses a handle nor outgrows max(8, max_clients
   + 1).
   */
  lemma {:induction false} RunInv(s: State, ticks: seq<Tick>)
    requires Inv(s)
    ensures Inv(Run(s, ticks)) && Grows(s, Run(s, ticks))
    decreases |ticks|
  {
    hide Inv, Pass;
    if ticks != [] {
      PassInv(s, ticks[0]);
      RunInv(Pass(s, ticks[0]), ticks[1..]);
    }
  }

  // ---- Bounds over whole runs ----------------------------------------------------------------

  /** The watcher never waits on more objects than the system allows. */
  lemma OvmapFits(s: State)
    requires Inv(s)
    ensures |s.ovmap| <= BACKLOG <= MAXIMUM_WAIT_OBJECTS
  {
    CardinalityBound(s.ovmap, s.waiting);
  }

  /**
   From `create` on, every closed handle permanently uses up one of the max(8, max_clients + 1) that may ever be made,
   and at least 8 stay open.
   */
  lemma ClosedHandlesCostCapacity(maxClients: nat, next: Handle, ticks: seq<Tick>)
    ensures var r := Run(Created(maxClients, next), ticks);
            && BACKLOG <= |r.waiting| + |r.pending| + |r.active| <= Max(BACKLOG, maxClients + 1) - |r.closed|
            && (maxClients == 0 ==>
                  r.sockets == Created(maxClients, next).sockets && |r.active| <= BACKLOG && r.closed == [])
  {
    CreatedInv(maxClients, next);
    RunInv(Created(maxClients, next), ticks);
    Counts(Run(Created(maxClients, next), ticks));
  }

  lemma {:induction false} AcceptEachExhausted(s: State, hs: seq<Handle>, t: Tick)
    requires |s.sockets| > s.maxClients
    ensures AcceptEach(s, hs, t).sockets == s.sockets && AcceptEach(s, hs, t).maxClients == s.maxClients
    decreases |hs|
  {
    if hs != [] {
      AcceptEachExhausted(AcceptOne(s, hs[0], t), hs[1..], t);
    }
  }

  lemma {:induction false} VerifyKeepsSockets(s: State, hs: seq<Handle>, t: Tick)
    ensures VerifyEach(s, hs, t).sockets == s.sockets && VerifyEach(s, hs, t).maxClients == s.maxClients
    decreases |hs|
  {
    if hs != [] {
      VerifyKeepsSockets(VerifyOne(s, hs[0], t), hs[1..], t);
    }
  }

  /** Once `sockets` is longer than max_clients no pipe is ever made again, however many were closed since. */
  lemma {:induction false} SupplyIsExhausted(s: State, ticks: seq<Tick>)
    requires |s.sockets| > s.maxClients
    ensures Run(s, ticks).sockets == s.sockets
    decreases |ticks|
  {
    if ticks != [] {
      var t := ticks[0];
      var u := Scan(Wait(s, t), t);
      AcceptEachExhausted(u, u.pending, t);
      var v := Accept(u, t);
      VerifyKeepsSockets(v, Ascending(v.active), t);
      SupplyIsExhausted(Pass(s, t), ticks[1..]);
    }
  }

  // ---- What the accept and verify passes achieve ------------------------------------------------

  /** The given handles leave `active`: as many as the backlog has room for wait again, the others are closed. */
  function Settle(s: State, gs: seq<Handle>): State
    requires |s.waiting| + |s.pending| <= BACKLOG
  {
    var k := Min(|gs|, BACKLOG - |s.waiting| - |s.pending|);
    s.(waiting := s.waiting + gs[..k], closed := s.closed + gs[k..], active := s.active - Elements(gs))
  }

  lemma SettleFirst(s: State, h: Handle, rest: seq<Handle>, t: Tick)
    requires |s.waiting| + |s.pending| <= BACKLOG && t.gone(h)
    ensures Settle(s, [h] + rest) == Settle(VerifyOne(s, h, t), rest)
  {
    var gs := [h] + rest;
    assert Elements(gs) == {h} + Elements(rest);
    assert s.active - Elements(gs) == s.active - {h} - Elements(rest);
    var k := Min(|gs|, BACKLOG - |s.waiting| - |s.pending|);
    if k > 0 {
      assert gs[..k] == [h] + rest[..k - 1] && gs[k..] == rest[k - 1..];
      assert s.waiting + [h] + rest[..k - 1] == s.waiting + gs[..k];
    } else {
      assert gs[..k] == [] == rest[..k] && gs[k..] == gs && rest[k..] == rest;
      assert s.closed + [h] + rest == s.closed + gs;
    }
  }

  lemma {:induction false} VerifyEachSettles(s: State, hs: seq<Handle>, t: Tick, lost: set<Handle>)
    requires |s.waiting| + |s.pending| <= BACKLOG
    requires forall h :: h in hs ==> (h in lost <==> t.gone(h))
    ensures VerifyEach(s, hs, t) == Settle(s, Only(hs, lost))
    decreases |hs|
  {
    if hs == [] {
      assert Settle(s, []) == s by { assert Elements([]) == {}; }
    } else {
      hide Settle, Elements;
      var h := hs[0];
      assert h in hs;
      assert forall x :: x in hs[1..] ==> x in hs;
      VerifyEachSettles(VerifyOne(s, h, t), hs[1..], t, lost);
      if h in lost {
        SettleFirst(s, h, Only(hs[1..], lost), t);
      } else {
        assert [] + Only(hs[1..], lost) == Only(hs[1..], lost);
      }
    }
  }

  /** The active handles whose client is gone, in ascending order. */
  function Lost(s: State, t: Tick): seq<Handle> {
    Only(Ascending(s.active), set h | h in s.active && t.gone(h))
  }

  lemma LostInOrder(s: State, t: Tick)
    ensures forall h :: h in Elements(Lost(s, t)) <==> h in s.active && t.gone(h)
    ensures Increasing(Lost(s, t)) && multiset(Lost(s, t)) == multiset(Elements(Lost(s, t)))
  {
    var order, gone := Ascending(s.active), set h | h in s.active && t.gone(h);
    SplitList(order, gone);
    OnlyIncreasing(order, gone);
    hide Increasing, Only;
    OnceEach(Only(order, gone));
  }

  /**
   Handles whose client is gone return to waiting in ascending order while the backlog is below 8; all the others are
   closed.
   */
  lemma {:induction false} VerifySplits(s: State, t: Tick)
    requires |s.waiting| + |s.pending| <= BACKLOG
    ensures Verify(s, t) == Settle(s, Lost(s, t))
    ensures var r, gs, room := Verify(s, t), Lost(s, t), BACKLOG - |s.waiting| - |s.pending|;
            if |gs| <= room then r.waiting == s.waiting + gs && r.closed == s.closed
            else r.waiting == s.waiting + gs[..room] && r.closed == s.closed + gs[room..]
  {
    hide VerifyEach, Increasing, Only;
    VerifyEachSettles(s, Ascending(s.active), t, set h | h in s.active && t.gone(h));
    var gs := Lost(s, t);
    assert gs[..|gs|] == gs && s.closed + gs[|gs|..] == s.closed;
  }

  /** The handles still counted as pending, less those already dealt with, respect the backlog inside the pass too. */
  lemma BacklogWhileAccepting(s: State, hs: seq<Handle>)
    requires Accepting(s, hs)
    ensures |s.waiting| + |hs| <= BACKLOG
  {
  }

  lemma BacklogHolds(s: State)
    requires Inv(s)
    ensures |s.waiting| + |s.pending| <= BACKLOG
  {
  }

  lemma {:induction false} OnlyIncreasing(s: seq<Handle>, x: set<Handle>)
    requires Increasing(s)
    ensures Increasing(Only(s, x))
  {
    if s != [] {
      OnlyIncreasing(s[1..], x);
      SplitList(s[1..], x);
      var rest := Only(s[1..], x);
      forall i | 0 <= i < |rest| ensures s[0] < rest[i] {
        assert rest[i] in rest;
        var h := rest[i];
        assert h in s[1..];
      }
    }
  }

  lemma {:induction false} OnceEach(s: seq<Handle>)
    requires Increasing(s)
    ensures multiset(s) == multiset(Elements(s))
  {
    if s != [] {
      OnceEach(s[1..]);
      assert s == [s[0]] + s[1..];
      assert s[0] !in s[1..];
      assert Elements(s) == {s[0]} + Elements(s[1..]);
    }
  }

  lemma {:induction false} AcceptEachSorts(s: State, hs: seq<Handle>, t: Tick, all: set<Handle>, refused: set<Handle>)
    returns (made: seq<Handle>)
    requires forall h :: h in all ==> h < s.next
    requires forall h :: h in hs ==> h in all && (h in refused <==> !t.accepts(h))
    ensures var r := AcceptEach(s, hs, t);
            && r.sockets == s.sockets + made
            && Only(r.waiting, all) == Only(s.waiting, all) + Only(hs, refused)
            && Without(r.waiting, all) == Without(s.waiting, all) + made
            && r.active == s.active + (Elements(hs) - refused)
    decreases |hs|
  {
    if hs == [] {
      made := [];
      assert Elements(hs) == {};
    } else {
      var h, u := hs[0], AcceptOne(s, hs[0], t);
      assert h in hs && forall x :: x in hs[1..] ==> x in hs;
      var first := AcceptOneSorts(s, h, t, all, refused);
      hide AcceptOne, Without;
      var rest := AcceptEachSorts(u, hs[1..], t, all, refused);
      made := first + rest;
      assert Elements(hs) == {h} + Elements(hs[1..]);
      assert hs == [h] + hs[1..];
      OnlyConcat([h], hs[1..], refused);
      hide Only, Elements;
      Associate(s.sockets, first, rest);
      Associate(Only(s.waiting, all), Only([h], refused), Only(hs[1..], refused));
      Associate(Without(s.waiting, all), first, rest);
    }
  }

  lemma AcceptOneSorts(s: State, h: Handle, t: Tick, all: set<Handle>, refused: set<Handle>) returns (made: seq<Handle>)
    requires h in all && (h in refused <==> !t.accepts(h)) && forall x :: x in all ==> x < s.next
    ensures var u := AcceptOne(s, h, t);
            && u.sockets == s.sockets + made && s.next <= u.next
            && Only(u.waiting, all) == Only(s.waiting, all) + Only([h], refused)
            && Without(u.waiting, all) == Without(s.waiting, all) + made
            && u.active == s.active + ({h} - refused)
  {
    hide Only, Without;
    EmptyList(refused);
    var w, o := Without(s.waiting, all), Only(s.waiting, all);
    assert w + [] == w && o + [] == o;
    assert s.next !in all;
    made := if t.accepts(h) && MayGrow(s) && t.creates(h) then [s.next] else [];
    if !t.accepts(h) {
      AddOne(s.waiting, h, all);
    } else if made != [] {
      AddOne(s.waiting, s.next, all);
    }
  }

  lemma AddOne(s: seq<Handle>, h: Handle, x: set<Handle>)
    ensures Only(s + [h], x) == if h in x then Only(s, x) + [h] else Only(s, x)
    ensures Without(s + [h], x) == if h in x then Without(s, x) else Without(s, x) + [h]
  {
    EmptyList(x);
    hide Only, Without;
    OnlyConcat(s, [h], x);
    WithoutConcat(s, [h], x);
    var o, w := Only(s, x), Without(s, x);
    assert o + [] == o && w + [] == w;
  }

  /**
   After the accept pass nothing is pending: accepted handles are active, refused ones wait again in their old order,
   and whatever else joined the waiting list is newly made.
   */
  lemma AcceptSorts(s: State, t: Tick)
    requires Inv(s) && t.hooked
    ensures var r, refused, all := Accept(s, t), (set h | h in s.pending && !t.accepts(h)), Elements(s.pending);
            && r.pending == [] && r.ovmap == s.ovmap && r.closed == s.closed
            && r.active == s.active + (all - refused)
            && Only(r.waiting, all) == Only(s.pending, refused)
            && s.sockets <= r.sockets && Without(r.waiting, all) == s.waiting + r.sockets[|s.sockets|..]
  {
    var refused := set h | h in s.pending && !t.accepts(h);
    var all := Elements(s.pending);
    forall h | h in all ensures h < s.next && h !in s.waiting {
      MemberOfOne(s, h);
    }
    hide Inv, AcceptEach, Only, Without;
    AcceptKeepsOthers(s, s.pending, t);
    var made := AcceptEachSorts(s, s.pending, t, all, refused);
    WithoutOthers(s.waiting, all);
    SplitList(s.waiting, all);
    assert |multiset(Only(s.waiting, all))| == 0;
    assert Only(s.waiting, all) == [];
  }

  /**
   After a scan, a waiting handle either has a connect in progress or was refused one; a handle whose client was there
   already is pending.
   */
  lemma ScanSorts(s: State, t: Tick, h: Handle)
    requires Inv(s) && h in s.waiting
    ensures var r := Scan(s, t);
            && (h in r.ovmap && h in r.waiting <==> h in s.ovmap || t.connect(h) == Started)
            && (h in r.waiting && h !in r.ovmap <==> h !in s.ovmap && t.connect(h) == Refused)
            && (h in r.pending && h !in r.waiting <==> h !in s.ovmap && t.connect(h) == AlreadyConnected)
  {
    MemberOfOne(s, h);
    SplitList(s.waiting, Tried(s, t, AlreadyConnected));
  }

  lemma {:induction false} OnlyOf(s: seq<Handle>, x: set<Handle>, y: set<Handle>)
    requires forall h :: h in s ==> (h in x <==> h !in y)
    ensures Only(s, x) == Without(s, y)
  {
    if s != [] {
      var h := s[0];
      assert h in s && forall k :: k in s[1..] ==> k in s;
      OnlyOf(s[1..], x, y);
    }
  }

  /**
   The scan keeps the order of both lists: the handles that are left wait as before, the others join `pending` in
   turn.
   */
  lemma ScanKeepsOrder(s: State, t: Tick)
    requires Inv(s)
    ensures var r := Scan(s, t);
            && r.waiting == Only(s.waiting, Elements(r.waiting))
            && r.pending == s.pending + Only(s.waiting, Elements(r.pending))
            && r.sockets == s.sockets && r.active == s.active && r.closed == s.closed
  {
    var r, here := Scan(s, t), Tried(s, t, AlreadyConnected);
    SplitList(s.waiting, here);
    forall h | h in s.waiting ensures h !in s.pending {
      MemberOfOne(s, h);
    }
    var moved := Only(s.waiting, here);
    assert r.pending == s.pending + moved;
    hide Inv, Only, Without, Tried;
    forall h | h in s.waiting ensures h in Elements(r.pending) <==> h in here {
      assert h in r.pending <==> h in s.pending || h in moved;
    }
    OnlyOf(s.waiting, Elements(r.waiting), here);
    OnlyOf(s.waiting, here, Elements(s.waiting) - here);
    OnlyOf(s.waiting, Elements(r.pending), Elements(s.waiting) - here);
  }

  lemma ConnectMoves(s: State, h: Handle)
    requires Inv(s) && h in s.ovmap
    ensures multiset(Connect(s, h).waiting) + multiset{h} == multiset(s.waiting)
    ensures forall i :: 0 <= i < |s.waiting| && s.waiting[i] == h ==>
      Connect(s, h).waiting == s.waiting[..i] + s.waiting[i + 1..]
  {
    MemberOfOne(s, h);
    hide Without, Inv;
    forall i | 0 <= i < |s.waiting| && s.waiting[i] == h
      ensures Connect(s, h).waiting == s.waiting[..i] + s.waiting[i + 1..]
    {
      EraseAt(s.waiting, i);
    }
    assert multiset(s.waiting)[h] == 1;
    WithoutOne(s.waiting, h);
    assert multiset(Without(s.waiting, {h})) + multiset{h} == multiset(s.waiting);
  }

  /**
   A wait moves nothing, or exactly the signalled handle: from waiting to the end of pending, together with the loss
   of its overlapped object.
   */
  lemma WaitMovesSignalled(s: State, t: Tick)
    requires Inv(s)
    ensures var r := Wait(s, t);
            var first := t.first.Connected? && t.first.handle in s.ovmap;
            var second := t.second.Connected? && t.second.handle in s.ovmap;
            if !first && !second then r == s
            else
              var h := if first then t.first.handle else t.second.handle;
              && r.pending == s.pending + [h]
              && multiset(r.waiting) + multiset{h} == multiset(s.waiting)
              && (forall i :: 0 <= i < |s.waiting| && s.waiting[i] == h ==>
                    r.waiting == s.waiting[..i] + s.waiting[i + 1..])
              && r.ovmap + {h} == s.ovmap && h !in r.ovmap
              && r.sockets == s.sockets && r.active == s.active && r.closed == s.closed
  {
    hide Inv, Without;
    if Signalled(s, t.first) {
      ConnectMoves(s, t.first.handle);
    } else if Signalled(s, t.second) {
      ConnectMoves(s, t.second.handle);
    }
  }

  lemma ActiveAfterAccept(s: State, t: Tick, h: Handle)
    requires Inv(s)
    ensures h in Accept(s, t).active <==> h in s.active || (t.hooked && h in s.pending && t.accepts(h))
  {
    hide Inv, AcceptEach, Only, Without;
    if t.hooked {
      AcceptSorts(s, t);
    }
  }

  lemma ActiveAfterVerify(s: State, t: Tick, h: Handle)
    requires Inv(s)
    ensures h in Verify(s, t).active <==> h in s.active && !t.gone(h)
  {
    BacklogHolds(s);
    VerifySplits(s, t);
    LostInOrder(s, t);
    hide Inv, Verify, Increasing, Lost, Elements;
  }

  lemma ActiveBeforeAccept(s: State, t: Tick)
    ensures Scan(Wait(s, t), t).active == s.active
  {
    hide Without, Only, Tried;
  }

  lemma ScannedInv(s: State, t: Tick)
    requires Inv(s)
    ensures Inv(Scan(Wait(s, t), t)) && Inv(Accept(Scan(Wait(s, t), t), t))
  {
    hide Inv, Wait, Scan, Accept;
    PassInv(s, t);
  }

  /**
   Which handles are active after a pass: those that were or that were pending and accepted in it, except those whose
   socket is gone.
   */
  lemma {:induction false} ActiveAfterPass(s: State, t: Tick, h: Handle)
    requires Inv(s)
    ensures var u := Scan(Wait(s, t), t);
            h in Pass(s, t).active <==> (h in s.active || (t.hooked && h in u.pending && t.accepts(h))) && !t.gone(h)
  {
    hide Inv, Accept, Verify, Wait, Scan;
    ScannedInv(s, t);
    ActiveBeforeAccept(s, t);
    var u := Scan(Wait(s, t), t);
    ActiveAfterAccept(u, t, h);
    ActiveAfterVerify(Accept(u, t), t, h);
  }

  /**
   The handle that the waits of this pass report, if any: the second wait is made only when the first finds nothing.
   */
  predicate Reported(s: State, t: Tick, h: Handle) {
    || (h in s.ovmap && t.first == Connected(h))
    || (h in s.ovmap && t.second == Connected(h) && !(t.first.Connected? && t.first.handle in s.ovmap))
  }

  lemma ReportedIsPending(s: State, t: Tick, h: Handle)
    requires Inv(s) && Reported(s, t, h)
    ensures h in Scan(Wait(s, t), t).pending
  {
    WaitMovesSignalled(s, t);
    hide Inv, Wait, Only;
    var u := Scan(Wait(s, t), t);
    assert u.pending[|s.pending|] == h;
  }

  lemma WaitKeepsOthers(s: State, t: Tick, h: Handle)
    requires h in s.waiting && h !in s.ovmap
    ensures h in Wait(s, t).waiting && h !in Wait(s, t).ovmap
  {
    hide Without;
    if Signalled(s, t.first) {
      SplitList(s.waiting, {t.first.handle});
    } else if Signalled(s, t.second) {
      SplitList(s.waiting, {t.second.handle});
    }
  }

  lemma ConnectedIsPending(s: State, t: Tick, h: Handle)
    requires Inv(s) && h in s.waiting && h !in s.ovmap && t.connect(h) == AlreadyConnected
    ensures h in Scan(Wait(s, t), t).pending
  {
    PassInv(s, t);
    WaitKeepsOthers(s, t, h);
    hide Inv, Wait, Scan;
    ScanSorts(Wait(s, t), t, h);
  }

  /**
   A client that connects while its handle is waiting is active at the end of the same pass, if it is accepted and
   stays.
   */
  lemma ClientIsServed(s: State, t: Tick, h: Handle)
    requires Inv(s) && h in s.waiting && t.hooked && t.accepts(h) && !t.gone(h)
    requires Reported(s, t, h) || (h !in s.ovmap && t.connect(h) == AlreadyConnected)
    ensures h in Pass(s, t).active
  {
    ActiveAfterPass(s, t, h);
    if Reported(s, t, h) {
      ReportedIsPending(s, t, h);
    } else {
      ConnectedIsPending(s, t, h);
    }
  }

  // ---- Without a listener ----------------------------------------------------------------------

  predicate Unhooked(ticks: seq<Tick>) {
    forall i :: 0 <= i < |ticks| ==> !ticks[i].hooked
  }

  /** What a pass without a listener keeps. */
  lemma UnhookedPass(s: State, t: Tick)
    requires Inv(s) && !t.hooked
    ensures var u, r := Scan(Wait(s, t), t), Pass(s, t);
            && Inv(r) && r.pending == u.pending && s.pending <= r.pending
            && r.sockets == s.sockets && r.next == s.next
            && u.waiting <= r.waiting
            && forall h :: h in r.active <==> h in s.active && !t.gone(h)
  {
    PassInv(s, t);
    forall h ensures h in Pass(s, t).active <==> h in s.active && !t.gone(h) {
      ActiveAfterPass(s, t, h);
    }
    var u := Scan(Wait(s, t), t);
    UnhookedScan(s, t);
    ScannedInv(s, t);
    hide Scan, Wait;
    assert Accept(u, t) == u;
    BacklogHolds(u);
    VerifySplits(u, t);
    hide Inv, Verify, Lost;
  }

  lemma UnhookedScan(s: State, t: Tick)
    ensures var u := Scan(Wait(s, t), t); s.pending <= u.pending && u.sockets == s.sockets && u.next == s.next
  {
    hide Without, Only, Tried;
  }

  /**
   Until a listener is installed, no client that has connected loses its place, no pipe is made, and only clients
   that are gone leave `active`.
   */
  lemma {:induction false} PendingWaitForListener(s: State, ticks: seq<Tick>)
    requires Inv(s) && Unhooked(ticks)
    ensures var r := Run(s, ticks);
            && s.pending <= r.pending && r.sockets == s.sockets
            && forall h :: h in r.active <==> h in s.active && forall i :: 0 <= i < |ticks| ==> !ticks[i].gone(h)
    decreases |ticks|
  {
    if ticks != [] {
      UnhookedPass(s, ticks[0]);
      hide Inv, Pass;
      PendingWaitForListener(Pass(s, ticks[0]), ticks[1..]);
      forall h ensures h in Run(s, ticks).active <==>
          h in s.active && forall i :: 0 <= i < |ticks| ==> !ticks[i].gone(h) {
        GoneLater(ticks, h);
      }
    }
  }

  lemma GoneLater(ticks: seq<Tick>, h: Handle)
    requires ticks != []
    ensures (forall i :: 0 <= i < |ticks| ==> !ticks[i].gone(h)) <==>
            !ticks[0].gone(h) && forall i :: 0 <= i < |ticks[1..]| ==> !ticks[1..][i].gone(h)
  {
    if !ticks[0].gone(h) && forall i :: 0 <= i < |ticks[1..]| ==> !ticks[1..][i].gone(h) {
      forall i | 0 <= i < |ticks| ensures !ticks[i].gone(h) {
        if i > 0 {
          assert ticks[i] == ticks[1..][i - 1];
        }
      }
    }
  }

  /**
   A client that has connected is active after the first pass with a listener that accepts it, if it stays, however
   many passes without one come before.
   */
  lemma PendingIsServed(s: State, ticks: seq<Tick>, t: Tick, h: Handle)
    requires Inv(s) && h in s.pending && Unhooked(ticks)
    requires t.hooked && t.accepts(h) && !t.gone(h)
    ensures h in Run(s, ticks + [t]).active
  {
    PendingWaitForListener(s, ticks);
    RunInv(s, ticks);
    RunConcat(s, ticks, [t]);
    var r := Run(s, ticks);
    RunSingle(r, t);
    UnhookedScan(r, t);
    ActiveAfterPass(r, t, h);
    hide Inv, Run, Pass, Scan, Wait, Unhooked;
    var i :| 0 <= i < |s.pending| && s.pending[i] == h;
    assert r.pending[i] == h && Scan(Wait(r, t), t).pending[i] == h;
  }

  lemma {:induction false} AcceptEachCreates(s: State, hs: seq<Handle>, t: Tick)
    requires forall h :: h in hs ==> t.accepts(h) && t.creates(h)
    requires s.maxClients > 0
    ensures var room := Min(BACKLOG - |s.waiting| - |s.pending|, s.maxClients + 1 - |s.sockets|);
            |AcceptEach(s, hs, t).sockets| == |s.sockets| + Min(|hs|, if room < 0 then 0 else room)
    decreases |hs|
  {
    if hs != [] {
      assert hs[0] in hs && forall x :: x in hs[1..] ==> x in hs;
      AcceptEachCreates(AcceptOne(s, hs[0], t), hs[1..], t);
    }
  }

  /**
   How many pipes an accept pass makes when every client is accepted: the pending handles still count against the
   backlog, so a full backlog is not topped up at all.
   */
  lemma AcceptAllCreates(s: State, t: Tick)
    requires Inv(s) && t.hooked && s.maxClients > 0
    requires forall h :: h in s.pending ==> t.accepts(h) && t.creates(h)
    ensures var room := Min(BACKLOG - |s.waiting| - |s.pending|, s.maxClients + 1 - |s.sockets|);
            |Accept(s, t).sockets| == |s.sockets| + Min(|s.pending|, if room < 0 then 0 else room)
    ensures |s.waiting| + |s.pending| == BACKLOG ==> Accept(s, t).sockets == s.sockets
  {
    AcceptEachCreates(s, s.pending, t);
    AcceptInv(s, t);
  }

  /** Inside the pass the raw sum of the two lists exceeds 8 whenever enough clients are refused. */
  lemma {:induction false} RawSumWhileRefusing(s: State, hs: seq<Handle>, t: Tick)
    requires forall h :: h in hs ==> !t.accepts(h)
    ensures var r := AcceptEach(s, hs, t); |r.waiting| + |r.pending| == |s.waiting| + |s.pending| + |hs|
    decreases |hs|
  {
    if hs != [] {
      assert hs[0] in hs && forall x :: x in hs[1..] ==> x in hs;
      RawSumWhileRefusing(AcceptOne(s, hs[0], t), hs[1..], t);
    }
  }

  lemma EveryoneConnects(s: State, t: Tick)
    requires s.ovmap == {} && s.pending == [] && forall h :: t.connect(h) == AlreadyConnected
    ensures var u := Scan(Wait(s, t), t); u.waiting == [] && |u.pending| == |s.waiting|
  {
    var here := Tried(s, t, AlreadyConnected);
    assert forall h :: h in s.waiting ==> h in here;
    hide Only, Without, Tried;
    SplitList(s.waiting, here);
    WithoutAll(s.waiting, here);
    assert |multiset(Only(s.waiting, here))| == |multiset(s.waiting)|;
  }

  /** The raw sum does exceed 8: when the first 8 clients connect at once and are all refused, it reaches 16. */
  lemma RawSumExceedsBacklog(maxClients: nat, next: Handle, t: Tick)
    requires forall h :: t.connect(h) == AlreadyConnected && !t.accepts(h)
    ensures var u := Scan(Wait(Created(maxClients, next), t), t);
            var r := AcceptEach(u, u.pending, t);
            |u.pending| == BACKLOG && |r.waiting| + |r.pending| == 2 * BACKLOG
  {
    var s := Created(maxClients, next);
    EveryoneConnects(s, t);
    hide Scan, Wait, AcceptEach;
    var u := Scan(Wait(s, t), t);
    RawSumWhileRefusing(u, u.pending, t);
  }

  // ---- How many pipes an accept pass makes, for any answers ---------------------------------------

  /** How many of the first i clients are refused. */
  function RefusedBefore(hs: seq<Handle>, t: Tick, i: nat): nat
    requires i <= |hs|
  {
    if i == 0 then 0 else RefusedBefore(hs, t, i - 1) + if t.accepts(hs[i - 1]) then 0 else 1
  }

  /** How many of the first i clients are accepted at a time when the system can make a pipe. */
  function OfferedBefore(hs: seq<Handle>, t: Tick, i: nat): nat
    requires i <= |hs|
  {
    if i == 0 then 0 else OfferedBefore(hs, t, i - 1) + if t.accepts(hs[i - 1]) && t.creates(hs[i - 1]) then 1 else 0
  }

  /** Whether the i-th client brings about a new pipe, told from the state at the start of the pass. */
  predicate Opens(s: State, hs: seq<Handle>, t: Tick, i: nat)
    requires i < |hs|
  {
    && t.accepts(hs[i]) && t.creates(hs[i])
    && |s.waiting| + |s.pending| + RefusedBefore(hs, t, i) + OfferedBefore(hs, t, i) < BACKLOG
    && |s.sockets| + OfferedBefore(hs, t, i) <= s.maxClients && s.maxClients > 0
  }

  function Opened(s: State, hs: seq<Handle>, t: Tick, i: nat): nat
    requires i <= |hs|
  {
    if i == 0 then 0 else Opened(s, hs, t, i - 1) + if Opens(s, hs, t, i - 1) then 1 else 0
  }

  lemma {:induction false} AcceptEachSnoc(s: State, hs: seq<Handle>, h: Handle, t: Tick)
    ensures AcceptEach(s, hs + [h], t) == AcceptOne(AcceptEach(s, hs, t), h, t)
    decreases |hs|
  {
    hide AcceptOne;
    if hs == [] {
      assert hs + [h] == [h];
      assert AcceptEach(AcceptOne(s, h, t), [h][1..], t) == AcceptOne(s, h, t);
    } else {
      AppendToTail(hs, [h]);
      AcceptEachSnoc(AcceptOne(s, hs[0], t), hs[1..], h, t);
    }
  }

  lemma {:induction false} AcceptCounts(s: State, hs: seq<Handle>, t: Tick, i: nat)
    requires i <= |hs|
    ensures var r, n, offered := AcceptEach(s, hs[..i], t), Opened(s, hs, t, i), OfferedBefore(hs, t, i);
            && |r.sockets| == |s.sockets| + n && |r.waiting| == |s.waiting| + RefusedBefore(hs, t, i) + n
            && r.pending == s.pending && r.maxClients == s.maxClients
            && n <= offered && (n == offered || !MayGrow(r))
  {
    if i > 0 {
      AcceptCounts(s, hs, t, i - 1);
      assert hs[..i] == hs[..i - 1] + [hs[i - 1]];
      AcceptEachSnoc(s, hs[..i - 1], hs[i - 1], t);
      hide AcceptEach;
    }
  }

  /** Whatever the answers, the pass makes one pipe for each client that opens one. */
  lemma AcceptMakes(s: State, t: Tick)
    requires t.hooked
    ensures |Accept(s, t).sockets| == |s.sockets| + Opened(s, s.pending, t, |s.pending|)
  {
    AcceptCounts(s, s.pending, t, |s.pending|);
    assert s.pending[..|s.pending|] == s.pending;
  }

  // ---- Serving clients one at a time -----------------------------------------------------------------

  /** A pass in which one client connects and is accepted, and every client stays or every client leaves. */
  function ServeOne(x: Handle, leave: bool): Tick {
    Tick(Nothing, Nothing, h => if h == x then AlreadyConnected else Refused, true, _ => true, _ => true, _ => leave)
  }

  /** Between two passes of `ServeOne`: nothing is pending and no connect is in progress. */
  ghost predicate Calm(s: State) {
    Inv(s) && s.ovmap == {} && s.pending == []
  }

  lemma OnlyItself(s: State, x: Handle)
    requires Inv(s) && x in s.waiting
    ensures Only(s.waiting, {x}) == [x] && |Without(s.waiting, {x})| == |s.waiting| - 1
  {
    MemberOfOne(s, x);
    var w, o := Without(s.waiting, {x}), Only(s.waiting, {x});
    SplitList(s.waiting, {x});
    WithoutOne(s.waiting, x);
    hide Inv, Without, Only;
    assert |multiset(w)| == |multiset(s.waiting)| - 1;
    assert |multiset(w) + multiset(o)| == |multiset(s.waiting)|;
    var y := o[0];
    assert y in o;
  }

  lemma ServeScans(s: State, x: Handle, leave: bool)
    requires Calm(s) && x in s.waiting
    ensures var t := ServeOne(x, leave);
            Scan(Wait(s, t), t) == s.(waiting := Without(s.waiting, {x}), pending := [x])
  {
    OnlyItself(s, x);
    hide Inv, Without, Only;
    var t := ServeOne(x, leave);
    assert Tried(s, t, AlreadyConnected) == {x};
    assert Tried(s, t, Started) == {};
  }

  /**
   The pass up to the verify pass: the client is active, and a pipe is made in its place if the backlog is not full
   and the limit allows it.
   */
  lemma ServeAccepts(s: State, x: Handle, leave: bool) returns (v: State)
    requires Calm(s) && x in s.waiting
    ensures var t := ServeOne(x, leave); v == Accept(Scan(Wait(s, t), t), t) && Pass(s, t) == Verify(v, t)
    ensures Calm(v) && v.active == s.active + {x} && v.closed == s.closed && v.maxClients == s.maxClients
    ensures var made := if MayGrow(s) then 1 else 0;
            && |v.sockets| == |s.sockets| + made && |v.waiting| == |s.waiting| - 1 + made
            && (made == 0 ==> v.sockets == s.sockets)
  {
    var t := ServeOne(x, leave);
    OnlyItself(s, x);
    ServeScans(s, x, leave);
    ScannedInv(s, t);
    hide Inv, Scan, Wait, Without, Verify;
    var u := Scan(Wait(s, t), t);
    v := Accept(u, t);
    AcceptSingle(u, x, t);
    hide Accept, Without;
    assert |u.waiting| + |u.pending| == |s.waiting| + |s.pending|;
  }

  /** The accept pass on a single client who is accepted. */
  lemma AcceptSingle(s: State, h: Handle, t: Tick)
    requires s.pending == [h] && t.hooked && t.accepts(h) && t.creates(h)
    ensures Accept(s, t) ==
            if MayGrow(s) then
              s.(pending := [], active := s.active + {h},
                 sockets := s.sockets + [s.next], waiting := s.waiting + [s.next], next := s.next + 1)
            else s.(pending := [], active := s.active + {h})
  {
    assert [h][1..] == [];
    assert AcceptEach(s, [h], t) == AcceptOne(s, h, t);
  }

  lemma NobodyLost(s: State, t: Tick)
    requires forall h :: !t.gone(h)
    ensures Lost(s, t) == []
  {
    LostInOrder(s, t);
    hide Lost, Increasing;
    var gs := Lost(s, t);
    forall h ensures h !in Elements(gs) {
      assert !t.gone(h);
    }
    assert Elements(gs) == {};
    assert |multiset(gs)| == 0;
  }

  lemma NobodyLeaves(s: State, t: Tick)
    requires Inv(s) && forall h :: !t.gone(h)
    ensures Verify(s, t) == s
  {
    BacklogHolds(s);
    VerifySplits(s, t);
    NobodyLost(s, t);
    EmptyElements();
    hide Inv, Verify, Lost, Elements;
    assert s.waiting + [] == s.waiting && s.closed + [] == s.closed && s.active - {} == s.active;
  }

  /** A pass that serves one client who stays. */
  lemma ServeStep(s: State) returns (t: Tick, v: State)
    requires Calm(s) && s.waiting != []
    ensures v == Pass(s, t) && Calm(v) && v.closed == s.closed && v.maxClients == s.maxClients
    ensures |v.active| == |s.active| + 1
    ensures var made := if MayGrow(s) then 1 else 0;
            && |v.sockets| == |s.sockets| + made && |v.waiting| == |s.waiting| - 1 + made
            && (made == 0 ==> v.sockets == s.sockets)
  {
    var x := s.waiting[0];
    MemberOfOne(s, x);
    t := ServeOne(x, false);
    v := ServeAccepts(s, x, false);
    NobodyLeaves(v, t);
    hide Inv;
  }

  lemma CalmBounds(s: State)
    requires Calm(s)
    ensures s.pending == [] && |s.waiting| <= BACKLOG <= |s.sockets| <= Max(BACKLOG, s.maxClients + 1)
    ensures |s.waiting| + |s.active| + |s.closed| == |s.sockets|
  {
    Counts(s);
  }

  lemma {:induction false} ServeEveryone(s: State) returns (ticks: seq<Tick>)
    requires Calm(s) && s.closed == []
    requires |s.sockets| == Max(BACKLOG, s.maxClients + 1) || |s.waiting| >= BACKLOG - 1
    ensures var r := Run(s, ticks);
            && |r.active| == Max(BACKLOG, s.maxClients + 1)
            && Calm(r) && r.waiting == [] && r.closed == [] && r.maxClients == s.maxClients
    decreases Max(BACKLOG, s.maxClients + 1) - |s.active|
  {
    hide Calm, Pass;
    CalmBounds(s);
    if s.waiting == [] {
      ticks := [];
    } else {
      var t, v := ServeStep(s);
      var rest := ServeEveryone(v);
      ticks := [t] + rest;
      assert ticks[1..] == rest;
    }
  }

  /**
   The bound on active clients is reached for every limit: max_clients does not limit the clients served at a time,
   max(8, max_clients + 1) does.
   */
  lemma ActiveBoundAttained(maxClients: nat, next: Handle) returns (ticks: seq<Tick>)
    ensures |Run(Created(maxClients, next), ticks).active| == Max(BACKLOG, maxClients + 1)
  {
    CreatedCalm(maxClients, next);
    hide Calm, Created;
    ticks := ServeEveryone(Created(maxClients, next));
  }

  lemma EveryoneLeavesAtOnce(s: State) returns (t: Tick)
    requires Calm(s) && s.waiting == [] && |s.active| >= BACKLOG
    ensures |Pass(s, t).closed| == |s.closed| + |s.active| - BACKLOG
  {
    t := ServeOne(0, true);
    NoneScanned(s, t);
    hide Scan, Wait;
    BacklogHolds(s);
    VerifySplits(s, t);
    LostInOrder(s, t);
    hide Inv, Verify, Lost, Increasing, Elements;
    var gs := Lost(s, t);
    assert Elements(gs) == s.active;
    assert |multiset(gs)| == |s.active|;
  }

  lemma NoneScanned(s: State, t: Tick)
    requires Calm(s) && s.waiting == []
    ensures Accept(Scan(Wait(s, t), t), t) == s
  {
    assert Tried(s, t, AlreadyConnected) == {} && Tried(s, t, Started) == {};
    assert s.pending + [] == s.pending;
  }

  /**
   The most that `ClosedHandlesCostCapacity` lets a run lose is lost when all clients there can be are served and
   then leave at once.
   */
  lemma {:induction false} CapacityLossAttained(maxClients: nat, next: Handle) returns (ticks: seq<Tick>)
    ensures var r := Run(Created(maxClients, next), ticks); Inv(r) && r.maxClients == maxClients && LostMost(r)
  {
    CreatedCalm(maxClients, next);
    var s := Created(maxClients, next);
    hide Created, Pass, Inv;
    var first := ServeEveryone(s);
    var u := Run(s, first);
    var t := EveryoneLeavesAtOnce(u);
    PassInv(u, t);
    hide Calm, Run;
    ticks := first + [t];
    RunConcat(s, first, [t]);
    RunSingle(u, t);
  }

  /** As many handles are closed as the client limit lets the server make beyond the first 8. */
  predicate LostMost(s: State) {
    |s.closed| == Max(BACKLOG, s.maxClients + 1) - BACKLOG
  }

  /** From then on exactly 8 handles are open, none is made and none is closed, whatever the clients do. */
  lemma LossIsPermanent(s: State, ticks: seq<Tick>)
    requires Inv(s) && LostMost(s)
    ensures var r := Run(s, ticks);
            |r.waiting| + |r.pending| + |r.active| == BACKLOG && r.closed == s.closed && r.sockets == s.sockets
  {
    RunInv(s, ticks);
    Counts(s);
    Counts(Run(s, ticks));
  }

  lemma RunSingle(s: State, t: Tick)
    ensures Run(s, [t]) == Pass(s, t)
  {
    hide Pass;
    assert [t][1..] == [];
    assert Run(Pass(s, t), []) == Pass(s, t);
  }

  lemma {:induction false} RunConcat(s: State, a: seq<Tick>, b: seq<Tick>)
    ensures Run(s, a + b) == Run(Run(s, a), b)
    decreases |a|
  {
    hide Pass;
    if a == [] {
      assert a + b == b;
    } else {
      AppendToTail(a, b);
      RunConcat(Pass(s, a[0]), a[1..], b);
    }
  }

  // ---- When handles are closed before `close` ---------------------------------------------------------

  /** The verify pass closes a handle if everyone leaves while the backlog is nearly full. */
  lemma EveryoneLeaves(s: State, t: Tick)
    requires Inv(s) && (forall h :: t.gone(h)) && |s.active| > BACKLOG - |s.waiting| - |s.pending|
    ensures |Verify(s, t).closed| > |s.closed|
  {
    BacklogHolds(s);
    VerifySplits(s, t);
    LostInOrder(s, t);
    hide Inv, Verify, Lost, Increasing;
    var gs := Lost(s, t);
    assert Elements(gs) == s.active;
    assert |multiset(gs)| == |s.active|;
  }

  lemma FirstClient(s: State) returns (t: Tick, u: State)
    requires Calm(s) && |s.waiting| == BACKLOG
    ensures u == Pass(s, t) && Calm(u) && u.maxClients == s.maxClients && u.sockets == s.sockets
    ensures |u.waiting| == BACKLOG - 1 && |u.active| == |s.active| + 1
  {
    CalmBounds(s);
    t, u := ServeStep(s);
    hide Calm, Pass;
  }

  lemma SecondClient(s: State) returns (t: Tick)
    requires Calm(s) && |s.waiting| == BACKLOG - 1 && |s.active| == 1 && |s.sockets| <= s.maxClients && s.maxClients > 0
    ensures Pass(s, t).closed != []
  {
    var x := s.waiting[0];
    MemberOfOne(s, x);
    t := ServeOne(x, true);
    var v := ServeAccepts(s, x, true);
    hide Inv, Pass, Verify, Distinct;
    assert |v.active| == 2 && |v.waiting| == BACKLOG - 1;
    EveryoneLeaves(v, t);
  }

  lemma CreatedCalm(maxClients: nat, next: Handle)
    ensures var s := Created(maxClients, next);
            && Calm(s) && |s.waiting| == |s.sockets| == BACKLOG && |s.active| == 0 && s.closed == []
            && s.maxClients == maxClients
  {
    CreatedInv(maxClients, next);
  }

  /** The failing run: one client connects and stays; then a second connects, a ninth pipe is made, and both leave. */
  lemma {:induction false} TwoClientsCloseHandle(maxClients: nat, next: Handle) returns (ticks: seq<Tick>)
    requires maxClients >= BACKLOG
    ensures |ticks| == 2 && Run(Created(maxClients, next), ticks).closed != []
  {
    CreatedCalm(maxClients, next);
    hide Calm, Pass, Created;
    var s := Created(maxClients, next);
    var t, u := FirstClient(s);
    var t' := SecondClient(u);
    ticks := [t, t'];
    assert ticks[1..] == [t'] && [t'][1..] == [];
    assert Run(u, [t']) == Pass(u, t');
  }

  ghost predicate NeverClosed(maxClients: nat, next: Handle, ticks: seq<Tick>) {
    Run(Created(maxClients, next), ticks).closed == []
  }

  /** The verify pass closes no handle, in any run, just when the limit given to `create` is below 8. */
  lemma NothingClosedIff(maxClients: nat, next: Handle)
    ensures (forall ticks :: NeverClosed(maxClients, next, ticks)) <==> maxClients < BACKLOG
  {
    if maxClients < BACKLOG {
      forall ticks ensures NeverClosed(maxClients, next, ticks) {
        ClosedHandlesCostCapacity(maxClients, next, ticks);
      }
    } else {
      var ticks := TwoClientsCloseHandle(maxClients, next);
      assert !NeverClosed(maxClients, next, ticks);
    }
  }

  /** `close` closes everything in `sockets`. After this run every handle has been closed exactly once. */
  ghost predicate ClosedOnce(maxClients: nat, next: Handle, ticks: seq<Tick>) {
    var r := Run(Created(maxClients, next), ticks);
    forall h :: h in r.sockets ==> multiset(r.closed + r.sockets)[h] == 1
  }

  /** No run closes a handle twice just when the limit given to `create` is below 8. */
  lemma ClosedOnceIff(maxClients: nat, next: Handle)
    ensures (forall ticks :: ClosedOnce(maxClients, next, ticks)) <==> maxClients < BACKLOG
  {
    NothingClosedIff(maxClients, next);
    forall ticks ensures ClosedOnce(maxClients, next, ticks) <==> NeverClosed(maxClients, next, ticks) {
      CreatedInv(maxClients, next);
      RunInv(Created(maxClients, next), ticks);
      ClosedAgain(Run(Created(maxClients, next), ticks));
    }
  }

  lemma ClosedAgain(s: State)
    requires Inv(s)
    ensures (forall h :: h in s.sockets ==> multiset(s.closed + s.sockets)[h] == 1) <==> s.closed == []
  {
    if s.closed != [] {
      var h := s.closed[0];
      assert h in multiset(s.closed) && h in multiset(s.sockets);
      assert h in s.sockets && multiset(s.closed + s.sockets)[h] >= 2;
    } else {
      assert s.closed + s.sockets == s.sockets;
    }
  }

  lemma WithoutItself(s: seq<Handle>)
    ensures Without(s, Elements(s)) == []
  {
    WithoutAll(s, Elements(s));
  }

  lemma EmptyElements()
    ensures Elements([]) == {}
  {
  }

  /** The scan at the i-th waiting handle: it is tried unless a connect was in progress when the pass began. */
  lemma ScanAdvances(s: State, t: Tick, i: nat)
    requires Partition(s) && i < |s.waiting|
    ensures var list, started, here := s.waiting, Tried(s, t, Started), Tried(s, t, AlreadyConnected);
            var h, ov := list[i], s.ovmap + (started * Elements(list[..i]));
            && (h !in ov && t.connect(h) == AlreadyConnected <==> h in here)
            && s.ovmap + (started * Elements(list[..i + 1]))
               == (if h !in ov && t.connect(h) == Started then ov + {h} else ov)
            && Only(list[..i + 1], here) == (if h in here then Only(list[..i], here) + [h] else Only(list[..i], here))
  {
    hide Only, Partition;
    var list, h := s.waiting, s.waiting[i];
    MemberAt(list, i, s);
    NextElement(list, i);
    AddOne(list[..i], h, Tried(s, t, AlreadyConnected));
    var seen := Elements(list[..i]);
    assert h !in seen && h in list;
    hide Elements;
    TryOne(s, t, h, seen);
  }

  lemma TryOne(s: State, t: Tick, h: Handle, seen: set<Handle>)
    requires h in s.waiting && h !in seen
    ensures var started, here := Tried(s, t, Started), Tried(s, t, AlreadyConnected);
            var ov := s.ovmap + (started * seen);
            && (h !in ov && t.connect(h) == AlreadyConnected <==> h in here)
            && s.ovmap + (started * (seen + {h})) == (if h !in ov && t.connect(h) == Started then ov + {h} else ov)
  {
  }

  lemma NextElement(list: seq<Handle>, i: nat)
    requires i < |list|
    ensures list[..i + 1] == list[..i] + [list[i]] && Elements(list[..i + 1]) == Elements(list[..i]) + {list[i]}
  {
  }

  /** The state after the first i waiting handles of the scan. */
  ghost predicate Scanned(now: State, before: State, i: nat, toKill: seq<Handle>, t: Tick) {
    && i <= |before.waiting|
    && toKill == Only(before.waiting[..i], Tried(before, t, AlreadyConnected))
    && now == before.(pending := before.pending + toKill,
                      ovmap := before.ovmap + (Tried(before, t, Started) * Elements(before.waiting[..i])))
  }

  lemma ScanBegins(s: State, t: Tick)
    ensures Scanned(s, s, 0, [], t)
  {
    EmptyElements();
    assert s.pending + [] == s.pending;
  }

  lemma ScanEnds(now: State, s: State, toKill: seq<Handle>, t: Tick)
    requires Scanned(now, s, |s.waiting|, toKill, t)
    ensures Elements(toKill) == Tried(s, t, AlreadyConnected)
    ensures now.(waiting := Without(s.waiting, Elements(toKill))) == Scan(s, t)
  {
    hide Only, Without;
    var here := Tried(s, t, AlreadyConnected);
    assert s.waiting[..|s.waiting|] == s.waiting;
    SplitList(s.waiting, here);
    forall h ensures h in toKill <==> h in here {
    }
    assert Elements(toKill) == here;
    assert Tried(s, t, Started) * Elements(s.waiting) == Tried(s, t, Started);
  }

  lemma AcceptUnfolds(s: State, hs: seq<Handle>, i: nat, t: Tick)
    requires i < |hs|
    ensures hs[i..] != [] && hs[i..][0] == hs[i] && hs[i..][1..] == hs[i + 1..]
    ensures AcceptEach(s, hs[i..], t) == AcceptEach(AcceptOne(s, hs[i], t), hs[i + 1..], t)
  {
    hide AcceptOne;
    assert hs[i..][1..] == hs[i + 1..];
  }

  lemma AcceptEnds(hs: seq<Handle>, t: Tick)
    ensures forall s :: AcceptEach(s, hs[|hs|..], t) == s
  {
  }

  /** Nothing is closed before the verify pass. */
  lemma WatchedClosed(s: State, t: Tick)
    ensures Accept(Scan(Wait(s, t), t), t).closed == s.closed
  {
    var u := Scan(Wait(s, t), t);
    AcceptKeepsOthers(u, u.pending, t);
    hide AcceptEach, Without, Only, Tried;
  }

  lemma {:induction false} AcceptKeepsOthers(s: State, hs: seq<Handle>, t: Tick)
    ensures AcceptEach(s, hs, t).closed == s.closed && AcceptEach(s, hs, t).ovmap == s.ovmap
    decreases |hs|
  {
    if hs != [] {
      AcceptKeepsOthers(AcceptOne(s, hs[0], t), hs[1..], t);
    }
  }

  lemma VerifyUnfolds(s: State, hs: seq<Handle>, i: nat, t: Tick)
    requires i < |hs|
    ensures VerifyEach(s, hs[i..], t) == VerifyEach(VerifyOne(s, hs[i], t), hs[i + 1..], t)
  {
    hide VerifyOne;
    assert hs[i..][1..] == hs[i + 1..];
  }

  lemma VerifyEnds(hs: seq<Handle>, t: Tick)
    ensures forall s :: VerifyEach(s, hs[|hs|..], t) == s
  {
  }

  /** CloseHandle was called for exactly the handles that joined `closed`, once each and in the same order. */
  ghost predicate Released(closed0: seq<Handle>, released0: seq<Handle>, closed: seq<Handle>, released: seq<Handle>) {
    closed0 <= closed && released == released0 + closed[|closed0|..]
  }

  lemma ReleasedNothing(closed: seq<Handle>, released: seq<Handle>)
    ensures Released(closed, released, closed, released)
  {
  }

  lemma ReleasedOne(closed: seq<Handle>, released: seq<Handle>, h: Handle)
    ensures Released(closed, released, closed + [h], released + [h])
  {
  }

  lemma ReleasedLater(
    c0: seq<Handle>, r0: seq<Handle>, c1: seq<Handle>, r1: seq<Handle>, c: seq<Handle>, r: seq<Handle>)
    requires Released(c0, r0, c1, r1) && Released(c1, r1, c, r)
    ensures Released(c0, r0, c, r)
  {
    assert c[|c0|..] == c1[|c0|..] + c[|c1|..];
  }

  lemma ReleasedFromNone(r0: seq<Handle>, c: seq<Handle>, r: seq<Handle>)
    requires Released([], r0, c, r)
    ensures r == r0 + c
  {
  }

  // ---- The code ---------------------------------------------------------------------------------

  class PipeServer {
    var isCreated: bool
    var maxClients: nat
    var sockets: seq<Handle>
    var waiting: seq<Handle>
    var pending: seq<Handle>
    var active: set<Handle>
    var ovmap: set<Handle>
    var next: Handle
    ghost var closed: seq<Handle>
    ghost var released: seq<Handle>     // every CloseHandle call ever made

    ghost function Now(): State
      reads this
    {
      State(maxClients, sockets, waiting, pending, active, ovmap, closed, next)
    }

    constructor (next: Handle)
      ensures !isCreated && sockets == waiting == pending == released == [] && active == {} && this.next == next
    {
      isCreated, maxClients, this.next := false, 0, next;
      sockets, waiting, pending, active, ovmap, closed, released := [], [], [], {}, {}, [], [];
    }

    method Close()
      modifies this
      ensures released == old(released) + old(sockets)
      ensures sockets == waiting == pending == [] && active == {} && next == old(next) && closed == []
    {
      var i := 0;
      while i < |sockets|
        invariant 0 <= i <= |sockets|
        invariant sockets == old(sockets) && released == old(released) + old(sockets)[..i] && next == old(next)
      {
        released := released + [sockets[i]];
        i := i + 1;
      }
      assert old(sockets)[..i] == old(sockets);
      sockets, waiting, pending, active, closed := [], [], [], {}, [];
    }

    /** `create`; `made(n)` tells whether the n-th pipe can be made. */
    method Create(limit: nat, made: nat -> bool) returns (ok: bool)
      modifies this
      ensures ok <==> forall n :: 0 <= n < BACKLOG ==> made(n)
      ensures ok ==> Now() == Created(limit, old(next)) && released == old(released) + old(sockets) && isCreated
      ensures !ok ==> sockets == waiting == pending == [] && active == {}
      ensures !ok ==> exists k ::
        && 0 <= k < BACKLOG && !made(k) && next == old(next) + k
        && released == old(released) + old(sockets) + seq(k, i => old(next) + i)
    {
      Close();
      maxClients := limit;
      ghost var base, before := next, released;
      var n := 0;
      while n < BACKLOG
        invariant 0 <= n <= BACKLOG
        invariant forall i :: 0 <= i < n ==> made(i)
        invariant sockets == waiting == seq(n, i => base + i)
        invariant pending == closed == [] && active == {} && next == base + n
        invariant released == before && maxClients == limit
      {
        if !made(n) {
          Close();
          return false;
        }
        sockets, waiting, next := sockets + [next], waiting + [next], next + 1;
        n := n + 1;
      }
      ovmap := {};
      isCreated := true;
      return true;
    }

    /** The connect callback of the overlapped object of handle `h`. */
    method OnConnect(h: Handle)
      requires Inv(Now()) && h in ovmap
      modifies this
      ensures Now() == Connect(old(Now()), h) && released == old(released)
    {
      MemberOfOne(Now(), h);
      var i :| 0 <= i < |waiting| && waiting[i] == h;
      EraseAt(waiting, i);
      waiting := waiting[..i] + waiting[i + 1..];
      pending := pending + [h];
      ovmap := ovmap - {h};
    }

    method WaitPass(t: Tick)
      requires Inv(Now())
      modifies this
      ensures Now() == Wait(old(Now()), t) && released == old(released)
    {
      if |ovmap| > 0 {
        OvmapFits(Now());
        assert 0 < |ovmap| <= MAXIMUM_WAIT_OBJECTS;
        if t.first.Connected? && t.first.handle in ovmap {
          OnConnect(t.first.handle);
        } else if t.second.Connected? && t.second.handle in ovmap {
          OnConnect(t.second.handle);
        }
      }
    }

    /** ConnectNamedPipe on one waiting handle, unless a connect is in progress on it. */
    method TryConnect(h: Handle, t: Tick) returns (connected: bool)
      modifies this
      ensures released == old(released)
      ensures connected <==> h !in old(ovmap) && t.connect(h) == AlreadyConnected
      ensures Now() == old(Now()).(
        pending := if connected then old(pending) + [h] else old(pending),
        ovmap := if h !in old(ovmap) && t.connect(h) == Started then old(ovmap) + {h} else old(ovmap))
    {
      connected := false;
      if h !in ovmap {
        match t.connect(h) {
          case Started => ovmap := ovmap + {h};
          case AlreadyConnected =>
            connected := true;
            pending := pending + [h];
          case Refused =>
        }
      }
    }

    /** The loop body of the scan, at the i-th waiting handle. */
    method ScanNext(ghost before: State, i: nat, toKill: seq<Handle>, t: Tick) returns (more: seq<Handle>)
      requires i < |waiting| && Partition(before) && Scanned(Now(), before, i, toKill, t)
      modifies this
      ensures waiting == old(waiting) && released == old(released) && Scanned(Now(), before, i + 1, more, t)
    {
      hide Only, Partition, Elements, Tried;
      ScanAdvances(before, t, i);
      var connected := TryConnect(waiting[i], t);
      more := if connected then toKill + [waiting[i]] else toKill;
    }

    method ScanPass(t: Tick)
      requires Inv(Now())
      modifies this
      ensures Now() == Scan(old(Now()), t) && released == old(released)
    {
      ghost var before := Now();
      assert Partition(before);
      ScanBegins(before, t);
      hide Inv, Partition, Without, Scanned;
      var toKill: seq<Handle> := [];
      var i := 0;
      while i < |waiting|
        invariant 0 <= i <= |waiting| && waiting == before.waiting && released == old(released)
        invariant Scanned(Now(), before, i, toKill, t)
      {
        toKill := ScanNext(before, i, toKill, t);
        i := i + 1;
      }
      ScanEnds(Now(), before, toKill, t);
      waiting := RemoveEach(waiting, toKill);
    }

    method AcceptHandle(h: Handle, t: Tick)
      modifies this
      ensures Now() == AcceptOne(old(Now()), h, t) && released == old(released)
    {
      if t.accepts(h) {
        var grow := |waiting| + |pending| < BACKLOG && |sockets| <= maxClients && maxClients > 0;
        active := active + {h};
        if grow && t.creates(h) {
          sockets, waiting, next := sockets + [next], waiting + [next], next + 1;
        }
      } else {
        waiting := waiting + [h];
      }
    }

    /** The loop body of the accept pass, at the handle after those in `toKill`. */
    method AcceptNext(toKill: seq<Handle>, t: Tick) returns (more: seq<Handle>)
      requires toKill < pending && Accepting(Now(), pending[|toKill|..])
      modifies this
      ensures pending == old(pending) && released == old(released) && more <= pending && |more| == |toKill| + 1
      ensures Accepting(Now(), pending[|more|..]) && |waiting| + |pending| - |more| <= BACKLOG
      ensures AcceptEach(Now(), pending[|more|..], t) == AcceptEach(old(Now()), old(pending)[|toKill|..], t)
    {
      hide AcceptOne, Accepting, AcceptEach;
      var i := |toKill|;
      AcceptUnfolds(Now(), pending, i, t);
      AcceptOneKeeps(Now(), pending[i..], t);
      AcceptHandle(pending[i], t);
      BacklogWhileAccepting(Now(), pending[i + 1..]);
      more := toKill + [pending[i]];
    }

    method AcceptLoop(t: Tick) returns (toKill: seq<Handle>)
      requires Inv(Now())
      modifies this
      ensures Now() == AcceptEach(old(Now()), old(pending), t) && toKill == pending == old(pending)
      ensures released == old(released)
    {
      assert Accepting(Now(), pending) && |waiting| + |pending| <= BACKLOG;
      hide *;
      AcceptEnds(pending, t);
      toKill := [];
      assert pending[0..] == pending;
      while |toKill| < |pending|
        invariant toKill <= pending == old(pending) && released == old(released)
        invariant Accepting(Now(), pending[|toKill|..])
        invariant |waiting| + |pending| - |toKill| <= BACKLOG
        invariant AcceptEach(Now(), pending[|toKill|..], t) == AcceptEach(old(Now()), old(pending), t)
        decreases |pending| - |toKill|
      {
        toKill := AcceptNext(toKill, t);
      }
    }

    method AcceptPass(t: Tick)
      requires Inv(Now())
      modifies this
      ensures Now() == Accept(old(Now()), t) && released == old(released)
    {
      hide AcceptEach, Without, Elements, Inv;
      if t.hooked {
        var toKill := AcceptLoop(t);
        WithoutItself(pending);
        pending := RemoveEach(pending, toKill);
      }
    }

    method VerifyHandle(h: Handle, t: Tick)
      modifies this
      ensures Now() == VerifyOne(old(Now()), h, t)
      ensures Released(old(closed), old(released), closed, released)
    {
      ReleasedNothing(closed, released);
      hide Released;
      if t.gone(h) {
        if |waiting| + |pending| < BACKLOG {
          waiting := waiting + [h];
        } else {
          ReleasedOne(closed, released, h);
          closed, released := closed + [h], released + [h];
        }
        active := active - {h};
      }
    }

    method VerifyPass(t: Tick)
      modifies this
      ensures Now() == Verify(old(Now()), t)
      ensures Released(old(closed), old(released), closed, released)
    {
      var order := Ascending(active);
      var i := 0;
      ReleasedNothing(closed, released);
      hide VerifyOne, VerifyEach, Released;
      VerifyEnds(order, t);
      while i < |order|
        invariant 0 <= i <= |order|
        invariant VerifyEach(Now(), order[i..], t) == VerifyEach(old(Now()), order, t)
        invariant Released(old(closed), old(released), closed, released)
      {
        VerifyUnfolds(Now(), order, i, t);
        ghost var c, r := closed, released;
        VerifyHandle(order[i], t);
        ReleasedLater(old(closed), old(released), c, r, closed, released);
        i := i + 1;
      }
    }

    /** The body of the watcher loop. */
    method WatchOnce(t: Tick)
      requires Inv(Now())
      modifies this
      ensures Now() == Pass(old(Now()), t) && Inv(Now())
      ensures Released(old(closed), old(released), closed, released)
    {
      PassInv(Now(), t);
      WatchedClosed(Now(), t);
      hide Inv, Wait, Scan, Accept, Verify;
      WaitPass(t);
      ScanPass(t);
      AcceptPass(t);
      VerifyPass(t);
    }

    /** `_watcher`, one tick for each pass. */
    method Watch(ticks: seq<Tick>)
      requires Inv(Now())
      modifies this
      ensures Now() == Run(old(Now()), ticks) && Inv(Now())
      ensures Released(old(closed), old(released), closed, released)
    {
      ReleasedNothing(closed, released);
      hide Inv, Pass, Released;
      var i := 0;
      while i < |ticks|
        invariant 0 <= i <= |ticks|
        invariant Inv(Now())
        invariant Run(Now(), ticks[i..]) == Run(old(Now()), ticks)
        invariant Released(old(closed), old(released), closed, released)
      {
        assert ticks[i..][1..] == ticks[i + 1..];
        ghost var c, r := closed, released;
        WatchOnce(ticks[i]);
        ReleasedLater(old(closed), old(released), c, r, closed, released);
        i := i + 1;
      }
    }

    /**
     The life of a server: `create`, the watcher, `close`. What it closes is what the watcher closed and then
     everything in `sockets`, so `ClosedOnce` says when this is too much.
     */
    method Serve(limit: nat, made: nat -> bool, ticks: seq<Tick>) returns (ok: bool)
      modifies this
      ensures ok <==> forall n :: 0 <= n < BACKLOG ==> made(n)
      ensures ok ==> var r := Run(Created(limit, old(next)), ticks);
        released == old(released) + old(sockets) + (r.closed + r.sockets)
      ensures sockets == waiting == pending == [] && active == {}
    {
      assert Created(limit, next).closed == [];
      CreatedInv(limit, next);
      hide *;
      ok := Create(limit, made);
      if ok {
        ghost var start := released;
        Watch(ticks);
        ReleasedFromNone(start, closed, released);
        ghost var r := Run(Created(limit, old(next)), ticks);
        assert closed == r.closed && sockets == r.sockets;
        Associate(start, r.closed, r.sockets);
        Close();
      }
    }
  }

  /** The loop over `to_kill`. */
  method RemoveEach(list: seq<Handle>, toKill: seq<Handle>) returns (r: seq<Handle>)
    ensures r == Without(list, Elements(toKill))
  {
    r := list;
    WithoutOthers(list, {});
    assert Elements(toKill[..0]) == {};
    for i := 0 to |toKill|
      invariant r == Without(list, Elements(toKill[..i]))
    {
      WithoutTwice(list, Elements(toKill[..i]), {toKill[i]});
      assert Elements(toKill[..i + 1]) == Elements(toKill[..i]) + {toKill[i]};
      r := Without(r, {toKill[i]});
    }
    assert toKill[..|toKill|] == toKill;
  }

  lemma {:induction false} WithoutMiddle(a: seq<Handle>, h: Handle, b: seq<Handle>)
    requires h !in a && h !in b
    ensures Without(a + [h] + b, {h}) == a + b
  {
    if a == [] {
      assert a + [h] + b == [h] + b;
      assert forall x :: x in b ==> x !in {h};
      WithoutOthers(b, {h});
      assert ([h] + b)[1..] == b;
    } else {
      assert h !in a[1..];
      WithoutMiddle(a[1..], h, b);
      var x := a[0];
      assert x in a;
      assert a + [h] + b == [x] + (a[1..] + [h] + b);
      assert [x] + (a[1..] + b) == a + b;
    }
  }

  lemma EraseAt(s: seq<Handle>, i: nat)
    requires i < |s| && multiset(s)[s[i]] <= 1
    ensures s[..i] + s[i + 1..] == Without(s, {s[i]})
  {
    hide Without;
    var h, a, b := s[i], s[..i], s[i + 1..];
    SplitAt(s, i);
    assert multiset(a)[h] == 0 && multiset(b)[h] == 0;
    WithoutMiddle(a, h, b);
  }

  lemma SplitAt(s: seq<Handle>, i: nat)
    requires i < |s|
    ensures s == s[..i] + [s[i]] + s[i + 1..]
    ensures multiset(s) == multiset(s[..i]) + multiset{s[i]} + multiset(s[i + 1..])
  {
    var t := s[..i] + [s[i]];
    assert s == t + s[i + 1..];
  }

  /** A waiting handle occurs nowhere earlier in the list. */
  lemma MemberAt(list: seq<Handle>, i: nat, s: State)
    requires Partition(s) && s.waiting == list && i < |list|
    ensures list[i] !in list[..i] && list[i] in list
  {
    MemberOfOne(s, list[i]);
    SplitAt(list, i);
    assert multiset(list[..i])[list[i]] == 0;
  }
}
