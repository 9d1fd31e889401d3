/**
 One direction of a connection: `write` at the sending end, a pipe that delivers bytes in
 arbitrary pieces, and the reader loop of the receiving end.

 The operating system is an oracle. It decides when bytes arrive, whether a read starts and
 what a wait reports; a read that completes has filled the whole buffer it was given. In particular
 a read that ends with an error is not reported as a success, although the completion routine
 would set the event for it as well.

 A wait reports `Closed` only when the system calls it abandoned, which it does for mutexes alone.
 The reader waits on the events of its overlapped objects, so no run of the program sees that answer.
 The model allows it all the same, and its theorems say what the code would do with it.
 */
module Reader {
  import opened Common
  import opened Framing

  const INVALID_HANDLE: int := -1

  datatype ReadState = Unknown | Header | Content

  /** Which overlapped object the loop waits on; `NoRead` is the empty shared pointer. */
  datatype Waitable = NoRead | HeaderRead | ContentRead

  datatype WaitResult = Success | TimedOut | Closed | Failure

  /** A message handed to the listeners, or a header whose content was never read. */
  datatype Record = Delivered(msg: Message) | Dropped(size: nat)

  datatype State = State(
    handle: int,              // socket_handle
    connected: bool,          // is_connected
    shutdown: bool,           // watcher.shutdown
    aborted: bool,            // a wait was called on the empty pointer
    phase: ReadState,         // state
    buffer: seq<Byte>,        // read_buffer
    waitable: Waitable,       // waitable
    requests: seq<nat>,       // lengths of the reads started and not completed
    unread: seq<Byte>,        // bytes that arrived and were not read
    transit: seq<Byte>,       // bytes written that did not arrive
    wire: seq<Byte>,          // every byte ever written
    accepted: seq<Message>,   // messages whose write succeeded
    log: seq<Record>)

  /** The oracle's answers during one pass of the loop. */
  datatype Tick = Tick(
    listenerHeld: bool,       // a listener exists when a held message is retried
    listenerDone: bool,       // a listener exists when a content read completes
    headerStarts: bool,
    contentStarts: bool,
    first: WaitResult,        // the wait of 0 ms
    second: WaitResult)       // the wait of 1 ms

  datatype Event = Write(msg: Message, taken: bool) | Arrive(count: nat) | Pass(tick: Tick) | Close

  predicate Running(s: State) {
    !s.shutdown && s.handle != INVALID_HANDLE && s.connected && !s.aborted
  }

  /** The state in which `_connect` starts the loop. */
  function Start(handle: int): State {
    State(handle, handle != INVALID_HANDLE, false, false, Unknown, [], NoRead, [], [], [], [], [], [])
  }

  /** The reader's phase, its waitable and the reads in flight agree. */
  predicate Coherent(s: State) {
    match s.phase
    case Unknown => s.waitable == NoRead && (Running(s) ==> s.requests == [])
    case Header => s.waitable == HeaderRead && |s.buffer| == HEADER && s.requests == [HEADER]
    case Content =>
      && |s.buffer| < WIDTH
      && s.waitable != HeaderRead
      && s.requests == if s.waitable == ContentRead then [|s.buffer|] else []
  }

  predicate CanComplete(s: State) {
    |s.requests| > 0 && |s.unread| >= s.requests[0]
  }

  /** A read is reported complete only when its whole buffer could be filled. */
  function Outcome(s: State, w: WaitResult): WaitResult {
    if w == Success && !CanComplete(s) then TimedOut else w
  }

  function Fill(s: State): State
    requires CanComplete(s)
  {
    var n := s.requests[0];
    s.(buffer := s.unread[..n], unread := s.unread[n..], requests := s.requests[1..])
  }

  function StartRead(s: State, phase: ReadState, waitable: Waitable): State {
    s.(phase := phase, waitable := waitable, requests := s.requests + [|s.buffer| % WIDTH])
  }

  function Deliver(s: State): State {
    s.(phase := Unknown, log := s.log + [Delivered(s.buffer)])
  }

  function HeaderDone(s: State, starts: bool): State
    requires Coherent(s) && s.waitable == HeaderRead && CanComplete(s)
  {
    var t := Fill(s);
    var u := t.(buffer := Resize(t.buffer, DecodeSize(t.buffer)));
    if starts then StartRead(u, Content, ContentRead)
    else u.(phase := Unknown, waitable := NoRead, log := u.log + [Dropped(|u.buffer|)])
  }

  function ContentDone(s: State, listener: bool): State
    requires CanComplete(s)
  {
    var t := Fill(s).(waitable := NoRead);
    if listener then Deliver(t) else t
  }

  function WaitError(s: State): State {
    s.(phase := Unknown, waitable := NoRead,
       log := if s.phase == Content then s.log + [Dropped(|s.buffer|)] else s.log)
  }

  function AfterWait(s: State, w: WaitResult, t: Tick): State
    requires Coherent(s) && s.waitable != NoRead
  {
    match Outcome(s, w)
    case Success => if s.waitable == HeaderRead then HeaderDone(s, t.contentStarts) else ContentDone(s, t.listenerDone)
    case Closed => WaitError(s)
    case _ => s
  }

  /** The first half of a pass: start the header read, or retry a held message. */
  function Begin(s: State, t: Tick): (r: State)
    requires Coherent(s) && Running(s)
    ensures Coherent(r) && Running(r)
  {
    match s.phase
    case Unknown =>
      var u := s.(buffer := Resize(s.buffer, HEADER));
      if t.headerStarts then StartRead(u, Header, HeaderRead) else u
    case Header => s
    case Content => if s.waitable == NoRead && t.listenerHeld then Deliver(s) else s
  }

  function Disconnect(s: State): State {
    s.(shutdown := true, connected := false)
  }

  /** The second half: sleep without a read, else wait up to twice. */
  function Await(s: State, t: Tick): (r: State)
    requires Coherent(s) && Running(s)
    ensures Coherent(r)
  {
    if s.waitable == NoRead then s else
    var a := AfterWait(s, t.first, t);
    if Outcome(s, t.first) == Success then a
    else if a.waitable == NoRead then a.(aborted := true)
    else
      var b := AfterWait(a, t.second, t);
      if Outcome(a, t.second) == Closed then Disconnect(b) else b
  }

  /** How many bytes arrive when the system delivers up to `count` of those in transit. */
  function Moved(s: State, count: nat): (n: nat)
    ensures n <= count && n <= |s.transit| && (n == count || n == |s.transit|)
  {
    if count < |s.transit| then count else |s.transit|
  }

  function Step(s: State, e: Event): (r: State)
    requires Coherent(s)
    ensures Coherent(r)
  {
    match e
    case Write(m, taken) =>
      if !taken then s
      else s.(transit := s.transit + Wire(m), wire := s.wire + Wire(m), accepted := s.accepted + [m])
    case Arrive(count) =>
      var n := Moved(s, count);
      s.(unread := s.unread + s.transit[..n], transit := s.transit[n..])
    case Pass(t) => if Running(s) then Await(Begin(s, t), t) else s
    case Close => if s.connected then Disconnect(s) else s
  }

  function Run(s: State, events: seq<Event>): (r: State)
    requires Coherent(s)
    ensures Coherent(r)
    decreases |events|
  {
    if events == [] then s else Run(Step(s, events[0]), events[1..])
  }

  // ---- Every byte is accounted for -----------------------------------------------------

  ghost function Bytes(r: Record): seq<Byte> {
    match r
    case Delivered(m) => Frame(m)
    case Dropped(n) => EncodeSize(n)
  }

  ghost function LogBytes(log: seq<Record>): seq<Byte> {
    if log == [] then [] else Bytes(log[0]) + LogBytes(log[1..])
  }

  /** The bytes taken from the pipe for a message that is not delivered yet. */
  ghost function Held(s: State): seq<Byte> {
    if s.phase != Content then []
    else if s.waitable == ContentRead then EncodeSize(|s.buffer|)
    else Frame(s.buffer)
  }

  ghost predicate Accounted(s: State) {
    && s.wire == LogBytes(s.log) + Held(s) + s.unread + s.transit
    && forall i :: 0 <= i < |s.log| && s.log[i].Delivered? ==> Representable(s.log[i].msg)
  }

  lemma {:induction false} LogBytesAppend(log: seq<Record>, r: Record)
    ensures LogBytes(log + [r]) == LogBytes(log) + Bytes(r)
  {
    hide Bytes;
    if log == [] {
      assert log + [r] == [r];
    } else {
      LogBytesAppend(log[1..], r);
      AppendToTail(log, [r]);
      Associate(Bytes(log[0]), LogBytes(log[1..]), Bytes(r));
    }
  }

  lemma DeliverAccounts(s: State)
    requires Accounted(s) && s.phase == Content && s.waitable == NoRead && |s.buffer| < WIDTH
    ensures Accounted(Deliver(s))
  {
    hide LogBytes, Frame;
    LogBytesAppend(s.log, Delivered(s.buffer));
    var r := Deliver(s);
    assert LogBytes(r.log) + Held(r) == LogBytes(s.log) + Held(s);
  }

  lemma HeaderDoneAccounts(s: State, starts: bool)
    requires Coherent(s) && Accounted(s) && s.waitable == HeaderRead && CanComplete(s)
    ensures Accounted(HeaderDone(s, starts))
  {
    hide LogBytes, EncodeSize, DecodeSize;
    var header := s.unread[..HEADER];
    HeaderReEncodes(header);
    LogBytesAppend(s.log, Dropped(DecodeSize(header)));
    var r := HeaderDone(s, starts);
    assert LogBytes(r.log) + Held(r) == LogBytes(s.log) + header;
    assert s.unread == header + r.unread;
    Regroup(LogBytes(s.log), Held(s), header, r.unread, s.transit);
  }

  lemma ContentDoneAccounts(s: State, listener: bool)
    requires Coherent(s) && Accounted(s) && s.waitable == ContentRead && CanComplete(s)
    ensures Accounted(ContentDone(s, listener))
  {
    hide LogBytes, EncodeSize;
    var t := Fill(s).(waitable := NoRead);
    assert s.unread == t.buffer + t.unread;
    assert Held(t) == Held(s) + t.buffer;
    Regroup(LogBytes(s.log), Held(s), t.buffer, t.unread, s.transit);
    assert Accounted(t);
    DeliverAccounts(t);
  }

  lemma Regroup(l: seq<Byte>, h: seq<Byte>, b: seq<Byte>, u: seq<Byte>, t: seq<Byte>)
    ensures l + h + (b + u) + t == l + (h + b) + u + t
    ensures h == [] ==> l + h + (b + u) + t == (l + b) + u + t
  {
  }

  lemma WaitErrorAccounts(s: State)
    requires Coherent(s) && Accounted(s) && s.waitable != NoRead
    ensures Accounted(WaitError(s))
  {
    hide LogBytes, EncodeSize;
    LogBytesAppend(s.log, Dropped(|s.buffer|));
  }

  lemma AfterWaitAccounts(s: State, w: WaitResult, t: Tick)
    requires Coherent(s) && Accounted(s) && s.waitable != NoRead
    ensures Accounted(AfterWait(s, w, t))
  {
    if Outcome(s, w) == Success {
      if s.waitable == HeaderRead {
        HeaderDoneAccounts(s, t.contentStarts);
      } else {
        ContentDoneAccounts(s, t.listenerDone);
      }
    } else if Outcome(s, w) == Closed {
      WaitErrorAccounts(s);
    }
  }

  lemma PassAccounts(s: State, t: Tick)
    requires Coherent(s) && Running(s) && Accounted(s)
    ensures Accounted(Await(Begin(s, t), t))
  {
    if s.phase == Content && s.waitable == NoRead {
      DeliverAccounts(s);
    }
    var b := Begin(s, t);
    if b.waitable != NoRead {
      AfterWaitAccounts(b, t.first, t);
      var a := AfterWait(b, t.first, t);
      if Outcome(b, t.first) != Success && a.waitable != NoRead {
        AfterWaitAccounts(a, t.second, t);
      }
    }
  }

  lemma ArriveAccounts(s: State, count: nat)
    requires Coherent(s) && Accounted(s)
    ensures Accounted(Step(s, Arrive(count)))
  {
    hide LogBytes, Frame, EncodeSize;
    var r := Step(s, Arrive(count));
    assert Held(r) == Held(s);
    hide Held;
    MoveBytes(LogBytes(s.log) + Held(s), s.unread, s.transit, Moved(s, count));
  }

  lemma MoveBytes(p: seq<Byte>, u: seq<Byte>, t: seq<Byte>, n: nat)
    requires n <= |t|
    ensures p + u + t == p + (u + t[..n]) + t[n..]
  {
    assert t == t[..n] + t[n..];
  }

  lemma WriteAccounts(s: State, m: Message)
    requires Coherent(s) && Accounted(s)
    ensures Accounted(Step(s, Write(m, true)))
  {
    hide LogBytes, Frame, EncodeSize, Wire;
    var r := Step(s, Write(m, true));
    assert Held(r) == Held(s);
    hide Held;
    Associate(LogBytes(s.log) + Held(s) + s.unread, s.transit, Wire(m));
  }

  lemma CloseAccounts(s: State)
    requires Coherent(s) && Accounted(s)
    ensures Accounted(Step(s, Close))
  {
    hide LogBytes, Frame, EncodeSize;
  }

  lemma StepAccounts(s: State, e: Event)
    requires Coherent(s) && Accounted(s)
    ensures Accounted(Step(s, e))
  {
    match e {
      case Write(m, taken) => if taken { WriteAccounts(s, m); }
      case Arrive(count) => ArriveAccounts(s, count);
      case Pass(t) =>
        hide Await, Begin, Accounted;
        if Running(s) {
          PassAccounts(s, t);
        }
      case Close => CloseAccounts(s);
    }
  }

  /** In every run, whatever is written and whatever fails: nothing read is lost without a record. */
  lemma {:induction false} RunAccounts(s: State, events: seq<Event>)
    requires Coherent(s) && Accounted(s)
    ensures Accounted(Run(s, events))
    decreases |events|
  {
    hide Step, Accounted, Coherent;
    if events != [] {
      StepAccounts(s, events[0]);
      RunAccounts(Step(s, events[0]), events[1..]);
    }
  }

  // ---- What the listeners got ----------------------------------------------------------

  /** Everything delivered, in order. */
  function Messages(log: seq<Record>): seq<Message> {
    if log == [] then []
    else (if log[0].Delivered? then [log[0].msg] else []) + Messages(log[1..])
  }

  /** What was delivered before the first header was dropped. */
  function BeforeDrop(log: seq<Record>): seq<Message> {
    if log == [] || log[0].Dropped? then [] else [log[0].msg] + BeforeDrop(log[1..])
  }

  ghost function Drops(log: seq<Record>): nat {
    if log == [] then 0 else (if log[0].Dropped? then 1 else 0) + Drops(log[1..])
  }

  lemma {:induction false} LogLength(log: seq<Record>)
    ensures |LogBytes(log)| == |Frames(Messages(log))| + HEADER * Drops(log)
  {
    hide Frame, EncodeSize;
    if log != [] {
      LogLength(log[1..]);
      var rest := Messages(log[1..]);
      if log[0].Delivered? {
        assert ([log[0].msg] + rest)[1..] == rest;
      } else {
        assert [] + rest == rest;
      }
    }
  }

  lemma {:induction false} LogWithoutDrops(log: seq<Record>)
    requires Drops(log) == 0
    ensures LogBytes(log) == Frames(Messages(log)) && BeforeDrop(log) == Messages(log)
  {
    hide Frame;
    if log != [] {
      LogWithoutDrops(log[1..]);
      var rest := Messages(log[1..]);
      assert ([log[0].msg] + rest)[1..] == rest;
    }
  }

  lemma {:induction false} LogStart(log: seq<Record>)
    ensures Frames(BeforeDrop(log)) <= LogBytes(log)
  {
    hide Frame, EncodeSize;
    if log != [] && log[0].Delivered? {
      LogStart(log[1..]);
      var m, rest := log[0].msg, BeforeDrop(log[1..]);
      assert ([m] + rest)[1..] == rest;
      assert Frame(m) + Frames(rest) <= Frame(m) + LogBytes(log[1..]);
    }
  }

  lemma {:induction false} BeforeDropFits(log: seq<Record>)
    requires forall i :: 0 <= i < |log| && log[i].Delivered? ==> Representable(log[i].msg)
    ensures forall i :: 0 <= i < |BeforeDrop(log)| ==> Representable(BeforeDrop(log)[i])
  {
    if log != [] {
      BeforeDropFits(log[1..]);
    }
  }

  /**
   Delivered frames, the reader's partial frame and the rest of the pipe are the whole stream just when no header was
   dropped.
   */
  lemma StreamCompleteIffNoDrop(s: State)
    requires Accounted(s)
    ensures Frames(Messages(s.log)) + Held(s) + s.unread + s.transit == s.wire <==> Drops(s.log) == 0
  {
    LogLength(s.log);
    if Drops(s.log) == 0 {
      LogWithoutDrops(s.log);
    }
    var x := Frames(Messages(s.log)) + Held(s) + s.unread + s.transit;
    assert |x| == |s.wire| - HEADER * Drops(s.log);
  }

  ghost predicate AllFit(ms: seq<Message>) {
    forall i :: 0 <= i < |ms| ==> Fits(ms[i])
  }

  ghost predicate Framed(s: State) {
    AllFit(s.accepted) ==> s.wire == Frames(s.accepted)
  }

  lemma AfterWaitWritesNothing(s: State, w: WaitResult, t: Tick)
    requires Coherent(s) && s.waitable != NoRead
    ensures var r := AfterWait(s, w, t); r.wire == s.wire && r.accepted == s.accepted
  {
    hide DecodeSize, Resize;
  }

  lemma PassWritesNothing(s: State, t: Tick)
    requires Coherent(s) && Running(s)
    ensures var r := Await(Begin(s, t), t); r.wire == s.wire && r.accepted == s.accepted
  {
    var b := Begin(s, t);
    hide AfterWait, Resize;
    if b.waitable != NoRead {
      AfterWaitWritesNothing(b, t.first, t);
      var a := AfterWait(b, t.first, t);
      if Outcome(b, t.first) != Success && a.waitable != NoRead {
        AfterWaitStalls(b, t.first, t);
        AfterWaitWritesNothing(a, t.second, t);
      }
    }
  }

  /** A wait that neither succeeds nor fails for good leaves everything as it was. */
  lemma AfterWaitStalls(s: State, w: WaitResult, t: Tick)
    requires Coherent(s) && s.waitable != NoRead
    requires Outcome(s, w) != Success && AfterWait(s, w, t).waitable != NoRead
    ensures AfterWait(s, w, t) == s
  {
  }

  lemma WriteFrames(s: State, m: Message)
    requires Framed(s)
    ensures Framed(s.(wire := s.wire + Wire(m), accepted := s.accepted + [m]))
  {
    hide Frames, Frame, Wire, Fits;
    FramesAppend(s.accepted, m);
    var all := s.accepted + [m];
    if AllFit(all) {
      assert all[|s.accepted|] == m;
      WireExactIff(m);
      assert forall i :: 0 <= i < |s.accepted| ==> s.accepted[i] == all[i];
    }
  }

  lemma StepFrames(s: State, e: Event)
    requires Coherent(s) && Framed(s)
    ensures Framed(Step(s, e))
    ensures s.accepted <= Step(s, e).accepted
  {
    hide Frames, Frame, Wire, Await, Begin, Coherent, AllFit;
    if e.Write? && e.taken {
      WriteFrames(s, e.msg);
    } else if e.Pass? && Running(s) {
      PassWritesNothing(s, e.tick);
    }
  }

  lemma {:induction false} RunFrames(s: State, events: seq<Event>)
    requires Coherent(s) && Framed(s)
    ensures Framed(Run(s, events))
    ensures s.accepted <= Run(s, events).accepted
    decreases |events|
  {
    hide Step, Framed, Coherent;
    if events != [] {
      StepFrames(s, events[0]);
      RunFrames(Step(s, events[0]), events[1..]);
    }
  }

  /** The messages whose write was taken. */
  function Taken(events: seq<Event>): seq<Message> {
    if events == [] then []
    else (if events[0].Write? && events[0].taken then [events[0].msg] else []) + Taken(events[1..])
  }

  /** The bytes of the given messages, one after the other, each cut to its length as a DWORD. */
  function Wires(ms: seq<Message>): seq<Byte> {
    if ms == [] then [] else Wire(ms[0]) + Wires(ms[1..])
  }

  lemma {:induction false} WiresConcat(a: seq<Message>, b: seq<Message>)
    ensures Wires(a + b) == Wires(a) + Wires(b)
  {
    hide Wire;
    if a == [] {
      assert a + b == b;
    } else {
      WiresConcat(a[1..], b);
      AppendToTail(a, b);
      Associate(Wire(a[0]), Wires(a[1..]), Wires(b));
    }
  }

  /** What was sent in a run: the messages of the writes that the system took, in order, and nothing for the others. */
  lemma {:induction false} SentIsTaken(s: State, events: seq<Event>)
    requires Coherent(s)
    ensures var r := Run(s, events);
            r.accepted == s.accepted + Taken(events) && r.wire == s.wire + Wires(Taken(events))
    decreases |events|
  {
    hide Coherent, Wire, Wires;
    if events == [] {
      NoWires();
      assert s.accepted + [] == s.accepted && s.wire + [] == s.wire;
    } else {
      var e, later := events[0], Taken(events[1..]);
      var r := Step(s, e);
      StepSends(s, e);
      hide Step;
      SentIsTaken(r, events[1..]);
      var now := if e.Write? && e.taken then [e.msg] else [];
      WiresConcat(now, later);
      Associate(s.accepted, now, later);
      Associate(s.wire, Wires(now), Wires(later));
    }
  }

  lemma NoWires()
    ensures Wires([]) == []
    ensures forall m :: Wires([m]) == Wire(m)
  {
    hide Wire;
  }

  lemma StepSends(s: State, e: Event)
    requires Coherent(s)
    ensures var r, now := Step(s, e), if e.Write? && e.taken then [e.msg] else [];
            r.accepted == s.accepted + now && r.wire == s.wire + Wires(now)
  {
    NoWires();
    assert s.accepted + [] == s.accepted && s.wire + [] == s.wire;
    hide Wires, Wire, Await, Begin;
    if e.Pass? && Running(s) {
      PassWritesNothing(s, e.tick);
    }
  }

  /** In every run, faults included, what is delivered before the first dropped header is a prefix of what was sent. */
  lemma DeliveredBeforeDropIsPrefixOfSent(handle: int, events: seq<Event>)
    requires AllFit(Run(Start(handle), events).accepted)
    ensures var s := Run(Start(handle), events); BeforeDrop(s.log) <= s.accepted
  {
    RunAccounts(Start(handle), events);
    RunFrames(Start(handle), events);
    var s := Run(Start(handle), events);
    LogStart(s.log);
    BeforeDropFits(s.log);
    PrefixFree(BeforeDrop(s.log), s.accepted);
  }

  predicate ContentReadsStart(events: seq<Event>) {
    forall e :: e in events && e.Pass? ==> e.tick.contentStarts
  }

  /** A header is dropped, if at all, as the last thing the reader does. */
  ghost predicate Orderly(s: State) {
    Drops(s.log) == 0 || (!Running(s) && s.log[|s.log| - 1].Dropped? && Drops(s.log[..|s.log| - 1]) == 0)
  }

  lemma {:induction false} DropsConcat(a: seq<Record>, b: seq<Record>)
    ensures Drops(a + b) == Drops(a) + Drops(b)
  {
    if a == [] {
      assert a + b == b;
    } else {
      DropsConcat(a[1..], b);
      assert (a + b)[1..] == a[1..] + b;
    }
  }

  lemma {:induction false} MessagesConcat(a: seq<Record>, b: seq<Record>)
    ensures Messages(a + b) == Messages(a) + Messages(b)
  {
    if a == [] {
      assert a + b == b;
    } else {
      MessagesConcat(a[1..], b);
      AppendToTail(a, b);
      Associate(if a[0].Delivered? then [a[0].msg] else [], Messages(a[1..]), Messages(b));
    }
  }

  lemma {:induction false} BeforeDropStops(a: seq<Record>, size: nat)
    requires Drops(a) == 0
    ensures BeforeDrop(a + [Dropped(size)]) == Messages(a)
  {
    if a == [] {
      assert a + [Dropped(size)] == [Dropped(size)];
    } else {
      BeforeDropStops(a[1..], size);
      assert (a + [Dropped(size)])[1..] == a[1..] + [Dropped(size)];
    }
  }

  /**
   The two ways to drop a header: its content read does not start, or the wait for the content reports a closed
   object. The second would take an abandoned wait, which events never give; what remains is the first.
   */
  predicate MeetsDropGuard(s: State, t: Tick) {
    || (&& (s.phase == Header || (s.phase == Unknown && t.headerStarts))
        && |s.unread| >= HEADER && !t.contentStarts
        && (t.first == Success || (t.first != Closed && t.second == Success)))
    || (&& s.waitable == ContentRead
        && (t.first == Closed || (t.second == Closed && !(t.first == Success && CanComplete(s)))))
  }

  lemma AfterWaitRecords(s: State, w: WaitResult, t: Tick) returns (added: seq<Record>)
    requires Coherent(s) && s.waitable != NoRead
    ensures AfterWait(s, w, t).log == s.log + added && |added| <= 1
    ensures added != [] && added[0].Dropped? <==>
            (s.waitable == HeaderRead && Outcome(s, w) == Success && !t.contentStarts) ||
            (s.waitable == ContentRead && Outcome(s, w) == Closed)
    ensures added != [] && added[0].Delivered? ==> t.listenerDone
  {
    if Outcome(s, w) == Success {
      if s.waitable == HeaderRead {
        added := HeaderRecords(s, t.contentStarts);
      } else {
        added := ContentRecords(s, t.listenerDone);
      }
    } else {
      added := if Outcome(s, w) == Closed && s.phase == Content then [Dropped(|s.buffer|)] else [];
    }
    hide HeaderDone, ContentDone;
  }

  lemma HeaderRecords(s: State, starts: bool) returns (added: seq<Record>)
    requires Coherent(s) && s.waitable == HeaderRead && CanComplete(s)
    ensures HeaderDone(s, starts).log == s.log + added
    ensures if starts then added == [] else |added| == 1 && added[0].Dropped?
  {
    hide DecodeSize, Resize;
    added := HeaderDone(s, starts).log[|s.log|..];
  }

  lemma ContentRecords(s: State, listener: bool) returns (added: seq<Record>)
    requires CanComplete(s)
    ensures ContentDone(s, listener).log == s.log + added
    ensures if listener then |added| == 1 && added[0].Delivered? else added == []
  {
    added := ContentDone(s, listener).log[|s.log|..];
  }

  /** The guard in the second half of a pass, when a read is in flight. */
  predicate AwaitDrops(s: State, t: Tick) {
    || (&& s.waitable == HeaderRead && CanComplete(s) && !t.contentStarts
        && (t.first == Success || (t.first != Closed && t.second == Success)))
    || (&& s.waitable == ContentRead
        && (t.first == Closed || (t.second == Closed && !(t.first == Success && CanComplete(s)))))
  }

  lemma AwaitRecords(s: State, t: Tick) returns (added: seq<Record>)
    requires Coherent(s) && Running(s) && s.waitable != NoRead
    ensures var r := Await(s, t);
            && r.log == s.log + added && |added| <= 1
            && (added != [] && added[0].Dropped? <==> AwaitDrops(s, t))
            && (AwaitDrops(s, t) && t.contentStarts ==> !Running(r))
            && (added != [] && added[0].Delivered? ==> t.listenerDone)
  {
    hide AfterWait, CanComplete;
    added := AfterWaitRecords(s, t.first, t);
    var a := AfterWait(s, t.first, t);
    AfterWaitCloses(s, t.first, t);
    if Outcome(s, t.first) != Success && a.waitable != NoRead {
      AfterWaitStalls(s, t.first, t);
      added := AfterWaitRecords(a, t.second, t);
    }
  }

  lemma GuardAtBegin(s: State, t: Tick)
    requires Coherent(s) && Running(s)
    ensures MeetsDropGuard(s, t) <==> AwaitDrops(Begin(s, t), t)
    ensures Begin(s, t).waitable != NoRead ==> Begin(s, t).log == s.log
  {
    hide Resize;
  }

  /**
   One pass adds at most one record: a message only for a listener, and a dropped header just when the pass meets the
   guard; if content reads start, this is the last act of the reader.
   */
  lemma PassRecords(s: State, t: Tick) returns (added: seq<Record>)
    requires Coherent(s) && Running(s)
    ensures var r := Await(Begin(s, t), t);
            && r.log == s.log + added
            && |added| <= 1
            && (added != [] && added[0].Dropped? <==> MeetsDropGuard(s, t))
            && (MeetsDropGuard(s, t) && t.contentStarts ==> !Running(r))
            && (added != [] && added[0].Delivered? ==> t.listenerHeld || t.listenerDone)
  {
    GuardAtBegin(s, t);
    hide MeetsDropGuard;
    var b := Begin(s, t);
    if b.waitable == NoRead {
      added := b.log[|s.log|..];
    } else {
      added := AwaitRecords(b, t);
      hide Await, Begin;
    }
  }

  lemma AfterWaitCloses(s: State, w: WaitResult, t: Tick)
    requires Coherent(s) && s.waitable != NoRead
    ensures AfterWait(s, w, t).waitable == NoRead && Outcome(s, w) != Success ==> Outcome(s, w) == Closed
    ensures Outcome(s, w) == Closed ==> AfterWait(s, w, t).waitable == NoRead
  {
  }

  /** How many passes of a run meet the guard. */
  function GuardsMet(s: State, events: seq<Event>): nat
    requires Coherent(s)
    decreases |events|
  {
    if events == [] then 0
    else (if events[0].Pass? && Running(s) && MeetsDropGuard(s, events[0].tick) then 1 else 0)
         + GuardsMet(Step(s, events[0]), events[1..])
  }

  lemma StepDrops(s: State, e: Event)
    requires Coherent(s)
    ensures Drops(Step(s, e).log) == Drops(s.log) + if e.Pass? && Running(s) && MeetsDropGuard(s, e.tick) then 1 else 0
  {
    if e.Pass? && Running(s) {
      var added := PassRecords(s, e.tick);
      hide Await, Begin, MeetsDropGuard, Coherent;
      DropsConcat(s.log, added);
      assert added == [] || added == [added[0]];
    }
  }

  /** In every run, one header is dropped for each pass that meets the guard. */
  lemma {:induction false} RunDrops(s: State, events: seq<Event>)
    requires Coherent(s)
    ensures Drops(Run(s, events).log) == Drops(s.log) + GuardsMet(s, events)
    decreases |events|
  {
    hide Step, MeetsDropGuard, Coherent, Drops;
    if events != [] {
      StepDrops(s, events[0]);
      RunDrops(Step(s, events[0]), events[1..]);
    }
  }

  /**
   In every run, delivered frames with what is held, unread and travelling are the whole stream just when no pass
   meets the guard.
   */
  lemma StreamCompleteIffGuardAvoided(handle: int, events: seq<Event>)
    ensures var s := Run(Start(handle), events);
            Frames(Messages(s.log)) + Held(s) + s.unread + s.transit == s.wire <==>
            GuardsMet(Start(handle), events) == 0
  {
    RunAccounts(Start(handle), events);
    RunDrops(Start(handle), events);
    hide Run, GuardsMet, Accounted;
    StreamCompleteIffNoDrop(Run(Start(handle), events));
  }

  lemma DropsOfOneMore(log: seq<Record>, added: seq<Record>)
    requires Drops(log) == 0 && |added| <= 1
    ensures Drops(log + added) == 0 || (added != [] && added[0].Dropped?)
    ensures added != [] ==> (log + added)[|log + added| - 1] == added[0] && (log + added)[..|log + added| - 1] == log
  {
    if added == [] {
      assert log + added == log;
    } else {
      assert added == [added[0]];
      DropsConcat(log, added);
    }
  }

  lemma PassOrderly(s: State, t: Tick)
    requires Coherent(s) && Running(s) && Drops(s.log) == 0 && t.contentStarts
    ensures Orderly(Await(Begin(s, t), t))
  {
    hide Await, Begin, Coherent, Drops, Running, MeetsDropGuard;
    var added := PassRecords(s, t);
    DropsOfOneMore(s.log, added);
  }

  lemma {:induction false} RunOrderly(s: State, events: seq<Event>)
    requires Coherent(s) && Orderly(s) && ContentReadsStart(events)
    ensures Orderly(Run(s, events))
    decreases |events|
  {
    hide Await, Begin, Coherent, Drops;
    if events != [] {
      if events[0].Pass? && Running(s) {
        assert events[0] in events;
        PassOrderly(s, events[0].tick);
      }
      RunOrderly(Step(s, events[0]), events[1..]);
    }
  }

  lemma OrderlyDelivery(s: State)
    requires Orderly(s)
    ensures Messages(s.log) == BeforeDrop(s.log)
  {
    var log := s.log;
    if Drops(log) == 0 {
      LogWithoutDrops(log);
    } else {
      var init, last := log[..|log| - 1], log[|log| - 1];
      assert log == init + [last];
      hide BeforeDrop, Drops;
      BeforeDropStops(init, last.size);
      MessagesConcat(init, [last]);
      assert Messages([last]) == [];
    }
  }

  /**
   Unless a content read fails to start, the delivered messages are a prefix of the sent ones: timeouts, header reads
   that do not start, late listeners, waits that report a closed object and `close` do not matter. A read that fails
   must not look like a success: that is the oracle's contract.
   */
  lemma DeliveredIsPrefixOfSent(handle: int, events: seq<Event>)
    requires AllFit(Run(Start(handle), events).accepted)
    requires ContentReadsStart(events)
    ensures var s := Run(Start(handle), events); Messages(s.log) <= s.accepted
  {
    hide Run, Messages, BeforeDrop;
    DeliveredBeforeDropIsPrefixOfSent(handle, events);
    RunOrderly(Start(handle), events);
    OrderlyDelivery(Run(Start(handle), events));
  }

  // ---- The reader computes the reference decoder -----------------------------------------

  /**
   A pass that loses nothing: a content read starts when asked, and no wait reports a closed object. Reads may time
   out, fail to start or find no listener.
   */
  predicate Harmless(t: Tick) {
    t.contentStarts && t.first != Closed && t.second != Closed
  }

  /** A pass in which moreover everything succeeds and listeners are installed. */
  predicate Good(t: Tick) {
    Harmless(t) && t.listenerHeld && t.listenerDone && t.headerStarts && (t.first == Success || t.second == Success)
  }

  ghost function Stream(s: State): seq<Byte> {
    Held(s) + s.unread
  }

  ghost predicate Stays(s: State, r: State) {
    Stream(r) == Stream(s) && r.log == s.log && (s.phase == Content ==> r.phase == Content)
  }

  ghost predicate Delivers(s: State, r: State) {
    var x := Stream(s);
    && !Incomplete(x) && s.phase == Content && r.phase == Unknown
    && var end := HEADER + DecodeSize(x);
       Stream(r) == x[end..] && r.log == s.log + [Delivered(x[HEADER..end])]
  }

  /**
   What a harmless pass does: it delivers the first message of the stream or leaves stream and log alone. A good pass
   takes a complete message one phase further.
   */
  ghost predicate Proceeds(s: State, t: Tick, r: State) {
    && Running(r) && r.transit == s.transit
    && (Stays(s, r) || Delivers(s, r))
    && (Good(t) && !Incomplete(Stream(s)) ==> if s.phase == Content then Delivers(s, r) else r.phase == Content)
  }

  lemma HarmlessPass(s: State, t: Tick)
    requires Coherent(s) && Running(s) && Harmless(t)
    ensures Proceeds(s, t, Await(Begin(s, t), t))
  {
    hide Await, Begin, Proceeds;
    if s.phase != Content {
      PassOnHeader(s, t);
    } else if s.waitable == ContentRead {
      PassOnContent(s, t);
    } else {
      PassOnHeld(s, t);
    }
  }

  /** A harmless wait completes the read if it can and one of the two waits succeeds, and otherwise changes nothing. */
  lemma HarmlessAwait(s: State, t: Tick)
    requires Coherent(s) && Running(s) && Harmless(t) && s.waitable != NoRead
    ensures Await(s, t) ==
            if !CanComplete(s) || (t.first != Success && t.second != Success) then s
            else if s.waitable == HeaderRead then HeaderDone(s, true) else ContentDone(s, t.listenerDone)
  {
    hide HeaderDone, ContentDone;
  }

  lemma HeaderTaken(s: State)
    requires Coherent(s) && s.waitable == HeaderRead && CanComplete(s)
    ensures var r := HeaderDone(s, true);
            && Stream(r) == s.unread && r.phase == Content && r.log == s.log && r.transit == s.transit
            && (Running(s) ==> Running(r))
  {
    hide EncodeSize, DecodeSize, Frame;
    var h := s.unread[..HEADER];
    HeaderReEncodes(h);
    assert h + s.unread[HEADER..] == s.unread;
  }

  lemma HeaderAsked(s: State, t: Tick)
    requires Coherent(s) && Running(s) && s.phase != Content
    ensures var b := Begin(s, t);
            && Stream(s) == s.unread && |b.buffer| == HEADER
            && b.log == s.log && b.transit == s.transit && b.unread == s.unread
            && if s.phase == Header || t.headerStarts
               then b.waitable == HeaderRead && (CanComplete(b) <==> |s.unread| >= HEADER)
               else b.waitable == NoRead && b.phase == Unknown
  {
    assert [] + s.unread == s.unread;
  }

  lemma PassOnHeader(s: State, t: Tick)
    requires Coherent(s) && Running(s) && Harmless(t) && s.phase != Content
    ensures Proceeds(s, t, Await(Begin(s, t), t))
  {
    HeaderAsked(s, t);
    var b := Begin(s, t);
    if b.waitable == NoRead {
      assert Await(b, t) == b && Stream(b) == s.unread;
    } else {
      hide Begin, Await, HeaderDone, ContentDone, EncodeSize, DecodeSize, Frame, CanComplete;
      HarmlessAwait(b, t);
      if CanComplete(b) {
        HeaderTaken(b);
      }
      assert Stream(b) == s.unread;
    }
  }

  /** A stream that starts with a header: whether the message is complete, and where it lies. */
  lemma AfterHeader(h: seq<Byte>, u: seq<Byte>)
    requires |h| == HEADER
    ensures var x, n := h + u, DecodeSize(h);
            && DecodeSize(x) == n
            && (Incomplete(x) <==> |u| < n)
            && (|u| >= n ==> x[HEADER..HEADER + n] == u[..n] && x[HEADER + n..] == u[n..])
  {
    DecodePrefix(h, u);
    hide DecodeSize;
  }

  lemma ContentTaken(s: State, listener: bool)
    requires Coherent(s) && s.waitable == ContentRead && CanComplete(s)
    ensures var r, n := ContentDone(s, listener), |s.buffer|;
            && n <= |s.unread| && r.transit == s.transit && (Running(s) ==> Running(r))
            && if listener
               then Stream(r) == s.unread[n..] && r.log == s.log + [Delivered(s.unread[..n])] && r.phase == Unknown
               else Stream(r) == EncodeSize(n) + s.unread && r.log == s.log && r.phase == Content
  {
    hide EncodeSize;
    var r, n := ContentDone(s, listener), |s.buffer|;
    if listener {
      assert Held(r) == [] && [] + r.unread == r.unread;
    } else {
      assert s.unread == s.unread[..n] + s.unread[n..];
      assert EncodeSize(n) + s.unread[..n] + s.unread[n..] == EncodeSize(n) + s.unread;
    }
  }

  lemma ContentStream(s: State, t: Tick)
    requires Coherent(s) && Running(s) && s.waitable == ContentRead
    ensures Begin(s, t) == s && s.phase == Content
    ensures var h, n := EncodeSize(|s.buffer|), |s.buffer|;
            Stream(s) == h + s.unread && DecodeSize(h) == n && (CanComplete(s) <==> |s.unread| >= n)
  {
    hide EncodeSize, DecodeSize, Frame;
    HeaderRoundTrip(|s.buffer|);
  }

  lemma PassOnContent(s: State, t: Tick)
    requires Coherent(s) && Running(s) && Harmless(t) && s.waitable == ContentRead
    ensures Proceeds(s, t, Await(Begin(s, t), t))
  {
    hide Coherent, EncodeSize, DecodeSize, Incomplete, Frame, Await, Stream, Begin;
    hide ContentDone, HeaderDone, Running, CanComplete;
    ContentStream(s, t);
    AfterHeader(EncodeSize(|s.buffer|), s.unread);
    HarmlessAwait(s, t);
    if CanComplete(s) {
      ContentTaken(s, t.listenerDone);
    }
  }

  lemma PassOnHeld(s: State, t: Tick)
    requires Coherent(s) && Running(s) && Harmless(t) && s.phase == Content && s.waitable == NoRead
    ensures Proceeds(s, t, Await(Begin(s, t), t))
  {
    FrameHeader(s.buffer, s.unread);
    hide EncodeSize, DecodeSize, Frame;
    var r := Await(Begin(s, t), t);
    assert t.listenerHeld ==> Held(r) == [] && [] + r.unread == r.unread;
  }

  /**
   What a good pass does to a state: it moves on by one phase if its stream starts with a complete frame, and changes
   nothing visible otherwise.
   */
  lemma GoodPass(s: State, t: Tick)
    requires Coherent(s) && Running(s) && Good(t)
    ensures var r := Await(Begin(s, t), t);
            && Running(r) && r.transit == s.transit
            && if Incomplete(Stream(s)) then Stays(s, r)
               else if s.phase != Content then Stays(s, r) && r.phase == Content
               else Delivers(s, r)
  {
    hide Await, Begin, Stays, Stream, Incomplete;
    HarmlessPass(s, t);
  }

  /** Good passes needed until the first n messages of the stream are delivered. */
  function Needed(s: State, n: nat): nat {
    if n > 0 && s.phase == Content then 2 * n - 1 else 2 * n
  }

  /** Good passes needed until every complete message is delivered. */
  ghost function PassesLeft(s: State): nat {
    Needed(s, |Parse(Stream(s)).0|)
  }

  function Deliveries(ms: seq<Message>): seq<Record> {
    if ms == [] then [] else [Delivered(ms[0])] + Deliveries(ms[1..])
  }

  lemma ParseFirst(x: seq<Byte>)
    requires !Incomplete(x)
    ensures var end, ms := HEADER + DecodeSize(x), Parse(x).0;
            && ms != [] && ms[0] == x[HEADER..end]
            && Parse(x[end..]) == (ms[1..], Parse(x).1)
  {
  }

  /**
   The progress measure: no harmless pass raises the number of good passes still needed, a good one lowers it until it
   is 0, and what is delivered is what leaves the stream.
   */
  lemma Progress(s: State, t: Tick)
    requires Coherent(s) && Running(s) && Harmless(t)
    ensures var r := Await(Begin(s, t), t);
            && Running(r) && r.transit == s.transit
            && PassesLeft(r) <= PassesLeft(s) && (Good(t) && PassesLeft(s) > 0 ==> PassesLeft(r) < PassesLeft(s))
            && Parse(Stream(r)).1 == Parse(Stream(s)).1
            && s.log + Deliveries(Parse(Stream(s)).0) == r.log + Deliveries(Parse(Stream(r)).0)
  {
    hide Await, Begin, Stream, Coherent, Running, Harmless;
    HarmlessPass(s, t);
    var r, x := Await(Begin(s, t), t), Stream(s);
    if Delivers(s, r) {
      ParseFirst(x);
      var ms := Parse(x).0;
      hide Parse, Incomplete, DecodeSize;
      Associate(s.log, [Delivered(ms[0])], Deliveries(ms[1..]));
    }
  }

  /** An idle reader spends two good passes on each message, no more and no fewer. */
  lemma {:induction false} TwoPassesPerMessage(s: State, events: seq<Event>)
    requires Coherent(s) && Running(s) && s.phase == Unknown
    requires forall i :: 0 <= i < |events| ==> events[i].Pass? && Good(events[i].tick)
    requires |events| <= 2 * |Parse(Stream(s)).0|
    ensures Run(s, events).log == s.log + Deliveries(Parse(Stream(s)).0[..|events| / 2])
    decreases |events|
  {
    hide Await, Begin, Coherent, Stream, Good, Running, DecodeSize, Incomplete;
    var x, ms := Stream(s), Parse(Stream(s)).0;
    if events == [] {
      assert s.log + Deliveries(ms[..0]) == s.log;
    } else {
      ParseFirst(x);
      GoodPass(s, events[0].tick);
      var u := Step(s, events[0]);
      var more := events[1..];
      if more == [] {
        assert s.log + Deliveries(ms[..0]) == s.log;
      } else {
        GoodPass(u, more[0].tick);
        var w := Step(u, more[0]);
        TwoPassesPerMessage(w, more[1..]);
        var k := |events| / 2;
        assert |more[1..]| / 2 == k - 1;
        assert ms[1..][..k - 1] == ms[..k][1..];
        assert s.log + Deliveries(ms[..k]) == s.log + [Delivered(ms[0])] + Deliveries(ms[..k][1..]);
      }
    }
  }

  // ---- Liveness among writes and arrivals --------------------------------------------------

  /** Nothing closes the socket, and all passes are harmless. */
  predicate Undisturbed(events: seq<Event>) {
    forall i :: 0 <= i < |events| ==> !events[i].Close? && (events[i].Pass? ==> Harmless(events[i].tick))
  }

  function GoodPasses(events: seq<Event>): nat {
    if events == [] then 0 else (if events[0].Pass? && Good(events[0].tick) then 1 else 0) + GoodPasses(events[1..])
  }

  function Arriving(s: State, e: Event): seq<Byte> {
    if e.Arrive? then s.transit[..Moved(s, e.count)] else []
  }

  /** The bytes that arrive during a run. */
  function Arrived(s: State, events: seq<Event>): seq<Byte>
    requires Coherent(s)
    decreases |events|
  {
    if events == [] then [] else Arriving(s, events[0]) + Arrived(Step(s, events[0]), events[1..])
  }

  /** Outside passes, bytes are only ever appended to the stream. */
  lemma TrafficAppends(s: State, e: Event)
    requires Coherent(s) && !e.Close? && !e.Pass?
    ensures var r := Step(s, e);
            && (Running(s) ==> Running(r)) && r.log == s.log && r.phase == s.phase
            && Stream(r) == Stream(s) + Arriving(s, e)
  {
    hide EncodeSize, Frame, Wire;
    if e.Arrive? {
      Associate(Held(s), s.unread, Arriving(s, e));
    }
  }

  /** How many of the first n messages of the stream are still there after a step. */
  ghost function StillAhead(s: State, r: State, n: nat): nat {
    if n > 0 && Delivers(s, r) then n - 1 else n
  }

  lemma StepTowards(s: State, e: Event, n: nat)
    requires Coherent(s) && Running(s) && !e.Close? && (e.Pass? ==> Harmless(e.tick))
    requires n <= |Parse(Stream(s)).0|
    ensures var r := Step(s, e);
            var m, ms, ls := StillAhead(s, r, n), Parse(Stream(s)).0, Parse(Stream(r)).0;
            && Running(r) && m <= |ls|
            && s.log + Deliveries(ms[..n]) <= r.log + Deliveries(ls[..m])
            && Needed(r, m) + (if e.Pass? && Good(e.tick) && n > 0 then 1 else 0) <= Needed(s, n)
  {
    hide Await, Begin, Coherent, Stream, Good, Harmless, Running, DecodeSize, Incomplete, Arriving, Moved, Parse;
    var r, x := Step(s, e), Stream(s);
    var ms := Parse(x).0;
    if e.Pass? {
      HarmlessPass(s, e.tick);
      MessageInParse(x);
      if Delivers(s, r) {
        ParseFirst(x);
        FirstDelivered(s.log, ms, n);
      }
    } else {
      TrafficAppends(s, e);
      ParseAppend(x, Arriving(s, e));
      assert Parse(Stream(r)).0[..n] == ms[..n];
    }
  }

  lemma FirstDelivered(log: seq<Record>, ms: seq<Message>, n: nat)
    requires 0 < |ms| && n <= |ms|
    ensures if n > 0 then log + Deliveries(ms[..n]) == (log + [Delivered(ms[0])]) + Deliveries(ms[1..][..n - 1])
            else log + Deliveries(ms[..n]) <= log + [Delivered(ms[0])]
  {
    if n > 0 {
      assert ms[..n][1..] == ms[1..][..n - 1];
      Associate(log, [Delivered(ms[0])], Deliveries(ms[..n][1..]));
    }
  }

  /**
   From any reachable state and among any writes and arrivals, enough good passes deliver the first n messages
   of the stream.
   */
  lemma {:induction false} FirstMessagesArrive(s: State, events: seq<Event>, n: nat)
    requires Coherent(s) && Running(s) && Undisturbed(events)
    requires n <= |Parse(Stream(s)).0| && GoodPasses(events) >= Needed(s, n)
    ensures s.log + Deliveries(Parse(Stream(s)).0[..n]) <= Run(s, events).log
    decreases |events|
  {
    hide Step, Coherent, Stream, Good, Harmless, Running, Parse, Delivers;
    if events == [] {
      assert s.log + Deliveries(Parse(Stream(s)).0[..0]) == s.log;
    } else {
      var e, r := events[0], Step(s, events[0]);
      var m := StillAhead(s, r, n);
      StepTowards(s, e, n);
      hide Deliveries, StillAhead;
      FirstMessagesArrive(r, events[1..], m);
    }
  }

  lemma MessageInParse(x: seq<Byte>)
    ensures Parse(x).0 != [] <==> !Incomplete(x)
  {
  }

  lemma {:induction false} DeliveriesConcat(a: seq<Message>, b: seq<Message>)
    ensures Deliveries(a + b) == Deliveries(a) + Deliveries(b)
  {
    if a == [] {
      assert a + b == b;
    } else {
      DeliveriesConcat(a[1..], b);
      AppendToTail(a, b);
      Associate([Delivered(a[0])], Deliveries(a[1..]), Deliveries(b));
    }
  }

  /** What a pass delivers leaves the stream, whatever bytes follow. */
  lemma PassConserves(s: State, t: Tick, y: seq<Byte>)
    requires Coherent(s) && Running(s) && Harmless(t)
    ensures var r := Step(s, Pass(t));
            && Running(r)
            && s.log + Deliveries(Parse(Stream(s) + y).0) == r.log + Deliveries(Parse(Stream(r) + y).0)
            && Parse(Stream(r) + y).1 == Parse(Stream(s) + y).1
  {
    hide Await, Begin, Stream, Coherent, Running, Harmless, Parse, Deliveries;
    Progress(s, t);
    var r := Step(s, Pass(t));
    ParseAppend(Stream(s), y);
    ParseAppend(Stream(r), y);
    var later := Parse(Parse(Stream(s)).1 + y).0;
    DeliveriesConcat(Parse(Stream(s)).0, later);
    DeliveriesConcat(Parse(Stream(r)).0, later);
    Associate(s.log, Deliveries(Parse(Stream(s)).0), Deliveries(later));
    Associate(r.log, Deliveries(Parse(Stream(r)).0), Deliveries(later));
  }

  /**
   Among any writes and arrivals, what is delivered and what the stream still holds are all that the decoder finds.
   */
  lemma {:induction false} RunConserves(s: State, events: seq<Event>)
    requires Coherent(s) && Running(s) && Undisturbed(events)
    ensures var r, x := Run(s, events), Stream(s) + Arrived(s, events);
            && Running(r)
            && s.log + Deliveries(Parse(x).0) == r.log + Deliveries(Parse(Stream(r)).0)
            && Parse(Stream(r)).1 == Parse(x).1
    decreases |events|
  {
    hide Step, Coherent, Stream, Running, Parse, Deliveries, Harmless, Arriving;
    if events == [] {
      assert Stream(s) + [] == Stream(s);
    } else {
      var e, r := events[0], Step(s, events[0]);
      var y := Arrived(r, events[1..]);
      if e.Pass? {
        PassConserves(s, e.tick, y);
        NothingArrives(s, e);
        assert [] + y == y;
      } else {
        TrafficAppends(s, e);
        Associate(Stream(s), Arriving(s, e), y);
      }
      RunConserves(r, events[1..]);
    }
  }

  lemma NothingArrives(s: State, e: Event)
    requires !e.Arrive?
    ensures Arriving(s, e) == []
  {
  }

  /**
   Stalls only delay. On any byte stream, from any reachable state and among any writes and arrivals, harmless
   passes with enough good ones among them, in any order, deliver what the reference decoder finds and nothing it
   does not find with the bytes that arrive meanwhile. If none arrive, the reader keeps just what the decoder leaves.
   */
  lemma {:induction false} ReaderComputesParse(s: State, events: seq<Event>)
    requires Coherent(s) && Running(s) && Undisturbed(events)
    requires GoodPasses(events) >= PassesLeft(s)
    ensures var r, y, (ms, rest) := Run(s, events), Arrived(s, events), Parse(Stream(s));
            && Running(r)
            && s.log + Deliveries(ms) <= r.log <= s.log + Deliveries(Parse(Stream(s) + y).0)
            && (y == [] ==> r.log == s.log + Deliveries(ms) && Stream(r) == rest)
  {
    var r, y, x := Run(s, events), Arrived(s, events), Stream(s);
    var ms := Parse(x).0;
    hide Run, Arrived, Stream, Coherent, Running, Undisturbed, GoodPasses, Parse;
    RunConserves(s, events);
    FirstMessagesArrive(s, events, |ms|);
    assert ms[..|ms|] == ms;
    if y == [] {
      assert x + [] == x;
      assert Deliveries(Parse(Stream(r)).0) == [];
      FramesInvertParse(Stream(r));
      assert [] + Parse(Stream(r)).1 == Parse(Stream(r)).1;
    }
  }

  // ---- A measure for every read -------------------------------------------------------------

  /** What is left to read: the bytes that arrived, and the content read that may still complete with none. */
  function Work(s: State): nat {
    |s.unread| + if s.waitable == ContentRead then 1 else 0
  }

  /** A read completes in the pass. */
  predicate Completes(s: State, t: Tick)
    requires Coherent(s) && Running(s)
  {
    CanComplete(Begin(s, t)) && (t.first == Success || (t.first != Closed && t.second == Success))
  }

  lemma WaitSpends(s: State, w: WaitResult, t: Tick)
    requires Coherent(s) && s.waitable != NoRead
    ensures Work(AfterWait(s, w, t)) <= Work(s)
    ensures Outcome(s, w) == Success ==> Work(AfterWait(s, w, t)) < Work(s)
  {
    hide DecodeSize, Resize;
  }

  /**
   No pass adds work, and each one in which a read completes, of a header or of a content of any size, takes some
   away.
   */
  lemma PassSpends(s: State, t: Tick)
    requires Coherent(s) && Running(s)
    ensures Work(Await(Begin(s, t), t)) + (if Completes(s, t) then 1 else 0) <= Work(s)
  {
    var b := Begin(s, t);
    assert Work(b) <= Work(s);
    hide Begin, AfterWait, Work;
    if b.waitable != NoRead {
      WaitSpends(b, t.first, t);
      var a := AfterWait(b, t.first, t);
      AfterWaitCloses(b, t.first, t);
      if Outcome(b, t.first) != Success && a.waitable != NoRead {
        AfterWaitStalls(b, t.first, t);
        WaitSpends(a, t.second, t);
      }
    }
  }

  /** How many reads complete in a run. */
  function Completions(s: State, events: seq<Event>): nat
    requires Coherent(s)
    decreases |events|
  {
    if events == [] then 0
    else (if events[0].Pass? && Running(s) && Completes(s, events[0].tick) then 1 else 0)
         + Completions(Step(s, events[0]), events[1..])
  }

  lemma StepSpends(s: State, e: Event)
    requires Coherent(s)
    ensures Work(Step(s, e)) + (if e.Pass? && Running(s) && Completes(s, e.tick) then 1 else 0)
            <= Work(s) + |Arriving(s, e)|
  {
    if e.Pass? && Running(s) {
      PassSpends(s, e.tick);
    }
    hide Await, Begin, Completes, Coherent, Wire;
  }

  /**
   In every run, faults included, the completed reads number at most the work at the start and the bytes that arrive.
   */
  lemma {:induction false} CompletionsAreBounded(s: State, events: seq<Event>)
    requires Coherent(s)
    ensures Work(Run(s, events)) + Completions(s, events) <= Work(s) + |Arrived(s, events)|
    decreases |events|
  {
    hide Step, Work, Completes, Coherent, Arriving, Running;
    if events != [] {
      StepSpends(s, events[0]);
      CompletionsAreBounded(Step(s, events[0]), events[1..]);
    }
  }

  lemma {:induction false} MessagesOfDeliveries(ms: seq<Message>)
    ensures Messages(Deliveries(ms)) == ms
  {
    if ms != [] {
      MessagesOfDeliveries(ms[1..]);
      assert Deliveries(ms)[1..] == Deliveries(ms[1..]);
    }
  }

  /**
   A running reader that followed an orderly run still has ahead of it exactly the frames of the messages not
   delivered yet.
   */
  lemma StreamIsUndelivered(s: State)
    requires Accounted(s) && Framed(s) && Orderly(s) && Running(s)
    requires AllFit(s.accepted) && Messages(s.log) <= s.accepted
    ensures Stream(s) + s.transit == Frames(s.accepted[|Messages(s.log)|..])
  {
    hide Held, Messages, Frames, LogBytes, Drops;
    StreamCompleteIffNoDrop(s);
    SuffixOfFrames(s.accepted, Messages(s.log), Held(s), s.unread, s.transit);
  }

  lemma SuffixOfFrames(all: seq<Message>, got: seq<Message>, h: seq<Byte>, u: seq<Byte>, t: seq<Byte>)
    requires got <= all && Frames(got) + h + u + t == Frames(all)
    ensures h + u + t == Frames(all[|got|..])
  {
    hide Frames;
    var ms := all[|got|..];
    assert all == got + ms;
    FramesConcat(got, ms);
    assert Frames(got) + h + u + t == Frames(got) + (h + u + t);
    assert h + u + t == (Frames(got) + (h + u + t))[|Frames(got)|..];
  }

  lemma UndeliveredFits(all: seq<Message>, n: nat)
    requires AllFit(all) && n <= |all|
    ensures forall i :: 0 <= i < |all[n..]| ==> Representable(all[n..][i])
  {
    forall i | 0 <= i < |all[n..]| ensures Representable(all[n..][i]) {
      assert all[n..][i] == all[n + i];
    }
  }

  /** The frames of the first n messages have arrived. */
  ghost predicate HaveArrived(s: State, n: nat)
    requires n <= |s.accepted|
  {
    |Frames(s.accepted[..n])| + |s.transit| <= |s.wire|
  }

  lemma UndeliveredHaveArrived(s: State, n: nat)
    requires Accounted(s) && Framed(s) && Orderly(s) && Running(s)
    requires AllFit(s.accepted) && Messages(s.log) <= s.accepted
    requires |Messages(s.log)| <= n <= |s.accepted| && HaveArrived(s, n)
    ensures var ms, k := s.accepted[|Messages(s.log)|..], n - |Messages(s.log)|;
            Stream(s) <= Frames(ms) && |Frames(ms[..k])| <= |Stream(s)|
  {
    hide Accounted, Orderly, Running, AllFit, Messages, Frames, Stream;
    StreamIsUndelivered(s);
    var ms, k := s.accepted[|Messages(s.log)|..], n - |Messages(s.log)|;
    FramesConcat(ms[..k], ms[k..]);
    FramesConcat(s.accepted[..n], s.accepted[n..]);
    assert ms == ms[..k] + ms[k..] && s.accepted == s.accepted[..n] + s.accepted[n..];
    assert ms[k..] == s.accepted[n..];
  }

  lemma MessagesGrow(a: seq<Record>, b: seq<Record>)
    requires a <= b
    ensures Messages(a) <= Messages(b)
  {
    MessagesConcat(a, b[|a|..]);
    assert b == a + b[|a|..];
  }

  lemma {:induction false} DrainDelivers(s: State, events: seq<Event>, n: nat)
    requires Coherent(s) && Accounted(s) && Framed(s) && Orderly(s) && Running(s)
    requires AllFit(s.accepted) && Messages(s.log) <= s.accepted
    requires n <= |s.accepted| && HaveArrived(s, n)
    requires Undisturbed(events) && GoodPasses(events) >= 2 * (n - |Messages(s.log)|)
    ensures s.accepted[..n] <= Messages(Run(s, events).log)
  {
    hide Accounted, Framed, Orderly, Running, Coherent, Frames, Undisturbed, GoodPasses, Messages, Parse;
    hide Run, Deliveries, Stream, Fits, HaveArrived;
    var got, k := |Messages(s.log)|, Max(0, n - |Messages(s.log)|);
    var ms := s.accepted[got..];
    if k > 0 {
      UndeliveredFits(s.accepted, got);
      UndeliveredHaveArrived(s, n);
      ParseFindsArrived(Stream(s), ms, k);
    }
    FirstMessagesArrive(s, events, k);
    assert k > 0 ==> Parse(Stream(s)).0[..k] == ms[..k];
    MessagesGrow(s.log + Deliveries(Parse(Stream(s)).0[..k]), Run(s, events).log);
    MessagesConcat(s.log, Deliveries(Parse(Stream(s)).0[..k]));
    if k > 0 {
      MessagesOfDeliveries(ms[..k]);
      assert s.accepted[..n] == Messages(s.log) + ms[..k];
    }
  }

  lemma {:induction false} RunConcat(s: State, a: seq<Event>, b: seq<Event>)
    requires Coherent(s)
    ensures Run(s, a + b) == Run(Run(s, a), b)
    decreases |a|
  {
    hide Step, Coherent;
    if a == [] {
      assert a + b == b;
    } else {
      AppendToTail(a, b);
      RunConcat(Step(s, a[0]), a[1..], b);
    }
  }

  /**
   After any run that kept going, with every content read started, each message whose frame has arrived is delivered
   within two good passes a message, among any writes, arrivals and harmless passes. Nothing is delivered that was
   not sent.
   */
  lemma {:induction false} ArrivedMessagesAreDelivered(handle: int, before: seq<Event>, after: seq<Event>, n: nat)
    requires var s := Run(Start(handle), before);
             Running(s) && AllFit(s.accepted) && n <= |s.accepted| && HaveArrived(s, n)
    requires ContentReadsStart(before) && Undisturbed(after)
    requires GoodPasses(after) >= 2 * (n - |Messages(Run(Start(handle), before).log)|)
    ensures var s := Run(Start(handle), before);
            var r := Run(s, after);
            && s.accepted[..n] <= Messages(r.log)
            && (AllFit(r.accepted) ==> Messages(r.log) <= r.accepted)
  {
    var s := Run(Start(handle), before);
    DeliveredIsPrefixOfSent(handle, before);
    RunOrderly(Start(handle), before);
    RunAccounts(Start(handle), before);
    RunFrames(Start(handle), before);
    hide Run, Undisturbed, GoodPasses, Messages, HaveArrived, ContentReadsStart;
    DrainDelivers(s, after, n);
    if AllFit(Run(s, after).accepted) {
      RunConcat(Start(handle), before, after);
      ContentReadsStartThroughout(before, after);
      DeliveredIsPrefixOfSent(handle, before + after);
    }
  }

  lemma ContentReadsStartThroughout(before: seq<Event>, after: seq<Event>)
    requires ContentReadsStart(before) && Undisturbed(after)
    ensures ContentReadsStart(before + after)
  {
  }

  /**
   Once everything written has arrived, enough good passes deliver exactly what was sent if nothing more is written.
   */
  lemma {:induction false} EverythingSentArrives(handle: int, before: seq<Event>, after: seq<Event>)
    requires var s := Run(Start(handle), before);
             && Running(s) && AllFit(s.accepted) && s.transit == []
             && Run(s, after).accepted == s.accepted
             && GoodPasses(after) >= 2 * (|s.accepted| - |Messages(s.log)|)
    requires ContentReadsStart(before) && Undisturbed(after)
    ensures var s := Run(Start(handle), before); Messages(Run(s, after).log) == s.accepted
  {
    var s := Run(Start(handle), before);
    RunFrames(Start(handle), before);
    hide Run, Undisturbed, GoodPasses, Messages, ContentReadsStart;
    assert s.accepted[..|s.accepted|] == s.accepted;
    ArrivedMessagesAreDelivered(handle, before, after, |s.accepted|);
  }

  /**
   Why content reads must start: send the frame of any message `b` as a message, let its content read fail to start,
   and the reader delivers `b`, which was never sent.
   */
  lemma {:induction false} FailedContentReadForgesMessage(handle: int, b: Message, good: Tick)
    requires handle != INVALID_HANDLE && Fits(Frame(b)) && Good(good)
    ensures var events := [Write(Frame(b), true), Arrive(|Frame(Frame(b))|), Pass(good.(contentStarts := false))];
            var s := Run(Start(handle), events);
            var r := Run(s, [Pass(good), Pass(good)]);
            s.accepted == [Frame(b)] && Running(r) && Messages(r.log) == [b] && b != Frame(b)
  {
    var m, fail := Frame(b), good.(contentStarts := false);
    var events := [Write(m, true), Arrive(|Frame(m)|), Pass(fail)];
    var s := Run(Start(handle), events);
    RunThree(Start(handle), events);
    WireExactIff(m);
    hide Frame, Wire, Await, Begin, Run;
    var s2 := Step(Step(Start(handle), events[0]), events[1]);
    assert s2.unread == Frame(m);
    ForgingPass(s2, b, fail);
    DrainForged(s, b, good);
    FrameHeader(b, []);
  }

  lemma RunThree(s: State, events: seq<Event>)
    requires Coherent(s) && |events| == 3
    ensures Run(s, events) == Step(Step(Step(s, events[0]), events[1]), events[2])
  {
    hide Step, Coherent;
    var u := Step(s, events[0]);
    var v := Step(u, events[1]);
    assert events[1..][1..] == events[2..] && events[2..][1..] == [];
    assert Run(v, events[2..]) == Step(v, events[2]);
    assert Run(u, events[1..]) == Run(v, events[2..]);
  }

  lemma {:induction false} DrainForged(s: State, b: Message, good: Tick)
    requires Coherent(s) && Running(s) && s.phase == Unknown && s.unread == Frame(b) && Representable(b)
    requires Messages(s.log) == [] && Good(good)
    ensures var r := Run(s, [Pass(good), Pass(good)]); Running(r) && Messages(r.log) == [b]
  {
    var events := [Pass(good), Pass(good)];
    TwoGoodPasses(s, good);
    assert Frames([b]) == Frame(b);
    assert Stream(s) == Frame(b);
    ParseOfFrames([b]);
    hide Frame, Coherent, Running, Undisturbed, GoodPasses, Stream, Frames, Parse, Arrived;
    ReaderComputesParse(s, events);
    MessagesOfDeliveries([b]);
    MessagesConcat(s.log, Deliveries([b]));
  }

  lemma TwoGoodPasses(s: State, good: Tick)
    requires Coherent(s) && Good(good)
    ensures var events := [Pass(good), Pass(good)];
            Undisturbed(events) && GoodPasses(events) == 2 && Arrived(s, events) == []
  {
    hide Step, Coherent;
    var events := [Pass(good), Pass(good)];
    var u := Step(s, events[0]);
    assert events[1..] == [Pass(good)] && events[1..][1..] == [];
    assert GoodPasses(events[1..]) == 1;
    assert Arrived(Step(u, events[1]), []) == [];
    assert Arrived(u, events[1..]) == [];
  }

  lemma ForgingPass(s: State, b: Message, t: Tick)
    requires Coherent(s) && Running(s) && s.phase == Unknown && s.unread == Frame(Frame(b)) && Representable(Frame(b))
    requires t.headerStarts && !t.contentStarts
    requires t.first == Success || (t.first != Closed && t.second == Success)
    ensures var r := Step(s, Pass(t));
            && Running(r) && r.phase == Unknown && r.unread == Frame(b)
            && r.log == s.log + [Dropped(|Frame(b)|)] && r.accepted == s.accepted
  {
    HeaderAsked(s, t);
    PassWritesNothing(s, t);
    var u := Begin(s, t);
    hide EncodeSize, DecodeSize, Begin;
    assert |Frame(Frame(b))| >= HEADER;
    HeaderAwait(u, t);
    hide Await, CanComplete;
    HeaderLost(u, Frame(b));
  }

  lemma HeaderAwait(s: State, t: Tick)
    requires Coherent(s) && Running(s) && s.waitable == HeaderRead && CanComplete(s)
    requires t.first == Success || (t.first != Closed && t.second == Success)
    ensures Await(s, t) == HeaderDone(s, t.contentStarts)
  {
    hide HeaderDone, ContentDone;
  }

  /** A header whose content read does not start: its four bytes are gone. */
  lemma HeaderLost(s: State, m: Message)
    requires Coherent(s) && s.waitable == HeaderRead && s.unread == Frame(m) && Representable(m) && CanComplete(s)
    ensures var r := HeaderDone(s, false);
            r.phase == Unknown && r.unread == m && r.log == s.log + [Dropped(|m|)] && (Running(s) ==> Running(r))
  {
    HeaderRoundTrip(|m|);
    hide EncodeSize, DecodeSize;
    assert s.unread[..HEADER] == EncodeSize(|m|);
    assert s.unread[HEADER..] == m;
  }

  // ---- Listeners ---------------------------------------------------------------------------

  /** Without a listener nothing is delivered. */
  lemma {:induction false} SilentWithoutListener(s: State, events: seq<Event>)
    requires Coherent(s)
    requires forall i :: 0 <= i < |events| && events[i].Pass? ==>
      !events[i].tick.listenerHeld && !events[i].tick.listenerDone
    ensures Messages(Run(s, events).log) == Messages(s.log)
    decreases |events|
  {
    if events != [] {
      var r := Step(s, events[0]);
      if events[0].Pass? && Running(s) {
        var added := PassRecords(s, events[0].tick);
        hide Await, Begin;
        MessagesConcat(s.log, added);
        assert added == [] || added == [added[0]];
      }
      hide Step, Coherent;
      SilentWithoutListener(r, events[1..]);
    }
  }

  // ---- Close ---------------------------------------------------------------------------------

  /** After `close` nothing is read, delivered or dropped any more, whatever else happens. */
  lemma {:induction false} NothingAfterClose(s: State, events: seq<Event>)
    requires Coherent(s) && s.connected
    ensures var r := Run(s, [Close] + events);
            && !r.connected && r.shutdown && !Running(r) && r.handle == s.handle
            && r.log == s.log && r.requests == s.requests && s.unread <= r.unread
            && r.phase == s.phase && r.waitable == s.waitable && r.buffer == s.buffer && r.aborted == s.aborted
  {
    var u := Step(s, Close);
    assert ([Close] + events)[1..] == events;
    StoppedStays(u, events);
  }

  /** A socket that is not connected has nothing to close. */
  lemma CloseTwice(s: State)
    requires Coherent(s)
    ensures !s.connected ==> Step(s, Close) == s
    ensures Step(Step(s, Close), Close) == Step(s, Close)
  {
  }

  /** Once its loop has ended, the reader keeps everything as it is but for bytes that arrive. */
  lemma {:induction false} StoppedStays(s: State, events: seq<Event>)
    requires Coherent(s) && !Running(s)
    ensures var r := Run(s, events);
            && !Running(r) && (!s.connected ==> !r.connected) && (s.shutdown ==> r.shutdown) && r.handle == s.handle
            && r.log == s.log && r.requests == s.requests && s.unread <= r.unread
            && r.phase == s.phase && r.waitable == s.waitable && r.buffer == s.buffer && r.aborted == s.aborted
    decreases |events|
  {
    hide Coherent, Wire, Await, Begin;
    if events != [] {
      StoppedStays(Step(s, events[0]), events[1..]);
    }
  }

  /**
   What ends the loop, other than `close`: a wait that reports a closed object, which only an abandoned wait does.
   The read that was waited for stays in flight.
   */
  lemma PassStopsIff(s: State, t: Tick)
    requires Coherent(s) && Running(s)
    ensures var b := Begin(s, t);
            !Running(Step(s, Pass(t))) <==>
            && b.waitable != NoRead
            && (t.first == Closed || (t.second == Closed && !(t.first == Success && CanComplete(b))))
    ensures var r := Step(s, Pass(t));
            Running(r) || ((r.aborted || (r.shutdown && !r.connected)) && r.requests == Begin(s, t).requests)
  {
    var b := Begin(s, t);
    hide HeaderDone, ContentDone, CanComplete, Begin;
    if b.waitable != NoRead {
      AfterWaitRuns(b, t.first, t);
      var a := AfterWait(b, t.first, t);
      AfterWaitCloses(b, t.first, t);
      if Outcome(b, t.first) != Success && a.waitable != NoRead {
        AfterWaitStalls(b, t.first, t);
        AfterWaitRuns(a, t.second, t);
      }
    }
  }

  lemma AfterWaitRuns(s: State, w: WaitResult, t: Tick)
    requires Coherent(s) && Running(s) && s.waitable != NoRead
    ensures Running(AfterWait(s, w, t))
  {
    hide DecodeSize, Resize;
  }

  /** The loop starts just for a valid handle; without one nothing is ever read, whatever is called. */
  lemma StartRunsIff(handle: int, events: seq<Event>)
    ensures Running(Start(handle)) <==> handle != INVALID_HANDLE
    ensures var r := Run(Start(handle), events);
            handle == INVALID_HANDLE ==> !r.connected && !Running(r) && r.log == [] && r.requests == []
  {
    if handle == INVALID_HANDLE {
      StoppedStays(Start(handle), events);
    }
  }

  /** A message held back for want of a listener is delivered as soon as there is one, whatever the system answers. */
  lemma HeldIsRetried(s: State, t: Tick)
    requires Coherent(s) && Running(s) && s.phase == Content && s.waitable == NoRead
    ensures var r := Step(s, Pass(t));
            if t.listenerHeld then r == s.(phase := Unknown, log := s.log + [Delivered(s.buffer)]) else r == s
  {
  }

  // ---- No wait on an empty pointer -------------------------------------------------------

  /** As no wait on an event reports `Closed`, the reader never waits on the pointer its callbacks may have emptied. */
  lemma {:induction false} AbortsOnlyAfterFirstClosed(s: State, events: seq<Event>)
    requires Coherent(s) && !s.aborted
    requires forall e :: e in events && e.Pass? ==> e.tick.first != Closed
    ensures !Run(s, events).aborted
    decreases |events|
  {
    if events != [] {
      assert events[0] in events;
      AbortsOnlyAfterFirstClosed(Step(s, events[0]), events[1..]);
    }
  }

  /**
   Why the second wait is safe: a pass would call it on the empty pointer just if it had a read to wait for and the
   wait of 0 ms reported `Closed`, which only an abandoned wait does.
   */
  lemma PassAbortsIff(s: State, t: Tick)
    requires Coherent(s) && Running(s)
    ensures Step(s, Pass(t)).aborted <==>
            && t.first == Closed
            && (s.phase == Header || s.waitable == ContentRead || (s.phase == Unknown && t.headerStarts))
  {
  }

  // ---- The code -------------------------------------------------------------------------

  /** The socket that reads, together with the pipe that feeds it. */
  class Connection {
    var socketHandle: int
    var isConnected: bool
    var shutdown: bool
    var aborted: bool
    var phase: ReadState
    var readBuffer: seq<Byte>
    var waitable: Waitable
    var requests: seq<nat>
    var unread: seq<Byte>
    var transit: seq<Byte>
    ghost var wire: seq<Byte>
    ghost var accepted: seq<Message>
    ghost var log: seq<Record>

    ghost function Now(): State
      reads this
    {
      State(socketHandle, isConnected, shutdown, aborted, phase, readBuffer, waitable, requests, unread, transit,
            wire, accepted, log)
    }

    /** A new socket on which `_connect` was called. */
    constructor (handle: int)
      ensures Now() == Start(handle)
    {
      socketHandle, isConnected, shutdown, aborted := handle, handle != INVALID_HANDLE, false, false;
      phase, readBuffer, waitable, requests := Unknown, [], NoRead, [];
      unread, transit, wire, accepted, log := [], [], [], [], [];
    }

    /** `write` on the peer; `taken` is the answer of WriteFileEx. */
    method Send(task: Task, data: Message, taken: bool) returns (ok: bool)
      requires Coherent(Now())
      modifies this, task
      ensures Now() == Step(old(Now()), Write(data, taken)) && ok == taken
      ensures task.buffer == Frame(data)
    {
      task.Assign(data);
      var length := |task.buffer| % WIDTH;
      if taken {
        var bytes := task.buffer[..length];
        transit, wire, accepted := transit + bytes, wire + bytes, accepted + [data];
      }
      ok := taken;
    }

    /** The operating system moves bytes to the receiving end. */
    method Receive(count: nat)
      requires Coherent(Now())
      modifies this
      ensures Now() == Step(old(Now()), Arrive(count))
    {
      var n := if count < |transit| then count else |transit|;
      unread, transit := unread + transit[..n], transit[n..];
    }

    /** ReadFileEx on `read_buffer`, when the system starts the read. */
    method BeginRead(next: ReadState, w: Waitable)
      modifies this
      ensures Now() == StartRead(old(Now()), next, w)
    {
      requests := requests + [|readBuffer| % WIDTH];
      phase, waitable := next, w;
    }

    /** `on_message`, followed by the change of state that the code makes with it. */
    method Dispatch()
      modifies this
      ensures Now() == Deliver(old(Now()))
    {
      log := log + [Delivered(readBuffer)];
      phase := Unknown;
    }

    method FillBuffer()
      requires CanComplete(Now())
      modifies this
      ensures Now() == Fill(old(Now()))
    {
      var n := requests[0];
      readBuffer, unread, requests := unread[..n], unread[n..], requests[1..];
    }

    method OnHeaderSuccess(starts: bool)
      requires Coherent(Now()) && waitable == HeaderRead && CanComplete(Now())
      modifies this
      ensures Now() == HeaderDone(old(Now()), starts)
    {
      FillBuffer();
      var size := DecodeSize(readBuffer);
      readBuffer := Resize(readBuffer, size);
      if starts {
        BeginRead(Content, ContentRead);
      } else {
        phase, waitable := Unknown, NoRead;
        log := log + [Dropped(size)];
      }
    }

    method OnContentSuccess(listener: bool)
      requires CanComplete(Now())
      modifies this
      ensures Now() == ContentDone(old(Now()), listener)
    {
      FillBuffer();
      if listener {
        Dispatch();
      }
      waitable := NoRead;
    }

    method OnWaitError()
      modifies this
      ensures Now() == WaitError(old(Now()))
    {
      if phase == Content {
        log := log + [Dropped(|readBuffer|)];
      }
      phase, waitable := Unknown, NoRead;
    }

    /** `waitable->wait`: the result, after the callbacks have run. */
    method WaitOn(w: WaitResult, t: Tick) returns (err: WaitResult)
      requires Coherent(Now()) && waitable != NoRead
      modifies this
      ensures err == Outcome(old(Now()), w) && Now() == AfterWait(old(Now()), w, t)
    {
      err := w;
      if w == Success && !(|requests| > 0 && |unread| >= requests[0]) {
        err := TimedOut;
      }
      if err == Success {
        if waitable == HeaderRead {
          OnHeaderSuccess(t.contentStarts);
        } else {
          OnContentSuccess(t.listenerDone);
        }
      } else if err == Closed {
        OnWaitError();
      }
    }

    /** One pass of the loop body of `_watcher`. */
    method Turn(t: Tick)
      requires Coherent(Now()) && Running(Now())
      modifies this
      ensures Now() == Step(old(Now()), Pass(t))
    {
      hide AfterWait, CanComplete;
      if phase == Unknown {
        readBuffer := Resize(readBuffer, HEADER);
        if t.headerStarts {
          BeginRead(Header, HeaderRead);
        } else {
          phase, waitable := Unknown, NoRead;
        }
      } else if phase == Content && waitable == NoRead && t.listenerHeld {
        Dispatch();
      }
      if waitable == NoRead {
        return;
      }
      ghost var b := Now();
      var err := WaitOn(t.first, t);
      if err != Success {
        if waitable != NoRead {
          AfterWaitStalls(b, t.first, t);
        }
        if waitable == NoRead {
          aborted := true;
          return;
        }
        err := WaitOn(t.second, t);
      }
      if err == Closed {
        isConnected, shutdown := false, true;
      }
    }

    /** The loop condition, and the two tests that leave the loop. */
    method TurnIfRunning(t: Tick)
      requires Coherent(Now())
      modifies this
      ensures Now() == Step(old(Now()), Pass(t))
    {
      hide Await, Begin;
      if !shutdown && socketHandle != INVALID_HANDLE && isConnected && !aborted {
        Turn(t);
      }
    }

    method Shut() returns (closed: bool)
      requires Coherent(Now())
      modifies this
      ensures closed == old(isConnected) && Now() == Step(old(Now()), Close)
    {
      closed := isConnected;
      if isConnected {
        isConnected, shutdown := false, true;
      }
    }

    /** `_watcher`, with what the other threads and the system do between its passes. */
    method Watch(events: seq<Event>, task: Task)
      requires Coherent(Now())
      modifies this, task
      ensures Now() == Run(old(Now()), events)
    {
      hide Step, Coherent;
      var i := 0;
      while i < |events|
        invariant 0 <= i <= |events|
        invariant Coherent(Now())
        invariant Run(old(Now()), events) == Run(Now(), events[i..])
      {
        assert events[i..][1..] == events[i + 1..];
        match events[i] {
          case Write(data, taken) => var ok := Send(task, data, taken);
          case Arrive(count) => Receive(count);
          case Pass(t) => TurnIfRunning(t);
          case Close => var closed := Shut();
        }
        i := i + 1;
      }
    }
  }
}
