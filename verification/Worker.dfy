/**
 One worker of the thread pool: a queue guarded by a mutex and the thread that empties it.

 `runner` is a state machine whose steps are the pieces of code between lock operations;
 pushes, clears and the stop request of other threads fall between any two steps.
 */
module Worker {
  import opened Common

  datatype Task = Task(id: nat, mask: nat, callable: bool)

  /** A task in the queue, with its number in the order of pushes. */
  datatype Entry = Entry(ticket: nat, task: Task)

  /**
   How an entry came to an end: run, passed over for want of a function, removed by `clear`, or popped in place of the
   task in hand.
   */
  datatype Fate = Completed | Skipped | Cleared | Lost

  datatype Exit = Exit(entry: Entry, fate: Fate)

  /** Where `runner` stands: at the loop test, the grab, the call, the removal or the wait, or past its loop. */
  datatype Pc = AtTest | AtGrab | AtCall | AtRemove | AtWait | Ended

  datatype State = State(
    queue: seq<Entry>,
    hand: Option<Entry>,      // my_task
    pc: Pc,
    stop: bool,               // should_stop
    undefined: bool,          // `pop` was called on an empty queue
    pushed: seq<Task>,        // every task ever pushed
    exits: seq<Exit>)         // every entry that ended, in order

  datatype Event = Push(task: Task) | Clear | Stop | Tick

  function Start(): State {
    State([], None, AtTest, false, false, [], [])
  }

  function AllCleared(q: seq<Entry>): seq<Exit> {
    seq(|q|, i requires 0 <= i < |q| => Exit(q[i], Fate.Cleared))
  }

  lemma ClearedNone()
    ensures AllCleared([]) == []
  {
  }

  lemma ClearedOneMore(q: seq<Entry>, x: Entry)
    ensures AllCleared(q + [x]) == AllCleared(q) + [Exit(x, Fate.Cleared)]
  {
  }

  /** Third piece of the loop body: pop the queue if a task is in hand, then wait for work. */
  function Remove(s: State): State {
    if s.hand.Some? && s.queue == [] then s.(undefined := true)
    else
      var r := if s.hand == None then s else
        s.(hand := None, queue := s.queue[1..],
           exits := if s.queue[0] == s.hand.value then s.exits else s.exits + [Exit(s.queue[0], Lost)]);
      r.(pc := if r.queue == [] then AtWait else AtTest)
  }

  /** One step of `runner`. */
  function Advance(s: State): State {
    if s.undefined then s else
    match s.pc
    case AtTest => s.(pc := if s.stop then Ended else AtGrab)
    case AtGrab => s.(pc := AtCall, hand := if s.queue != [] then Some(s.queue[0]) else s.hand)
    case AtCall =>
      s.(pc := AtRemove,
         exits := if s.hand == None then s.exits
                  else s.exits + [Exit(s.hand.value, if s.hand.value.task.callable then Completed else Skipped)])
    case AtRemove => Remove(s)
    case AtWait => if s.stop || s.queue != [] then s.(pc := AtTest) else s
    case Ended => s
  }

  function Step(s: State, e: Event): State {
    match e
    case Push(t) => s.(queue := s.queue + [Entry(|s.pushed|, t)], pushed := s.pushed + [t])
    case Clear => s.(queue := [], exits := s.exits + AllCleared(s.queue))
    case Stop => s.(stop := true)
    case Tick => Advance(s)
  }

  lemma ClearResult(s: State)
    ensures Step(s, Clear) == s.(queue := [], exits := s.exits + AllCleared(s.queue))
  {
  }

  function Run(s: State, events: seq<Event>): State
    decreases |events|
  {
    if events == [] then s else Run(Step(s, events[0]), events[1..])
  }

  lemma RunSingle(s: State, e: Event)
    ensures Run(s, [e]) == Step(s, e)
  {
    hide Step;
    assert [e][1..] == [];
    assert Run(Step(s, e), []) == Step(s, e);
  }

  lemma {:induction false} RunConcat(s: State, a: seq<Event>, b: seq<Event>)
    ensures Run(s, a + b) == Run(Run(s, a), b)
    decreases |a|
  {
    hide Step;
    if a == [] {
      assert a + b == b;
    } else {
      AppendToTail(a, b);
      RunConcat(Step(s, a[0]), a[1..], b);
    }
  }

  /** The entry stands for the push with its number. */
  ghost predicate Ticketed(e: Entry, pushed: seq<Task>) {
    e.ticket < |pushed| && pushed[e.ticket] == e.task
  }

  /** Whatever is queued, in hand or ended stands for a push. */
  ghost predicate Known(s: State) {
    && (forall i :: 0 <= i < |s.queue| ==> Ticketed(s.queue[i], s.pushed))
    && (forall i :: 0 <= i < |s.exits| ==> Ticketed(s.exits[i].entry, s.pushed))
    && (s.hand.Some? ==> Ticketed(s.hand.value, s.pushed))
  }

  /** In every run whatsoever, clears at any time included. */
  lemma {:induction false} RunKeepsKnown(s: State, events: seq<Event>)
    requires Known(s)
    ensures Known(Run(s, events))
    decreases |events|
  {
    if events != [] {
      StepKeepsKnown(s, events[0]);
      hide Known, Step;
      RunKeepsKnown(Step(s, events[0]), events[1..]);
    }
  }

  lemma PushKeepsTickets(e: Entry, pushed: seq<Task>, t: Task)
    requires Ticketed(e, pushed)
    ensures Ticketed(e, pushed + [t])
  {
  }

  lemma PushKeepsKnown(s: State, t: Task)
    requires Known(s)
    ensures Known(Step(s, Push(t)))
  {
    var r, e := Step(s, Push(t)), Entry(|s.pushed|, t);
    assert Ticketed(e, r.pushed);
    hide Ticketed;
    forall i | 0 <= i < |s.queue| ensures Ticketed(s.queue[i], r.pushed) {
      PushKeepsTickets(s.queue[i], s.pushed, t);
    }
    forall i | 0 <= i < |s.exits| ensures Ticketed(s.exits[i].entry, r.pushed) {
      PushKeepsTickets(s.exits[i].entry, s.pushed, t);
    }
    if s.hand.Some? {
      PushKeepsTickets(s.hand.value, s.pushed, t);
    }
  }

  lemma ClearKeepsKnown(s: State)
    requires Known(s)
    ensures Known(Step(s, Clear))
  {
    hide Ticketed;
  }

  lemma AdvanceKeepsKnown(s: State)
    requires Known(s)
    ensures Known(Advance(s))
  {
    hide Ticketed;
  }

  lemma StepKeepsKnown(s: State, e: Event)
    requires Known(s)
    ensures Known(Step(s, e))
  {
    hide Ticketed;
    match e {
      case Push(t) => PushKeepsKnown(s, t);
      case Clear => ClearKeepsKnown(s);
      case Stop =>
      case Tick => AdvanceKeepsKnown(s);
    }
  }

  // ---- Every task exactly once -------------------------------------------------------------

  function Tickets(pushed: seq<Task>): (r: seq<Entry>)
    ensures |r| == |pushed|
  {
    seq(|pushed|, i requires 0 <= i < |pushed| => Entry(i, pushed[i]))
  }

  function Entries(exits: seq<Exit>): (r: seq<Entry>)
    ensures |r| == |exits|
  {
    seq(|exits|, i requires 0 <= i < |exits| => exits[i].entry)
  }

  /** The entries that have not ended: the queue, less a task that ran and waits to be popped. */
  function Ahead(s: State): seq<Entry> {
    if s.hand.Some? && s.pc == AtRemove && s.queue != [] then s.queue[1..] else s.queue
  }

  /** Nothing is lost, tasks with a function are run and the others skipped, unless they are cleared. */
  predicate FateFits(x: Exit) {
    x.fate == Fate.Cleared || x.fate == (if x.entry.task.callable then Completed else Skipped)
  }

  /**
   A task in hand is the front of the queue; the entries that ended and those ahead are all pushed tasks, each once
   and in push order; none was lost.
   */
  ghost predicate Orderly(s: State) {
    && !s.undefined
    && (s.hand.Some? ==> s.queue != [] && s.queue[0] == s.hand.value && (s.pc == AtCall || s.pc == AtRemove))
    && (s.hand.Some? && s.pc == AtRemove ==> s.exits != [] && s.exits[|s.exits| - 1].entry == s.hand.value)
    && Entries(s.exits) + Ahead(s) == Tickets(s.pushed)
    && forall x :: x in s.exits ==> FateFits(x)
  }

  /** `clear` comes only while the worker holds no task. */
  predicate Disciplined(s: State, events: seq<Event>)
    decreases |events|
  {
    events != [] ==> !(events[0] == Clear && s.hand.Some?) && Disciplined(Step(s, events[0]), events[1..])
  }

  lemma PushOrderly(s: State, t: Task)
    requires Orderly(s)
    ensures Orderly(Step(s, Push(t)))
  {
    var r, e := Step(s, Push(t)), Entry(|s.pushed|, t);
    assert Tickets(r.pushed) == Tickets(s.pushed) + [e];
    assert Ahead(r) == Ahead(s) + [e];
    assert Entries(s.exits) + (Ahead(s) + [e]) == (Entries(s.exits) + Ahead(s)) + [e];
  }

  lemma ClearOrderly(s: State)
    requires Orderly(s) && s.hand == None
    ensures Orderly(Step(s, Clear))
  {
    var r := Step(s, Clear);
    assert Entries(r.exits) == Entries(s.exits) + s.queue;
    forall x | x in r.exits ensures FateFits(x) {
      assert x in s.exits || x in AllCleared(s.queue);
    }
  }

  lemma CallOrderly(s: State)
    requires Orderly(s) && s.pc == AtCall
    ensures Orderly(Advance(s))
  {
    if s.hand.Some? {
      var r := Advance(s);
      assert Entries(r.exits) == Entries(s.exits) + [s.hand.value];
      assert s.queue == [s.hand.value] + Ahead(r);
      assert Entries(r.exits) + Ahead(r) == Entries(s.exits) + s.queue;
    }
  }

  lemma StepOrderly(s: State, e: Event)
    requires Orderly(s) && !(e == Clear && s.hand.Some?)
    ensures Orderly(Step(s, e))
  {
    match e {
      case Push(t) => PushOrderly(s, t);
      case Clear => ClearOrderly(s);
      case Stop =>
      case Tick =>
        if s.pc == AtCall {
          CallOrderly(s);
        }
    }
  }

  /**
   In every run whose clears find no task in hand, each pushed task is in exactly one of completed, cleared or ahead,
   in push order, and a worker that ended holds no task.
   */
  lemma {:induction false} ExactlyOnce(s: State, events: seq<Event>)
    requires Orderly(s) && Disciplined(s, events)
    ensures Orderly(Run(s, events))
    ensures Run(s, events).pc == Ended ==> Run(s, events).hand == None
    decreases |events|
  {
    if events == [] {
    } else {
      StepOrderly(s, events[0]);
      hide Orderly, Step;
      ExactlyOnce(Step(s, events[0]), events[1..]);
    }
  }

  /** What `Orderly` says about single tasks: the i-th entry to end is the i-th task pushed. */
  lemma CompletionKeepsPushOrder(s: State, i: nat)
    requires Orderly(s)
    ensures i < |s.exits| ==> i < |s.pushed| && s.exits[i].entry == Entry(i, s.pushed[i])
    ensures |s.exits| <= i < |s.pushed| ==> Entry(i, s.pushed[i]) == Ahead(s)[i - |s.exits|]
    ensures |s.exits| + |Ahead(s)| == |s.pushed|
  {
    var all := Entries(s.exits) + Ahead(s);
    if i < |s.pushed| {
      assert all[i] == Tickets(s.pushed)[i];
    }
  }

  // ---- A clear while a task is in hand ---------------------------------------------------------

  /** What other threads do between two steps of the worker. */
  predicate Outside(events: seq<Event>) {
    forall i :: 0 <= i < |events| ==> events[i] != Tick
  }

  /** Everything queued was pushed after `ticket`, and after everything that ended. */
  ghost predicate Newer(s: State, ticket: nat) {
    && Known(s) && ticket < |s.pushed|
    && (forall i :: 0 <= i < |s.queue| ==> s.queue[i].ticket > ticket)
    && forall i, j :: 0 <= i < |s.queue| && 0 <= j < |s.exits| ==> s.exits[j].entry.ticket < s.queue[i].ticket
  }

  lemma {:induction false} OutsideKeepsNewer(s: State, events: seq<Event>, ticket: nat)
    requires Outside(events) && Newer(s, ticket)
    ensures var r := Run(s, events); r.hand == s.hand && r.pc == s.pc && r.undefined == s.undefined && Newer(r, ticket)
    decreases |events|
  {
    if events != [] {
      OutsideKeepsNewer(Step(s, events[0]), events[1..], ticket);
    }
  }

  lemma {:induction false} OutsideKeepsFront(s: State, events: seq<Event>)
    requires Outside(events) && Known(s) && s.queue != []
    ensures var r := Run(s, events);
            && r.hand == s.hand && r.pc == s.pc && r.undefined == s.undefined
            && if Clear in events then Newer(r, s.queue[0].ticket)
               else Known(r) && s.queue <= r.queue && r.exits == s.exits && s.pushed <= r.pushed
    decreases |events|
  {
    if events != [] {
      var u, rest := Step(s, events[0]), events[1..];
      assert events == [events[0]] + rest;
      if events[0] == Clear {
        OutsideKeepsNewer(u, rest, s.queue[0].ticket);
      } else {
        OutsideKeepsFront(u, rest);
      }
    }
  }

  lemma OrderlyIsKnown(s: State)
    requires Orderly(s)
    ensures Known(s)
  {
    forall i | 0 <= i < |s.exits| ensures Ticketed(s.exits[i].entry, s.pushed) {
      CompletionKeepsPushOrder(s, i);
    }
    forall i | 0 <= i < |s.queue| ensures Ticketed(s.queue[i], s.pushed) {
      var late := |s.queue| - |Ahead(s)|;
      assert late == 0 || late == 1;
      CompletionKeepsPushOrder(s, |s.exits| + i - late);
    }
  }

  /**
   From the grab of a task to its removal: the removal pops that very task just when no `clear` came in between. If
   one came, the removal pops an empty queue, or throws away a task that was pushed later and never ran.
   */
  lemma {:induction false} RemovalPopsItsTaskIffNotCleared(s: State, before: seq<Event>, after: seq<Event>)
    requires Orderly(s) && s.pc == AtCall && s.hand.Some? && Outside(before) && Outside(after)
    ensures var r := Run(Advance(Run(s, before)), after);
            && (Clear !in before && Clear !in after <==> r.queue != [] && r.queue[0] == s.hand.value)
            && (Clear in before || Clear in after ==> ThrowsAwayWork(r))
  {
    var h := s.hand.value;
    OrderlyIsKnown(s);
    OutsideKeepsFront(s, before);
    var a := Run(s, before);
    var b := Advance(a);
    assert b.exits == a.exits + [Exit(h, if h.task.callable then Completed else Skipped)];
    if Clear in before {
      OutsideKeepsNewer(b, after, h.ticket);
    } else {
      OutsideKeepsFront(b, after);
    }
  }

  /** The removal has undefined behaviour, or ends an entry that had not ended, without running it. */
  ghost predicate ThrowsAwayWork(s: State) {
    var r := Advance(s);
    || r.undefined
    || (s.queue != [] && r.exits == s.exits + [Exit(s.queue[0], Lost)] && s.queue[0] !in Entries(s.exits))
  }

  // ---- Progress -----------------------------------------------------------------------------------

  function TicksIn(events: seq<Event>): nat {
    if events == [] then 0 else (if events[0] == Tick then 1 else 0) + TicksIn(events[1..])
  }

  /** Only steps of the worker and pushes of other threads. */
  predicate OnlyPushes(events: seq<Event>) {
    forall i :: 0 <= i < |events| ==> events[i] == Tick || events[i].Push?
  }

  /** Steps of `runner` until the first `target` tasks pushed have ended, if nobody clears or stops it. */
  function StepsUntil(s: State, target: nat): nat {
    var n := target - |s.exits|;
    if n <= 0 then 0
    else if s.pc == AtTest then 4 * n - 1
    else if s.pc == AtGrab then 4 * n - 2
    else if s.pc == AtCall && s.hand.Some? then 4 * n - 3
    else if s.pc == AtCall then 4 * n + 1
    else 4 * n
  }

  /** The entries that ended in between were not cleared. */
  ghost predicate Ran(s: State, r: State) {
    s.exits <= r.exits && forall i :: |s.exits| <= i < |r.exits| ==> r.exits[i].fate != Fate.Cleared
  }

  /** What is still ahead is counted by what was pushed and what ended. */
  lemma AheadCount(s: State)
    requires Orderly(s)
    ensures |s.exits| + |Ahead(s)| == |s.pushed|
  {
    CompletionKeepsPushOrder(s, 0);
  }

  lemma TickProgress(s: State, target: nat)
    requires Orderly(s) && !s.stop && s.pc != Ended && target <= |s.pushed|
    ensures var r := Advance(s);
            && Orderly(r) && !r.stop && r.pc != Ended && r.pushed == s.pushed && Ran(s, r)
            && StepsUntil(r, target) <= StepsUntil(s, target)
            && (StepsUntil(s, target) > 0 ==> StepsUntil(r, target) < StepsUntil(s, target))
  {
    AheadCount(s);
    StepOrderly(s, Tick);
  }

  lemma PushProgress(s: State, t: Task, target: nat)
    requires Orderly(s) && !s.stop && s.pc != Ended && target <= |s.pushed|
    ensures var r := Step(s, Push(t));
            && Orderly(r) && !r.stop && r.pc != Ended && s.pushed <= r.pushed && Ran(s, r)
            && StepsUntil(r, target) == StepsUntil(s, target)
  {
    PushOrderly(s, t);
  }

  lemma {:induction false} EndsWithin(s: State, events: seq<Event>, target: nat)
    requires Orderly(s) && !s.stop && s.pc != Ended && target <= |s.pushed|
    requires OnlyPushes(events) && TicksIn(events) >= StepsUntil(s, target)
    ensures var r := Run(s, events); Orderly(r) && s.pushed <= r.pushed && |r.exits| >= target && Ran(s, r)
    decreases |events|
  {
    if events != [] {
      var e, rest := events[0], events[1..];
      if e == Tick {
        TickProgress(s, target);
      } else {
        PushProgress(s, e.task, target);
      }
      var u := Step(s, e);
      hide Orderly, Step;
      EndsWithin(u, rest, target);
    }
  }

  /**
   A worker that is not told to stop runs every task pushed to it, in push order, within four steps a task and one
   more, whatever is pushed meanwhile.
   */
  lemma WorkerDrains(s: State, events: seq<Event>)
    requires Orderly(s) && !s.stop && s.pc != Ended && OnlyPushes(events)
    requires TicksIn(events) >= 4 * |Ahead(s)| + 1
    ensures var r := Run(s, events);
            && Ran(s, r) && |r.exits| >= |s.pushed|
            && forall i :: 0 <= i < |s.pushed| ==> r.exits[i].entry == Entry(i, s.pushed[i])
  {
    AheadCount(s);
    EndsWithin(s, events, |s.pushed|);
    var r := Run(s, events);
    forall i | 0 <= i < |s.pushed| ensures r.exits[i].entry == Entry(i, s.pushed[i]) {
      CompletionKeepsPushOrder(r, i);
    }
  }

  /** Steps until a worker with nothing to do waits, at most. */
  function StepsToRest(pc: Pc): nat {
    match pc
    case Ended => 0
    case AtWait => 0
    case AtRemove => 1
    case AtCall => 2
    case AtGrab => 3
    case AtTest => 4
  }

  /**
   A worker with nothing to do comes to rest within four steps, and then waits until something is pushed or it is
   told to stop.
   */
  lemma {:induction false} IdleRests(s: State, k: nat)
    requires Orderly(s) && s.queue == [] && !s.stop && s.pc != Ended && k >= StepsToRest(s.pc)
    ensures Run(s, Steps(k)) == s.(pc := AtWait)
    decreases k
  {
    if k > 0 {
      assert Steps(k)[1..] == Steps(k - 1);
      assert s.hand == None;
      StepOrderly(s, Tick);
      IdleRests(Step(s, Tick), k - 1);
    }
  }

  function Steps(k: nat): seq<Event> {
    if k == 0 then [] else [Tick] + Steps(k - 1)
  }

  lemma {:induction false} TicksConcat(a: seq<Event>, b: seq<Event>)
    ensures TicksIn(a + b) == TicksIn(a) + TicksIn(b)
  {
    if a == [] {
      assert a + b == b;
    } else {
      AppendToTail(a, b);
      TicksConcat(a[1..], b);
    }
  }

  /** Steps until a worker told to stop has left its loop, at most. */
  function StepsToEnd(pc: Pc): nat {
    match pc
    case Ended => 0
    case AtTest => 1
    case AtWait => 2
    case AtRemove => 3
    case AtCall => 4
    case AtGrab => 5
  }

  /** The entries that were dealt with by the worker itself. */
  function Handled(exits: seq<Exit>): nat {
    if exits == [] then 0 else (if exits[0].fate == Fate.Cleared then 0 else 1) + Handled(exits[1..])
  }

  lemma {:induction false} HandledConcat(a: seq<Exit>, b: seq<Exit>)
    ensures Handled(a + b) == Handled(a) + Handled(b)
  {
    if a == [] {
      assert a + b == b;
    } else {
      AppendToTail(a, b);
      HandledConcat(a[1..], b);
    }
  }

  lemma {:induction false} NoneHandled(q: seq<Entry>)
    ensures Handled(AllCleared(q)) == 0
  {
    if q != [] {
      NoneHandled(q[1..]);
      assert AllCleared(q)[1..] == AllCleared(q[1..]);
    }
  }

  /** How many more tasks a worker told to stop may run. */
  function Allowance(pc: Pc): nat {
    if pc == AtGrab || pc == AtCall then 1 else 0
  }

  lemma TickEnds(s: State)
    requires Orderly(s) && s.stop
    ensures var r := Advance(s);
            && r.stop && StepsToEnd(r.pc) <= StepsToEnd(s.pc) && (s.pc != Ended ==> StepsToEnd(r.pc) < StepsToEnd(s.pc))
            && Handled(r.exits) + Allowance(r.pc) <= Handled(s.exits) + Allowance(s.pc)
  {
    if s.pc == AtCall && s.hand.Some? {
      var x := Exit(s.hand.value, if s.hand.value.task.callable then Completed else Skipped);
      HandledConcat(s.exits, [x]);
      assert Handled([x]) == 1;
    }
  }

  lemma ClearEnds(s: State)
    ensures Handled(Step(s, Clear).exits) == Handled(s.exits)
  {
    HandledConcat(s.exits, AllCleared(s.queue));
    NoneHandled(s.queue);
  }

  /**
   A worker told to stop leaves its loop within five steps and runs at most one more task, whatever other threads push
   or clear meanwhile.
   */
  lemma {:induction false} StopEnds(s: State, events: seq<Event>)
    requires Orderly(s) && s.stop && Disciplined(s, events) && TicksIn(events) >= StepsToEnd(s.pc)
    ensures var r := Run(s, events);
            r.pc == Ended && r.hand == None && Handled(r.exits) <= Handled(s.exits) + Allowance(s.pc)
    decreases |events|
  {
    if events != [] {
      var e := events[0];
      if e == Tick {
        TickEnds(s);
      } else if e == Clear {
        ClearEnds(s);
      }
      StepOrderly(s, e);
      hide Orderly, Advance, AllCleared;
      StopEnds(Step(s, e), events[1..]);
    }
  }

  /** Once made, a request to stop stands, and nothing else makes one. */
  lemma {:induction false} StopStays(s: State, events: seq<Event>)
    ensures Run(s, events).stop <==> s.stop || Stop in events
    decreases |events|
  {
    if events != [] {
      StopStays(Step(s, events[0]), events[1..]);
      assert events == [events[0]] + events[1..];
      hide Advance;
    }
  }

  lemma {:induction false} DisciplinedConcat(s: State, a: seq<Event>, b: seq<Event>)
    requires Disciplined(s, a + b)
    ensures Disciplined(s, a) && Disciplined(Run(s, a), b)
    decreases |a|
  {
    hide Step;
    if a == [] {
      assert a + b == b;
    } else {
      AppendToTail(a, b);
      DisciplinedConcat(Step(s, a[0]), a[1..], b);
    }
  }

  /** From its request on, however long after, a worker leaves its loop within five of its steps. */
  lemma StopRequestEnds(s: State, before: seq<Event>, after: seq<Event>)
    requires Orderly(s) && Disciplined(s, before + after) && Stop in before && TicksIn(after) >= 5
    ensures var u := Run(s, before);
            var r := Run(u, after);
            r.pc == Ended && r.hand == None && Handled(r.exits) <= Handled(u.exits) + 1
  {
    DisciplinedConcat(s, before, after);
    ExactlyOnce(s, before);
    StopStays(s, before);
    hide Orderly, Run;
    StopEnds(Run(s, before), after);
  }

  // ---- The code --------------------------------------------------------------------------------------

  class Thread {
    var queue: seq<Entry>
    var hand: Option<Entry>
    var pc: Pc
    var stop: bool
    var undefined: bool
    ghost var pushed: seq<Task>
    ghost var exits: seq<Exit>
    var tickets: nat

    ghost function Now(): State
      reads this
    {
      State(queue, hand, pc, stop, undefined, pushed, exits)
    }

    /** The ticket counter stands for the identity of a push. */
    ghost predicate Valid()
      reads this
    {
      tickets == |pushed|
    }

    constructor ()
      ensures Valid() && Now() == Start()
    {
      queue, hand, pc, stop, undefined, pushed, exits, tickets := [], None, AtTest, false, false, [], [], 0;
    }

    method Push(task: Task)
      requires Valid()
      modifies this
      ensures Valid() && Now() == Step(old(Now()), Event.Push(task))
    {
      queue, pushed, tickets := queue + [Entry(tickets, task)], pushed + [task], tickets + 1;
    }

    method PopCleared()
      requires Valid() && queue != []
      modifies this
      ensures Valid()
      ensures Now() == old(Now()).(
        queue := old(queue)[1..],
        exits := old(exits) + [Exit(old(queue)[0], Fate.Cleared)])
    {
      exits := exits + [Exit(queue[0], Fate.Cleared)];
      queue := queue[1..];
    }

    /** `clear` pops until the queue is empty. */
    method Clear()
      requires Valid()
      modifies this
      ensures Valid() && Now() == Step(old(Now()), Event.Clear)
    {
      ghost var was, gone := Now(), [];
      ClearResult(was);
      ClearedNone();
      hide AllCleared, Step;
      while |queue| > 0
        invariant Valid() && gone + queue == was.queue
        invariant Now() == was.(queue := queue, exits := was.exits + AllCleared(gone))
        decreases |queue|
      {
        ClearedOneMore(gone, queue[0]);
        Associate(was.exits, AllCleared(gone), [Exit(queue[0], Fate.Cleared)]);
        Associate(gone, [queue[0]], queue[1..]);
        gone := gone + [queue[0]];
        PopCleared();
      }
      assert gone == was.queue;
    }

    method RequestStop()
      requires Valid()
      modifies this
      ensures Valid() && Now() == Step(old(Now()), Stop)
    {
      stop := true;
    }

    /** One step of `runner`. */
    method RunnerStep()
      requires Valid()
      modifies this
      ensures Valid() && Now() == Step(old(Now()), Tick)
    {
      if undefined {
        return;
      }
      match pc {
        case AtTest =>
          pc := if stop then Ended else AtGrab;
        case AtGrab =>
          if |queue| > 0 {
            hand := Some(queue[0]);
          }
          pc := AtCall;
        case AtCall =>
          if hand.Some? {
            exits := exits + [Exit(hand.value, if hand.value.task.callable then Completed else Skipped)];
          }
          pc := AtRemove;
        case AtRemove =>
          if hand.Some? {
            if |queue| == 0 {
              undefined := true;
              return;
            }
            if queue[0] != hand.value {
              exits := exits + [Exit(queue[0], Lost)];
            }
            queue := queue[1..];
            hand := None;
          }
          pc := if |queue| == 0 then AtWait else AtTest;
        case AtWait =>
          if stop || |queue| > 0 {
            pc := AtTest;
          }
        case Ended =>
      }
    }

    /** `runner` among the calls of other threads. */
    method Runner(events: seq<Event>)
      requires Valid()
      modifies this
      ensures Valid() && Now() == Run(old(Now()), events)
    {
      var i := 0;
      while i < |events|
        invariant 0 <= i <= |events|
        invariant Valid() && Run(Now(), events[i..]) == Run(old(Now()), events)
      {
        assert events[i..][1..] == events[i + 1..];
        match events[i] {
          case Push(t) => Push(t);
          case Clear => Clear();
          case Stop => RequestStop();
          case Tick => RunnerStep();
        }
        i := i + 1;
      }
    }
  }
}
