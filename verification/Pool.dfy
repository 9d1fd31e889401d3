/** The thread pool: one worker for each processor, tasks placed by affinity mask and load. */
module Pool {
  import opened Common
  import opened Masks
  import opened Dispatch
  import W = Worker

  /** The workers, and every task whose `push` returned true. */
  datatype State = State(workers: seq<W.State>, accepted: seq<W.Task>)

  /** How `push` ends: one of its three exceptions, false, or true after queueing at a worker. */
  datatype Verdict = NullTask | NullFunction | BadMask | Full | Queued(worker: nat)

  function Oks(n: nat, mask: nat): (ok: seq<bool>)
    requires n <= 31
    ensures |ok| == n && forall i :: 0 <= i < n ==> (ok[i] <==> Matches(mask, i))
  {
    seq(n, i requires 0 <= i < n => Matches(mask, i))
  }

  function Loads(ws: seq<W.State>): (loads: seq<nat>)
    ensures |loads| == |ws| && forall i :: 0 <= i < |ws| ==> loads[i] == |ws[i].queue|
  {
    seq(|ws|, i requires 0 <= i < |ws| => |ws[i].queue|)
  }

  function Judge(loads: seq<nat>, task: Option<W.Task>): Verdict
    requires |loads| <= 31
  {
    if task == None then NullTask
    else if !task.value.callable then NullFunction
    else if !GuardPasses(task.value.mask, |loads|) then BadMask
    else match Choose(loads, Oks(|loads|, task.value.mask))
    case None => Full
    case Some(i) => Queued(i)
  }

  /**
   `observed` are the queue lengths that `push` read one after the other; by the time it queues the task they may be
   stale.
   */
  datatype Event =
    | Submit(task: Option<W.Task>, observed: seq<nat>)
    | ClearMask(mask: nat)
    | StopAll
    | Work(worker: nat)

  function ClearMatching(ws: seq<W.State>, mask: nat): (r: seq<W.State>)
    requires |ws| <= 31
    ensures |r| == |ws|
    ensures forall i :: 0 <= i < |ws| ==> r[i] == if Matches(mask, i) then W.Step(ws[i], W.Clear) else ws[i]
  {
    seq(|ws|, i requires 0 <= i < |ws| => if Matches(mask, i) then W.Step(ws[i], W.Clear) else ws[i])
  }

  function Step(s: State, e: Event): (r: State)
    requires |s.workers| <= 31
    ensures |r.workers| == |s.workers|
  {
    match e
    case Submit(task, observed) =>
      if |observed| != |s.workers| || !Judge(observed, task).Queued? then s
      else
        var i := Judge(observed, task).worker;
        State(s.workers[i := W.Step(s.workers[i], W.Push(task.value))], s.accepted + [task.value])
    case ClearMask(mask) =>
      if GuardPasses(mask, |s.workers|) then s.(workers := ClearMatching(s.workers, mask)) else s
    case StopAll => s.(workers := seq(|s.workers|, i requires 0 <= i < |s.workers| => W.Step(s.workers[i], W.Stop)))
    case Work(i) => if i < |s.workers| then s.(workers := s.workers[i := W.Step(s.workers[i], W.Tick)]) else s
  }

  function Run(s: State, events: seq<Event>): (r: State)
    requires |s.workers| <= 31
    ensures |r.workers| == |s.workers|
    decreases |events|
  {
    if events == [] then s else Run(Step(s, events[0]), events[1..])
  }

  function Start(n: nat): State {
    State(seq(n, _ => W.Start()), [])
  }

  /** The mask has the bit of a worker whose index is a bit of n - 1; without workers, any of its 64 bits. */
  ghost predicate Admitted(mask: nat, n: nat) {
    if n == 0 then exists i: nat :: i < 64 && Bit(mask, i)
    else exists i: nat :: i < n && Bit(mask, i) && Bit(n - 1, i)
  }

  lemma GuardIsAdmitted(mask: nat, n: nat)
    requires n <= 31
    ensures GuardPasses(mask, n) <==> Admitted(mask, n)
  {
    hide Matches, Bit, GuardPasses;
    if n == 0 {
      GuardWithoutWorkers(mask);
      if GuardPasses(mask, 0) {
        var i: nat :| i < 64 && Bit(mask, i);
        assert Admitted(mask, 0);
      } else {
        forall i: nat | i < 64 ensures !Bit(mask, i) {
        }
        assert !Admitted(mask, 0);
      }
    } else {
      GuardPassesIff(mask, n);
      forall i: nat | i < n ensures Matches(mask, i) <==> Bit(mask, i) {
        MatchesIffBit(mask, i);
      }
      if i: nat :| i < n && Bit(mask, i) && Bit(n - 1, i) {
        assert Matches(mask, i);
      }
    }
  }

  /**
   Each way in which `push` ends, told from the task and the queue lengths: the exceptions come in this order, false
   is returned just when every worker with a bit in the mask has a full queue, and otherwise the task goes to the
   first least loaded of these workers.
   */
  lemma JudgeIff(loads: seq<nat>, task: Option<W.Task>)
    requires |loads| <= 31
    ensures var v, n := Judge(loads, task), |loads|;
            && (v == NullTask <==> task == None)
            && (v == NullFunction <==> task.Some? && !task.value.callable)
            && (v == BadMask <==> task.Some? && task.value.callable && !Admitted(task.value.mask, n))
            && (v == Full <==> task.Some? && task.value.callable && Admitted(task.value.mask, n)
                               && forall i :: 0 <= i < n && Bit(task.value.mask, i) ==> loads[i] >= SIZE_MAX)
            && (v.Queued? ==> v.worker < n && Bit(task.value.mask, v.worker) && loads[v.worker] < SIZE_MAX)
            && (v.Queued? ==> forall i :: 0 <= i < n && Bit(task.value.mask, i) ==>
                  loads[v.worker] <= loads[i] && (i < v.worker ==> loads[v.worker] < loads[i]))
  {
    if task.Some? && task.value.callable {
      var mask, n := task.value.mask, |loads|;
      GuardIsAdmitted(mask, n);
      var ok := Oks(n, mask);
      forall i | 0 <= i < n ensures ok[i] <==> Bit(mask, i) {
        MatchesIffBit(mask, i);
      }
      hide Matches, Bit, GuardPasses, Admitted;
    }
  }

  /**
   A task that passes the early-exit tests is queued, never refused with false, as long as every queue is below
   SIZE_MAX.
   */
  lemma AdmittedTaskIsQueued(loads: seq<nat>, task: W.Task)
    requires 0 < |loads| <= 31 && task.callable && GuardPasses(task.mask, |loads|)
    requires forall i :: 0 <= i < |loads| ==> loads[i] < SIZE_MAX
    ensures Judge(loads, Some(task)).Queued?
    ensures var i := Judge(loads, Some(task)).worker;
            && i < |loads| && Matches(task.mask, i)
            && forall j :: 0 <= j < |loads| && Matches(task.mask, j) ==>
                 loads[i] <= loads[j] && (j < i ==> loads[i] < loads[j])
  {
    var idx := GuardFindsWorker(task.mask, |loads|);
    var ok := Oks(|loads|, task.mask);
    assert ok[idx] && loads[idx] < SIZE_MAX;
    var r := Choose(loads, ok);
    forall j | 0 <= j < |loads| && Matches(task.mask, j)
      ensures loads[r.value] <= loads[j] && (j < r.value ==> loads[r.value] < loads[j])
    {
      assert ok[j];
    }
  }

  // ---- Conservation over whole runs ----------------------------------------------------------

  /** Every task ever queued at a worker has a function and a mask that matches the worker. */
  ghost predicate Placed(s: State)
    requires |s.workers| <= 31
  {
    forall i, j :: 0 <= i < |s.workers| && 0 <= j < |s.workers[i].pushed| ==>
      Matches(s.workers[i].pushed[j].mask, i) && s.workers[i].pushed[j].callable
  }

  ghost function AllPushed(ws: seq<W.State>): multiset<W.Task> {
    if ws == [] then multiset{} else multiset(ws[0].pushed) + AllPushed(ws[1..])
  }

  ghost predicate Inv(s: State) {
    && |s.workers| <= 31 && Placed(s) && AllPushed(s.workers) == multiset(s.accepted)
    && forall i :: 0 <= i < |s.workers| ==> W.Known(s.workers[i])
  }

  lemma {:induction false} AllPushedOfOneMore(ws: seq<W.State>, i: nat, t: W.Task)
    requires i < |ws|
    ensures AllPushed(ws[i := W.Step(ws[i], W.Push(t))]) == AllPushed(ws) + multiset{t}
  {
    var vs := ws[i := W.Step(ws[i], W.Push(t))];
    if i == 0 {
      assert vs[1..] == ws[1..];
    } else {
      AllPushedOfOneMore(ws[1..], i - 1, t);
      assert vs[1..] == ws[1..][i - 1 := W.Step(ws[i], W.Push(t))];
    }
  }

  lemma {:induction false} SamePushed(ws: seq<W.State>, vs: seq<W.State>)
    requires |ws| == |vs| && forall i :: 0 <= i < |ws| ==> ws[i].pushed == vs[i].pushed
    ensures AllPushed(ws) == AllPushed(vs)
  {
    if ws != [] {
      SamePushed(ws[1..], vs[1..]);
    }
  }

  lemma JudgedRight(loads: seq<nat>, task: Option<W.Task>)
    requires |loads| <= 31 && Judge(loads, task).Queued?
    ensures var i := Judge(loads, task).worker;
            task.Some? && task.value.callable && i < |loads| && Matches(task.value.mask, i)
  {
    assert Oks(|loads|, task.value.mask)[Judge(loads, task).worker];
  }

  lemma SubmitInv(s: State, i: nat, t: W.Task)
    requires Inv(s) && i < |s.workers| && Matches(t.mask, i) && t.callable
    ensures Inv(State(s.workers[i := W.Step(s.workers[i], W.Push(t))], s.accepted + [t]))
  {
    W.StepKeepsKnown(s.workers[i], W.Push(t));
    hide Matches, AllPushed, W.Known;
    AllPushedOfOneMore(s.workers, i, t);
    SubmitPlaced(s, i, t);
    hide Placed, W.Step;
  }

  lemma SubmitPlaced(s: State, i: nat, t: W.Task)
    requires i < |s.workers| <= 31 && Placed(s) && Matches(t.mask, i) && t.callable
    ensures Placed(State(s.workers[i := W.Step(s.workers[i], W.Push(t))], s.accepted + [t]))
  {
    hide Matches;
  }

  lemma OtherInv(s: State, r: State)
    requires Inv(s) && |r.workers| == |s.workers| && r.accepted == s.accepted
    requires forall i :: 0 <= i < |s.workers| ==> s.workers[i].pushed == r.workers[i].pushed && W.Known(r.workers[i])
    ensures Inv(r)
  {
    hide Matches, AllPushed, W.Known;
    SamePushed(s.workers, r.workers);
  }

  /** What the events other than a push do to one worker. */
  lemma OtherStep(w: W.State, e: Event)
    requires W.Known(w)
    ensures forall x :: x in {W.Clear, W.Stop, W.Tick} ==> W.Step(w, x).pushed == w.pushed && W.Known(W.Step(w, x))
  {
    W.StepKeepsKnown(w, W.Clear);
    W.StepKeepsKnown(w, W.Stop);
    W.StepKeepsKnown(w, W.Tick);
  }

  lemma StepInv(s: State, e: Event)
    requires Inv(s)
    ensures Inv(Step(s, e))
  {
    hide GuardPasses, Matches, AllPushed, Placed, Judge;
    if e.Submit? {
      if |e.observed| == |s.workers| && Judge(e.observed, e.task).Queued? {
        JudgedRight(e.observed, e.task);
        SubmitInv(s, Judge(e.observed, e.task).worker, e.task.value);
      }
    } else {
      var r := Step(s, e);
      forall i | 0 <= i < |s.workers| ensures r.workers[i].pushed == s.workers[i].pushed && W.Known(r.workers[i]) {
        OtherStep(s.workers[i], e);
      }
      OtherInv(s, r);
    }
  }

  /**
   In every run, whatever lengths `push` sees: tasks sit only at workers that their mask matches, and the tasks pushed
   at all workers together are the accepted ones.
   */
  lemma {:induction false} RunInv(s: State, events: seq<Event>)
    requires Inv(s)
    ensures Inv(Run(s, events))
    decreases |events|
  {
    if events != [] {
      StepInv(s, events[0]);
      hide Inv, Step;
      assert |s.workers| <= 31 && |Step(s, events[0]).workers| <= 31;
      RunInv(Step(s, events[0]), events[1..]);
    }
  }

  ghost predicate AllAdmitted(s: State) {
    forall j :: 0 <= j < |s.accepted| ==> s.accepted[j].callable && Admitted(s.accepted[j].mask, |s.workers|)
  }

  lemma StepAdmits(s: State, e: Event)
    requires |s.workers| <= 31 && AllAdmitted(s)
    ensures AllAdmitted(Step(s, e))
  {
    if e.Submit? && |e.observed| == |s.workers| {
      JudgeIff(e.observed, e.task);
    }
    hide Judge, Admitted, GuardPasses, Matches, W.Step;
  }

  lemma {:induction false} RunAdmits(s: State, events: seq<Event>)
    requires |s.workers| <= 31 && AllAdmitted(s)
    ensures AllAdmitted(Run(s, events))
    decreases |events|
  {
    if events != [] {
      StepAdmits(s, events[0]);
      hide AllAdmitted, Step;
      RunAdmits(Step(s, events[0]), events[1..]);
    }
  }

  /** In every run, every accepted task has a function and a mask with the bit of a worker that is a bit of n - 1. */
  lemma AcceptedIsAdmitted(n: nat, events: seq<Event>, j: nat)
    requires n <= 31 && j < |Run(Start(n), events).accepted|
    ensures var t := Run(Start(n), events).accepted[j];
            n > 0 && t.callable && exists i: nat :: i < n && Bit(t.mask, i) && Bit(n - 1, i)
  {
    RunAdmits(Start(n), events);
    if n == 0 {
      NobodyAccepts(Start(n), events);
    }
  }

  lemma {:induction false} NobodyAccepts(s: State, events: seq<Event>)
    requires s.workers == []
    ensures Run(s, events).accepted == s.accepted
    decreases |events|
  {
    if events != [] {
      var e := events[0];
      if e.Submit? && |e.observed| == 0 {
        JudgeIff(e.observed, e.task);
      }
      hide Judge, GuardPasses;
      NobodyAccepts(Step(s, e), events[1..]);
    }
  }

  /** The entry is queued at the worker, in its hand, or ended there. */
  ghost predicate Serves(w: W.State, e: W.Entry) {
    || (exists j :: 0 <= j < |w.queue| && w.queue[j] == e)
    || (exists j :: 0 <= j < |w.exits| && w.exits[j].entry == e)
    || w.hand == Some(e)
  }

  /**
   In every run of a new pool, clears at any time included: a task that is queued at a worker, in its hand, run or
   cleared there has a function, and its mask matches that worker.
   */
  lemma TasksMatchTheirWorker(n: nat, events: seq<Event>, i: nat, e: W.Entry)
    requires n <= 31 && i < n && Serves(Run(Start(n), events).workers[i], e)
    ensures Matches(e.task.mask, i) && e.task.callable
  {
    NewPoolInv(n);
    RunInv(Start(n), events);
    var w := Run(Start(n), events).workers[i];
    hide Matches, Run, Start;
    assert W.Known(w) && W.Ticketed(e, w.pushed);
  }

  lemma NewPoolInv(n: nat)
    requires n <= 31
    ensures Inv(Start(n))
  {
    NothingPushed(Start(n).workers);
  }

  ghost predicate AllOrderly(s: State) {
    forall i :: 0 <= i < |s.workers| ==> W.Orderly(s.workers[i])
  }

  /** No worker that `clear` empties holds a task at that moment. */
  predicate Disciplined(s: State, events: seq<Event>)
    requires |s.workers| <= 31
    decreases |events|
  {
    events == [] ||
    (&& (events[0].ClearMask? && GuardPasses(events[0].mask, |s.workers|) ==>
           forall i :: 0 <= i < |s.workers| && Matches(events[0].mask, i) ==> s.workers[i].hand == None)
     && Disciplined(Step(s, events[0]), events[1..]))
  }

  lemma StepAllOrderly(s: State, e: Event)
    requires |s.workers| <= 31 && AllOrderly(s) && Disciplined(s, [e])
    ensures AllOrderly(Step(s, e))
  {
    var r := Step(s, e);
    forall i | 0 <= i < |r.workers| ensures W.Orderly(r.workers[i]) {
      var w := s.workers[i];
      assert W.Orderly(w);
      hide W.Orderly, W.Step;
      match e {
        case Submit(task, observed) => if task.Some? { W.StepOrderly(w, W.Push(task.value)); }
        case ClearMask(mask) => if r.workers[i] != w { W.StepOrderly(w, W.Clear); }
        case StopAll => W.StepOrderly(w, W.Stop);
        case Work(k) => W.StepOrderly(w, W.Tick);
      }
    }
  }

  lemma {:induction false} RunAllOrderly(s: State, events: seq<Event>)
    requires |s.workers| <= 31 && AllOrderly(s) && Disciplined(s, events)
    ensures AllOrderly(Run(s, events))
    decreases |events|
  {
    if events != [] {
      var u := Step(s, events[0]);
      assert Disciplined(u, []);
      assert Disciplined(s, [events[0]]) by {
        assert [events[0]][1..] == [];
      }
      StepAllOrderly(s, events[0]);
      hide AllOrderly, Step;
      RunAllOrderly(u, events[1..]);
    }
  }

  // ---- A clear ---------------------------------------------------------------------------------

  /**
   What `clear` does to each worker. If the mask passes the test and matches the worker, every entry of its queue
   ends as cleared, in queue order, and a worker without a task in hand then has nothing ahead: every task ever
   pushed to it has ended. No other worker is touched, and no task is accepted.
   */
  lemma ClearEmptiesMatching(s: State, mask: nat, i: nat)
    requires i < |s.workers| <= 31
    ensures var u := Step(s, ClearMask(mask));
            var w, r := s.workers[i], u.workers[i];
            && u.accepted == s.accepted
            && if !GuardPasses(mask, |s.workers|) || !Matches(mask, i) then r == w
               else
                 && r.queue == [] && r.hand == w.hand && r.pc == w.pc && r.pushed == w.pushed
                 && W.Entries(r.exits) == W.Entries(w.exits) + w.queue
                 && (forall j :: |w.exits| <= j < |r.exits| ==> r.exits[j].fate == W.Fate.Cleared)
                 && (W.Orderly(w) && w.hand == None ==> W.Entries(r.exits) == W.Tickets(w.pushed))
  {
    hide GuardPasses, Matches;
    if GuardPasses(mask, |s.workers|) && Matches(mask, i) {
      var w := s.workers[i];
      W.ClearResult(w);
      var r := W.Step(w, W.Clear);
      assert W.Entries(r.exits) == W.Entries(w.exits) + w.queue;
    }
  }

  function TasksOf(es: seq<W.Entry>): (r: seq<W.Task>)
    ensures |r| == |es|
  {
    seq(|es|, i requires 0 <= i < |es| => es[i].task)
  }

  /** The tasks that ended at a worker, whether completed or cleared, and those still ahead of it. */
  ghost function Accounted(w: W.State): multiset<W.Task> {
    multiset(TasksOf(W.Entries(w.exits))) + multiset(TasksOf(W.Ahead(w)))
  }

  ghost function AllAccounted(ws: seq<W.State>): multiset<W.Task> {
    if ws == [] then multiset{} else Accounted(ws[0]) + AllAccounted(ws[1..])
  }

  lemma OrderlyAccounts(w: W.State)
    requires W.Orderly(w)
    ensures Accounted(w) == multiset(w.pushed)
  {
    var a, b := W.Entries(w.exits), W.Ahead(w);
    assert TasksOf(a + b) == TasksOf(a) + TasksOf(b);
    assert TasksOf(W.Tickets(w.pushed)) == w.pushed;
  }

  lemma {:induction false} AllOrderlyAccount(ws: seq<W.State>)
    requires forall i :: 0 <= i < |ws| ==> W.Orderly(ws[i])
    ensures AllAccounted(ws) == AllPushed(ws)
  {
    if ws != [] {
      OrderlyAccounts(ws[0]);
      AllOrderlyAccount(ws[1..]);
    }
  }

  /**
   From a new pool on, in every run whose clears find no task in hand: the accepted tasks are the disjoint union, over
   the workers, of the completed, the cleared and those ahead; completed tasks ran at a worker their mask matches.
   */
  lemma PoolConserves(n: nat, events: seq<Event>)
    requires n <= 31 && Disciplined(Start(n), events)
    ensures var r := Run(Start(n), events);
            Inv(r) && AllOrderly(r) && AllAccounted(r.workers) == multiset(r.accepted)
  {
    var s := Start(n);
    NewPoolInv(n);
    RunInv(s, events);
    RunAllOrderly(s, events);
    AllOrderlyAccount(Run(s, events).workers);
  }

  lemma {:induction false} NothingPushed(ws: seq<W.State>)
    requires forall i :: 0 <= i < |ws| ==> ws[i].pushed == []
    ensures AllPushed(ws) == multiset{}
  {
    if ws != [] {
      NothingPushed(ws[1..]);
    }
  }

  // ---- Progress --------------------------------------------------------------------------------

  /** What the i-th of n workers sees of an event. */
  function Seen(n: nat, e: Event, i: nat): seq<W.Event>
    requires i < n <= 31
  {
    match e
    case Submit(task, observed) =>
      if |observed| == n && Judge(observed, task) == Queued(i) then [W.Push(task.value)] else []
    case ClearMask(mask) => if GuardPasses(mask, n) && Matches(mask, i) then [W.Clear] else []
    case StopAll => [W.Stop]
    case Work(k) => if k == i then [W.Tick] else []
  }

  function AllSeen(n: nat, events: seq<Event>, i: nat): seq<W.Event>
    requires i < n <= 31
  {
    if events == [] then [] else Seen(n, events[0], i) + AllSeen(n, events[1..], i)
  }

  lemma StepSeen(s: State, e: Event, i: nat)
    requires i < |s.workers| <= 31
    ensures Step(s, e).workers[i] == W.Run(s.workers[i], Seen(|s.workers|, e, i))
  {
    var w, seen := s.workers[i], Seen(|s.workers|, e, i);
    hide GuardPasses, Matches, Judge, W.Step;
    if seen == [] {
      assert W.Run(w, []) == w;
    } else {
      assert seen == [seen[0]];
      W.RunSingle(w, seen[0]);
    }
  }

  /** Seen from one of its workers, a run of the pool is a run of this worker. */
  lemma {:induction false} RunSeen(s: State, events: seq<Event>, i: nat)
    requires i < |s.workers| <= 31
    ensures Run(s, events).workers[i] == W.Run(s.workers[i], AllSeen(|s.workers|, events, i))
    decreases |events|
  {
    hide Step, Seen, W.Step;
    if events != [] {
      var u := Step(s, events[0]);
      StepSeen(s, events[0], i);
      RunSeen(u, events[1..], i);
      W.RunConcat(s.workers[i], Seen(|s.workers|, events[0], i), AllSeen(|s.workers|, events[1..], i));
    }
  }

  /** Nobody clears or stops. */
  predicate Quiet(events: seq<Event>) {
    forall i :: 0 <= i < |events| ==> events[i].Submit? || events[i].Work?
  }

  predicate NobodyStops(events: seq<Event>) {
    forall i :: 0 <= i < |events| ==> events[i] != StopAll
  }

  /** The steps that one worker takes. */
  function StepsOf(events: seq<Event>, i: nat): nat {
    if events == [] then 0 else (if events[0] == Work(i) then 1 else 0) + StepsOf(events[1..], i)
  }

  lemma {:induction false} QuietIsSeen(n: nat, events: seq<Event>, i: nat)
    requires i < n <= 31 && Quiet(events)
    ensures W.OnlyPushes(AllSeen(n, events, i)) && W.TicksIn(AllSeen(n, events, i)) == StepsOf(events, i)
  {
    hide Judge;
    if events != [] {
      var a, b := Seen(n, events[0], i), AllSeen(n, events[1..], i);
      assert events[0].Submit? || events[0].Work?;
      QuietIsSeen(n, events[1..], i);
      W.TicksConcat(a, b);
      assert a == [] || a == [a[0]];
      assert W.TicksIn(a) == if events[0] == Work(i) then 1 else 0;
    }
  }

  /** No worker is told to stop, and none has left its loop. */
  ghost predicate AllGoing(s: State) {
    forall i :: 0 <= i < |s.workers| ==> !s.workers[i].stop && s.workers[i].pc != W.Ended
  }

  lemma {:induction false} RunAllGoing(s: State, events: seq<Event>)
    requires |s.workers| <= 31 && AllGoing(s) && NobodyStops(events)
    ensures AllGoing(Run(s, events))
    decreases |events|
  {
    if events != [] {
      assert events[0] != StopAll;
      StepAllGoing(s, events[0]);
      hide AllGoing, Step;
      RunAllGoing(Step(s, events[0]), events[1..]);
    }
  }

  lemma StepAllGoing(s: State, e: Event)
    requires |s.workers| <= 31 && AllGoing(s) && e != StopAll
    ensures AllGoing(Step(s, e))
  {
    hide Judge, GuardPasses, Matches;
  }

  /** From an orderly state, a worker that goes on ends every task pushed to it so far, in push order. */
  lemma PoolWorkerDrains(s: State, events: seq<Event>, i: nat)
    requires i < |s.workers| <= 31 && AllOrderly(s) && AllGoing(s) && Quiet(events)
    requires StepsOf(events, i) >= 4 * |W.Ahead(s.workers[i])| + 1
    ensures var w, r := s.workers[i], Run(s, events).workers[i];
            && W.Ran(w, r) && |r.exits| >= |w.pushed|
            && forall j :: 0 <= j < |w.pushed| ==> r.exits[j].entry == W.Entry(j, w.pushed[j])
  {
    RunSeen(s, events, i);
    QuietIsSeen(|s.workers|, events, i);
    W.WorkerDrains(s.workers[i], AllSeen(|s.workers|, events, i));
  }

  lemma PushedHasEnded(s: State, events: seq<Event>, i: nat)
    requires i < |s.workers| <= 31 && AllOrderly(s) && AllGoing(s) && Quiet(events)
    requires StepsOf(events, i) >= 4 * |W.Ahead(s.workers[i])| + 1
    ensures var w, r := s.workers[i], Run(s, events).workers[i];
            w.pushed <= TasksOf(W.Entries(r.exits)) && W.Ran(w, r)
  {
    hide Run, AllOrderly, AllGoing, Quiet, StepsOf, W.Ran, W.Ahead;
    PoolWorkerDrains(s, events, i);
  }

  /** The tasks that ended at any worker. */
  ghost function AllEnded(ws: seq<W.State>): multiset<W.Task> {
    if ws == [] then multiset{} else multiset(TasksOf(W.Entries(ws[0].exits))) + AllEnded(ws[1..])
  }

  lemma {:induction false} PushedIsEnded(ws: seq<W.State>, rs: seq<W.State>)
    requires |ws| == |rs|
    requires forall i :: 0 <= i < |ws| ==> ws[i].pushed <= TasksOf(W.Entries(rs[i].exits))
    ensures AllPushed(ws) <= AllEnded(rs)
  {
    if ws != [] {
      PushedIsEnded(ws[1..], rs[1..]);
      var all, n := TasksOf(W.Entries(rs[0].exits)), |ws[0].pushed|;
      assert all == ws[0].pushed + all[n..];
    }
  }

  /**
   Liveness of the pool: after any run of a new pool that was not stopped and whose clears found no task in hand,
   every task accepted so far comes to an end, and none of those still ahead is cleared, once each worker has taken
   four steps a task and one more, among any pushes.
   */
  lemma {:induction false} EveryAcceptedTaskEnds(n: nat, before: seq<Event>, after: seq<Event>)
    requires n <= 31 && NobodyStops(before) && Disciplined(Start(n), before) && Quiet(after)
    requires var s := Run(Start(n), before);
             forall i :: 0 <= i < n ==> StepsOf(after, i) >= 4 * |W.Ahead(s.workers[i])| + 1
    ensures var s := Run(Start(n), before);
            var r := Run(s, after);
            && multiset(s.accepted) <= AllEnded(r.workers)
            && forall i :: 0 <= i < n ==> W.Ran(s.workers[i], r.workers[i])
  {
    var s := Run(Start(n), before);
    NewPoolInv(n);
    RunInv(Start(n), before);
    RunAllOrderly(Start(n), before);
    RunAllGoing(Start(n), before);
    assert multiset(s.accepted) == AllPushed(s.workers);
    hide *;
    var r := Run(s, after);
    forall i | 0 <= i < n
      ensures s.workers[i].pushed <= TasksOf(W.Entries(r.workers[i].exits)) && W.Ran(s.workers[i], r.workers[i])
    {
      PushedHasEnded(s, after, i);
    }
    PushedIsEnded(s.workers, r.workers);
  }

  // ---- Repeated pushes ----------------------------------------------------------------------

  /** k pushes of one task, each of which sees the queue lengths as they are. */
  function PushTimes(s: State, task: W.Task, k: nat): (r: State)
    requires |s.workers| <= 31
    ensures |r.workers| == |s.workers|
    decreases k
  {
    if k == 0 then s else PushTimes(Step(s, Submit(Some(task), Loads(s.workers))), task, k - 1)
  }

  lemma OnePush(s: State, task: W.Task)
    requires |s.workers| <= 31 && task.callable && GuardPasses(task.mask, |s.workers|)
    ensures var loads := Loads(s.workers);
            Loads(Step(s, Submit(Some(task), loads)).workers) == OneMore(loads, Oks(|s.workers|, task.mask))
  {
    hide GuardPasses, Matches, Choose;
  }

  /** The pool does what the analysis of least-loaded dispatch is about. */
  lemma {:induction false} PushesAreGreedy(s: State, task: W.Task, k: nat)
    requires |s.workers| <= 31 && task.callable && GuardPasses(task.mask, |s.workers|)
    ensures Loads(PushTimes(s, task, k).workers) == Greedy(Loads(s.workers), Oks(|s.workers|, task.mask), k)
    decreases k
  {
    hide Step, GuardPasses, Choose, Oks, Loads, Greedy, OneMore;
    GreedyUnfolds(Loads(s.workers), Oks(|s.workers|, task.mask), k);
    if k > 0 {
      OnePush(s, task);
      PushesAreGreedy(Step(s, Submit(Some(task), Loads(s.workers))), task, k - 1);
    }
  }

  /**
   k pushes of an admitted task to a new pool leave floor(k/m) or ceil(k/m) tasks at each of the m workers it matches.
   */
  lemma PoolIsFair(n: nat, task: W.Task, k: nat, i: nat)
    requires i < n <= 31 && task.callable && GuardPasses(task.mask, n) && Matches(task.mask, i) && k <= SIZE_MAX
    ensures Workers(Oks(n, task.mask)) > 0
    ensures var m := Workers(Oks(n, task.mask));
            k / m <= |PushTimes(Start(n), task, k).workers[i].queue| <= (k + m - 1) / m
  {
    hide PushTimes, Greedy, Workers, Matches, GuardPasses, Oks, Start, Step, Loads, Choose;
    var s, ok := Start(n), Oks(n, task.mask);
    NewPoolLoads(n);
    PushesAreGreedy(s, task, k);
    assert ok[i];
    DispatchIsFair(Loads(s.workers), ok, k, i);
  }

  lemma NewPoolLoads(n: nat)
    ensures |Start(n).workers| == n && forall j :: 0 <= j < n ==> Loads(Start(n).workers)[j] == 0
  {
  }

  /**
   From any state of the pool, pushing a task k times keeps every bound on the queues it matches that some other
   placement of the k tasks keeps.
   */
  lemma {:induction false} PoolIsOptimal(s: State, task: W.Task, choices: seq<nat>, bound: nat, i: nat)
    requires i < |s.workers| <= 31 && task.callable && GuardPasses(task.mask, |s.workers|) && Matches(task.mask, i)
    requires Eligible(choices, Oks(|s.workers|, task.mask))
    requires forall j :: 0 <= j < |s.workers| ==> |s.workers[j].queue| + |choices| <= SIZE_MAX
    requires forall j :: 0 <= j < |s.workers| && Matches(task.mask, j) ==> Place(Loads(s.workers), choices)[j] <= bound
    ensures |PushTimes(s, task, |choices|).workers[i].queue| <= bound
  {
    var ok, loads := Oks(|s.workers|, task.mask), Loads(s.workers);
    PushesAreGreedy(s, task, |choices|);
    hide Place, Matches, Greedy, PushTimes;
    DispatchIsOptimal(loads, ok, choices, bound);
    assert ok[i];
    assert Loads(PushTimes(s, task, |choices|).workers)[i] <= bound;
  }

  // ---- The code --------------------------------------------------------------------------------

  /** The two variables of the scan after the first i workers. */
  ghost predicate Best(loads: seq<nat>, ok: seq<bool>, i: nat, id: nat, count: nat) {
    && i <= |loads| == |ok|
    && match Choose(loads[..i], ok[..i])
       case None => count == SIZE_MAX
       case Some(c) => id == c && count == loads[c] < SIZE_MAX
  }

  lemma BestOfNone(loads: seq<nat>, ok: seq<bool>)
    requires |loads| == |ok|
    ensures Best(loads, ok, 0, 0, SIZE_MAX)
  {
  }

  lemma BestOfMore(loads: seq<nat>, ok: seq<bool>, i: nat, id: nat, count: nat)
    requires i < |loads| && Best(loads, ok, i, id, count)
    ensures |ok| == |loads|
    ensures if ok[i] && loads[i] < count then Best(loads, ok, i + 1, i, loads[i]) else Best(loads, ok, i + 1, id, count)
  {
    ChooseAmongMore(loads, ok, i);
    hide Choose;
  }

  lemma BestOfAll(loads: seq<nat>, ok: seq<bool>, id: nat, count: nat)
    requires Best(loads, ok, |loads|, id, count)
    ensures |ok| == |loads|
    ensures match Choose(loads, ok)
            case None => count == SIZE_MAX
            case Some(c) => id == c && count == loads[c] < SIZE_MAX
  {
    assert loads[..|loads|] == loads && ok[..|ok|] == ok;
  }

  class ThreadPool {
    const workers: seq<W.Thread>      // _workers, whose keys are 0, 1, ...

    ghost predicate Valid()
      reads this, workers
    {
      && |workers| <= 31
      && (forall i, j :: 0 <= i < j < |workers| ==> workers[i] != workers[j])
      && forall i :: 0 <= i < |workers| ==> workers[i].Valid()
    }

    ghost function Now(): (ws: seq<W.State>)
      reads this, workers
      ensures |ws| == |workers| && forall i :: 0 <= i < |workers| ==> ws[i] == workers[i].Now()
    {
      seq(|workers|, i requires 0 <= i < |workers| reads workers => workers[i].Now())
    }

    constructor (concurrency: nat)
      requires concurrency <= 31
      ensures Valid() && fresh(workers) && Now() == Start(concurrency).workers
    {
      var ws: seq<W.Thread> := [];
      for i := 0 to concurrency
        invariant |ws| == i
        invariant forall j :: 0 <= j < i ==> fresh(ws[j]) && ws[j].Valid() && ws[j].Now() == W.Start()
        invariant forall j, k :: 0 <= j < k < i ==> ws[j] != ws[k]
      {
        var w := new W.Thread();
        ws := ws + [w];
      }
      workers := ws;
    }

    /** The scan of `push` over the workers: `count` stays SIZE_MAX when none is eligible. */
    method LeastLoaded(mask: nat) returns (id: nat, count: nat)
      requires Valid()
      ensures match Choose(Loads(Now()), Oks(|workers|, mask))
              case None => count == SIZE_MAX
              case Some(i) => id == i && count == |workers[i].queue| < SIZE_MAX
    {
      ghost var loads, ok := Loads(Now()), Oks(|workers|, mask);
      assert forall j :: 0 <= j < |workers| ==> loads[j] == |workers[j].queue| && (ok[j] <==> Matches(mask, j));
      hide Matches, Choose, Best;
      id, count := ScanLoads(mask, loads, ok);
      BestOfAll(loads, ok, id, count);
    }

    /** The loop of the scan; `loads` are the queue lengths, `ok` tells which workers the mask matches. */
    method ScanLoads(mask: nat, ghost loads: seq<nat>, ghost ok: seq<bool>) returns (id: nat, count: nat)
      requires |loads| == |ok| == |workers| <= 31
      requires forall j :: 0 <= j < |workers| ==> loads[j] == |workers[j].queue| && (ok[j] <==> Matches(mask, j))
      ensures Best(loads, ok, |workers|, id, count)
    {
      hide Matches, Best;
      id, count := 0, SIZE_MAX;
      BestOfNone(loads, ok);
      var i := 0;
      while i < |workers|
        invariant 0 <= i <= |workers| && Best(loads, ok, i, id, count)
      {
        BestOfMore(loads, ok, i, id, count);
        if Matches(mask, i) && |workers[i].queue| < count {
          id, count := i, |workers[i].queue|;
        }
        i := i + 1;
      }
    }

    method PushAt(id: nat, task: W.Task)
      requires Valid() && id < |workers|
      modifies workers[id]
      ensures Valid() && Now() == old(Now())[id := W.Step(old(Now())[id], W.Push(task))]
    {
      workers[id].Push(task);
    }

    method Push(task: Option<W.Task>) returns (v: Verdict)
      requires Valid()
      modifies workers
      ensures Valid() && v == Judge(Loads(old(Now())), task)
      ensures Now() == match v
                       case Queued(i) => old(Now())[i := W.Step(old(Now())[i], W.Push(task.value))]
                       case _ => old(Now())
    {
      hide Choose, W.Step, Matches, GuardPasses;
      if task == None {
        return NullTask;
      }
      if !task.value.callable {
        return NullFunction;
      }
      if !GuardPasses(task.value.mask, |workers|) {
        return BadMask;
      }
      var lowestId, lowestCount := LeastLoaded(task.value.mask);
      if lowestCount == SIZE_MAX {
        return Full;
      }
      PushAt(lowestId, task.value);
      return Queued(lowestId);
    }

    method Clear(mask: nat) returns (thrown: bool)
      requires Valid()
      modifies workers
      ensures Valid() && (thrown <==> !GuardPasses(mask, |workers|))
      ensures Now() == if thrown then old(Now()) else ClearMatching(old(Now()), mask)
    {
      hide W.Step, Matches, GuardPasses;
      if !GuardPasses(mask, |workers|) {
        return true;
      }
      var i := 0;
      while i < |workers|
        invariant 0 <= i <= |workers| && Valid()
        invariant forall j :: 0 <= j < i ==> Now()[j] == ClearMatching(old(Now()), mask)[j]
        invariant forall j :: i <= j < |workers| ==> Now()[j] == old(Now())[j]
      {
        if Matches(mask, i) {
          workers[i].Clear();
        }
        i := i + 1;
      }
      return false;
    }
  }
}
