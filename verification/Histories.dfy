/** What the state of the whole system tells of the run that led to it. */
module Histories {
  import opened Lifecycle
  import opened Ownership
  import opened Search
  import Slot

  /** The requests the clients have loaded, in order. */
  function LoadedIn(run: seq<Event>): seq<Slot.Request> {
    if run == [] then []
    else (if run[0].Load? then [Slot.Request(run[0].client, run[0].text)] else []) + LoadedIn(run[1..])
  }

  /** The outputs of the commands run, in the order of their starts. */
  function OutputsOf(run: seq<Event>): seq<string> {
    if run == [] then [] else (if run[0].Copy? then [run[0].output] else []) + OutputsOf(run[1..])
  }

  /** The task a cancel by client id would find: the first in the queue. */
  function FoundBy(s: System, c: nat): seq<nat> {
    var k := FirstIndex(QueuedIds(s), c);
    if k < |s.queue| then [s.queue[k]] else []
  }

  /** The task that a step takes off the queue, if any. */
  function LeavesQueue(s: System, a: Event): seq<nat> {
    match a
    case Remove(w) => [w]
    case Cancel(c, _) => FoundBy(s, c)
    case _ => []
  }

  /** The task whose FIFO end a step closes, if any. */
  function ClosesEnd(s: System, a: Event): seq<nat> {
    match a
    case Close(w) => [w]
    case Cancel(c, _) => FoundBy(s, c)
    case _ => []
  }

  /** The task on whose FIFO a step writes, if any. */
  function WritesFor(s: System, a: Event): seq<nat> {
    match a
    case Send(w, _) => [w]
    case Cancel(c, _) => FoundBy(s, c)
    case _ => []
  }

  /** A step that writes to a FIFO that its client does not read. */
  predicate WritesUnread(s: System, a: Event) {
    exists w :: w in WritesFor(s, a) && w < |s.tasks| && !HasClient(s, s.tasks[w].client, Served(s.tasks[w].fifo))
  }

  function RemovedIn(s: System, run: seq<Event>): seq<nat>
    requires IsRun(s, run)
    decreases |run|
  {
    if run == [] then [] else LeavesQueue(s, run[0]) + RemovedIn(Next(s, run[0]), run[1..])
  }

  function ClosedIn(s: System, run: seq<Event>): seq<nat>
    requires IsRun(s, run)
    decreases |run|
  {
    if run == [] then [] else ClosesEnd(s, run[0]) + ClosedIn(Next(s, run[0]), run[1..])
  }

  predicate UnreadIn(s: System, run: seq<Event>)
    requires IsRun(s, run)
    decreases |run|
  {
    run != [] && (WritesUnread(s, run[0]) || UnreadIn(Next(s, run[0]), run[1..]))
  }

  /** Each dispatched request has become one task, of the same client, in the same order. */
  predicate TasksMatch(s: System) {
    && |s.tasks| == |s.slot.dispatched|
    && forall i :: 0 <= i < |s.tasks| ==> s.tasks[i].client == s.slot.dispatched[i].client
  }

  function Outputs(tasks: seq<Task>): seq<string> {
    seq(|tasks|, i requires 0 <= i < |tasks| => tasks[i].output)
  }

  // ----- one step

  lemma LogsStep(s: System, a: Event)
    requires Owned(s) && Enabled(s, a)
    ensures Next(s, a).removals == s.removals + LeavesQueue(s, a)
    ensures Next(s, a).closes == s.closes + ClosesEnd(s, a)
    ensures Next(s, a).broken <==> s.broken || WritesUnread(s, a)
  {
    if a.Cancel? {
      var k := FirstIndex(QueuedIds(s), a.client);
      if k < |s.queue| {
        assert s.queue[k] in s.queue;
        assert s.queue[k] in WritesFor(s, a);
      }
    } else if a.Send? {
      assert a.task in WritesFor(s, a);
    }
  }

  lemma LoadedStep(s: System, a: Event)
    requires Enabled(s, a)
    ensures Next(s, a).slot.loaded ==
            s.slot.loaded + if a.Load? then [Slot.Request(a.client, a.text)] else []
  {
  }

  lemma TasksStep(s: System, a: Event)
    requires TasksMatch(s) && Enabled(s, a)
    ensures TasksMatch(Next(s, a))
    ensures Outputs(Next(s, a).tasks) == Outputs(s.tasks) + if a.Copy? then [a.output] else []
  {
    TasksAfter(s, a);
    SlotMoves(s, a);
  }

  /** A step starts a task only by a copy, and changes no task's client or output. */
  lemma TasksAfter(s: System, a: Event)
    requires Enabled(s, a)
    ensures var t := Next(s, a);
            && |t.tasks| == |s.tasks| + (if a.Copy? then 1 else 0)
            && (forall i :: 0 <= i < |s.tasks| ==>
                  t.tasks[i].client == s.tasks[i].client && t.tasks[i].output == s.tasks[i].output)
            && (a.Copy? ==> t.tasks[|s.tasks|].client == s.slot.slot.client && t.tasks[|s.tasks|].output == a.output)
  {
  }

  lemma {:induction false} RunTells(s: System, run: seq<Event>)
    requires Owned(s) && TasksMatch(s) && IsRun(s, run)
    ensures var t := After(s, run);
            && t.slot.loaded == s.slot.loaded + LoadedIn(run)
            && TasksMatch(t) && Outputs(t.tasks) == Outputs(s.tasks) + OutputsOf(run)
            && t.removals == s.removals + RemovedIn(s, run)
            && t.closes == s.closes + ClosedIn(s, run)
            && (t.broken <==> s.broken || UnreadIn(s, run))
    decreases |run|
  {
    if run != [] {
      var a := run[0];
      OwnedStep(s, a);
      LogsStep(s, a);
      LoadedStep(s, a);
      TasksStep(s, a);
      RunTells(Next(s, a), run[1..]);
      Regroup(s.slot.loaded, if a.Load? then [Slot.Request(a.client, a.text)] else [], LoadedIn(run[1..]));
      Regroup(Outputs(s.tasks), if a.Copy? then [a.output] else [], OutputsOf(run[1..]));
      Regroup(s.removals, LeavesQueue(s, a), RemovedIn(Next(s, a), run[1..]));
      Regroup(s.closes, ClosesEnd(s, a), ClosedIn(Next(s, a), run[1..]));
    }
  }

  lemma Regroup<T>(a: seq<T>, b: seq<T>, c: seq<T>)
    ensures a + b + c == a + (b + c)
  {
  }

  /** In every run of any number of clients: the requests loaded are those of the loads, with their
      clients and texts; every dispatch has become one task of its client, running what its copy
      started; what has left the queue and what has been closed is what the run's removals, closes
      and cancels took; and something was written to a FIFO without a reader exactly when some step
      of the run wrote so. */
  lemma EveryRunIsTold(clients: nat, run: seq<Event>)
    requires IsRun(Start(clients), run)
    ensures var s := After(Start(clients), run);
            && s.slot.loaded == LoadedIn(run)
            && TasksMatch(s) && Outputs(s.tasks) == OutputsOf(run)
            && s.removals == RemovedIn(Start(clients), run)
            && s.closes == ClosedIn(Start(clients), run)
            && (s.broken <==> UnreadIn(Start(clients), run))
  {
    StartOwned(clients);
    RunTells(Start(clients), run);
    assert forall l: seq<nat> :: [] + l == l;
  }
}
