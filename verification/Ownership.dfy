/** What every run of the whole system keeps, however requests collide and whatever the commands
    print: who takes an entry off the queue and who closes a FIFO end. */
module Ownership {
  import opened Wire
  import opened Lifecycle
  import opened Search
  import TaskQueue

  // ----- ownership, in every run

  predicate NoDuplicates(q: seq<nat>) {
    forall i, j :: 0 <= i < j < |q| ==> q[i] != q[j]
  }

  /** `q` lists, once each, exactly the tasks at the stages `stages`. */
  ghost predicate Lists(q: seq<nat>, tasks: seq<Task>, stages: Stage -> bool) {
    && NoDuplicates(q)
    && forall w: nat :: w in q <==> w < |tasks| && stages(tasks[w].stage)
  }

  predicate Queued(st: Stage) {
    st.Running?
  }

  predicate OffQueue(st: Stage) {
    st.Removed? || st.Closed? || st.Cancelled?
  }

  predicate FifoClosed(st: Stage) {
    st.Closed? || st.Cancelled?
  }

  /** The queue holds exactly the running tasks, and the logs exactly those that have left it and
      those whose FIFO end is closed: each entry is removed once, each FIFO end is closed once. */
  ghost predicate Owned(s: System) {
    && Lists(s.queue, s.tasks, Queued)
    && Lists(s.removals, s.tasks, OffQueue)
    && Lists(s.closes, s.tasks, FifoClosed)
  }

  lemma {:induction false} WithoutFacts(q: seq<nat>, w: nat)
    requires NoDuplicates(q)
    ensures NoDuplicates(Without(q, w))
    ensures forall x: nat :: x in Without(q, w) <==> x in q && x != w
  {
    if q != [] {
      WithoutFacts(q[1..], w);
      assert forall i :: 1 <= i < |q| ==> q[i] == q[1..][i - 1];
      assert forall x :: x in q <==> x == q[0] || x in q[1..];
      if q[0] != w {
        var r := Without(q[1..], w);
        assert Without(q, w) == [q[0]] + r;
        assert q[0] !in r;
        assert forall x :: x in [q[0]] + r <==> x == q[0] || x in r;
      }
    }
  }

  /** Taking a member off a queue without duplicates cuts it out where it stands. */
  lemma {:induction false} WithoutCutsOut(q: seq<nat>, i: nat)
    requires NoDuplicates(q) && i < |q|
    ensures Without(q, q[i]) == CutOut(q, i)
  {
    if i > 0 {
      var tail := q[1..];
      assert q[i] == tail[i - 1] && q[0] != q[i];
      WithoutCutsOut(tail, i - 1);
      CutOutBehind(q, i);
    }
  }

  lemma CutOutBehind(q: seq<nat>, i: nat)
    requires 0 < i < |q|
    ensures CutOut(q, i) == [q[0]] + CutOut(q[1..], i - 1)
  {
  }

  /** A cancel here does to the queue what it does to the linked list: when both hold entries of
      the same clients in the same order before, they do so afterwards. */
  lemma CancelAgrees(s: System, c: nat, opt: int, ts: seq<TaskQueue.Task>, es: seq<TaskQueue.Effect>,
                     ts': seq<TaskQueue.Task>, es': seq<TaskQueue.Effect>)
    requires Owned(s) && ValidOption(opt) && TaskQueue.ClientIds(ts) == QueuedIds(s)
    requires TaskQueue.Cancelled(ts, es, c, opt, ts', es')
    ensures TaskQueue.ClientIds(ts') == QueuedIds(Next(s, Cancel(c, opt)))
  {
    var k := FirstIndex(QueuedIds(s), c);
    if k < |ts| {
      assert s.queue[k] in s.queue;
      WithoutCutsOut(s.queue, k);
      QueuedIdsCut(s, Next(s, Cancel(c, opt)), k);
      TaskQueue.ClientIdsCut(ts, k);
    }
  }

  /** Likewise a worker's own steps: it joins at the head, as `TaskQueue.Queue.Add` puts it, and is
      cut out where it stands, as `TaskQueue.Queue.Remove` does. */
  lemma WorkerAgrees(s: System, w: nat)
    requires Owned(s)
    ensures Enabled(s, Add(w)) ==> QueuedIds(Next(s, Add(w))) == [s.tasks[w].client] + QueuedIds(s)
    ensures Enabled(s, Remove(w)) ==>
      exists k :: 0 <= k < |s.queue| && s.queue[k] == w && QueuedIds(Next(s, Remove(w))) == CutOut(QueuedIds(s), k)
  {
    if Enabled(s, Add(w)) {
      AddIds(s, Next(s, Add(w)), w);
    }
    if Enabled(s, Remove(w)) {
      assert w in s.queue;
      var k :| 0 <= k < |s.queue| && s.queue[k] == w;
      WithoutCutsOut(s.queue, k);
      QueuedIdsCut(s, Next(s, Remove(w)), k);
    }
  }

  lemma AddIds(s: System, t: System, w: nat)
    requires w < |s.tasks| && t.queue == [w] + s.queue && |t.tasks| == |s.tasks|
    requires forall v :: 0 <= v < |s.tasks| ==> t.tasks[v].client == s.tasks[v].client
    ensures QueuedIds(t) == [s.tasks[w].client] + QueuedIds(s)
  {
    forall i | 0 <= i < |t.queue|
      ensures ClientOf(t, i) == if i == 0 then s.tasks[w].client else ClientOf(s, i - 1)
    {
      assert t.queue[i] == if i == 0 then w else s.queue[i - 1];
    }
  }

  lemma QueuedIdsCut(s: System, t: System, k: nat)
    requires k < |s.queue| && t.queue == CutOut(s.queue, k) && |t.tasks| == |s.tasks|
    requires forall w :: 0 <= w < |s.tasks| ==> t.tasks[w].client == s.tasks[w].client
    ensures QueuedIds(t) == CutOut(QueuedIds(s), k)
  {
    forall i | 0 <= i < |t.queue|
      ensures ClientOf(t, i) == ClientOf(s, if i < k then i else i + 1)
    {
      assert t.queue[i] == s.queue[if i < k then i else i + 1];
    }
  }

  /** A task moves from one stage to another: it joins, leaves or stays off a list accordingly. */
  lemma Joins(q: seq<nat>, tasks: seq<Task>, stages: Stage -> bool, w: nat, stage: Stage)
    requires Lists(q, tasks, stages) && w < |tasks|
    requires !stages(tasks[w].stage) && stages(stage)
    ensures Lists(q + [w], tasks[w := tasks[w].(stage := stage)], stages)
    ensures Lists([w] + q, tasks[w := tasks[w].(stage := stage)], stages)
  {
    assert w !in q;
    assert forall x :: x in q + [w] <==> x in q || x == w;
    assert forall x :: x in [w] + q <==> x in q || x == w;
  }

  lemma Leaves(q: seq<nat>, tasks: seq<Task>, stages: Stage -> bool, w: nat, stage: Stage)
    requires Lists(q, tasks, stages) && w < |tasks|
    requires stages(tasks[w].stage) && !stages(stage)
    ensures Lists(Without(q, w), tasks[w := tasks[w].(stage := stage)], stages)
  {
    WithoutFacts(q, w);
  }

  lemma Stays(q: seq<nat>, tasks: seq<Task>, stages: Stage -> bool, tasks': seq<Task>)
    requires Lists(q, tasks, stages) && |tasks'| == |tasks|
    requires forall w :: 0 <= w < |tasks| ==> (stages(tasks[w].stage) <==> stages(tasks'[w].stage))
    ensures Lists(q, tasks', stages)
  {
  }

  lemma StaysOff(q: seq<nat>, tasks: seq<Task>, stages: Stage -> bool, task: Task)
    requires Lists(q, tasks, stages) && !stages(task.stage)
    ensures Lists(q, tasks + [task], stages)
  {
  }

  /** Tasks change, but none that has joined the queue goes to another stage. */
  lemma AllStay(s: System, tasks': seq<Task>)
    requires Owned(s) && |tasks'| == |s.tasks|
    requires forall w :: 0 <= w < |tasks'| ==>
      tasks'[w].stage == s.tasks[w].stage || (s.tasks[w].stage.Opening? && tasks'[w].stage.Opened?)
    ensures Owned(s.(tasks := tasks'))
  {
    Stays(s.queue, s.tasks, Queued, tasks');
    Stays(s.removals, s.tasks, OffQueue, tasks');
    Stays(s.closes, s.tasks, FifoClosed, tasks');
  }

  lemma CopyOwned(s: System, made: Task)
    requires Owned(s) && made.stage.Opening?
    ensures Owned(s.(tasks := s.tasks + [made]))
  {
    StaysOff(s.queue, s.tasks, Queued, made);
    StaysOff(s.removals, s.tasks, OffQueue, made);
    StaysOff(s.closes, s.tasks, FifoClosed, made);
  }

  lemma AddOwned(s: System, w: nat)
    requires Owned(s) && HasTask(s, w, Opened)
    ensures Owned(s.(tasks := Staged(s, w, Running), queue := [w] + s.queue))
  {
    Joins(s.queue, s.tasks, Queued, w, Running);
    Stays(s.removals, s.tasks, OffQueue, Staged(s, w, Running));
    Stays(s.closes, s.tasks, FifoClosed, Staged(s, w, Running));
  }

  lemma RemoveOwned(s: System, w: nat)
    requires Owned(s) && HasTask(s, w, Running)
    ensures Owned(s.(tasks := Staged(s, w, Removed), queue := Without(s.queue, w), removals := s.removals + [w]))
  {
    Leaves(s.queue, s.tasks, Queued, w, Removed);
    Joins(s.removals, s.tasks, OffQueue, w, Removed);
    Stays(s.closes, s.tasks, FifoClosed, Staged(s, w, Removed));
  }

  lemma CloseOwned(s: System, w: nat)
    requires Owned(s) && HasTask(s, w, Removed)
    ensures Owned(s.(tasks := Staged(s, w, Closed), closes := s.closes + [w]))
  {
    Stays(s.queue, s.tasks, Queued, Staged(s, w, Closed));
    Stays(s.removals, s.tasks, OffQueue, Staged(s, w, Closed));
    Joins(s.closes, s.tasks, FifoClosed, w, Closed);
  }

  lemma CancelOwned(s: System, w: nat, opt: int)
    requires Owned(s) && HasTask(s, w, Running)
    ensures Owned(s.(tasks := Staged(s, w, Cancelled(opt)), queue := Without(s.queue, w),
                     removals := s.removals + [w], closes := s.closes + [w]))
  {
    Leaves(s.queue, s.tasks, Queued, w, Cancelled(opt));
    Joins(s.removals, s.tasks, OffQueue, w, Cancelled(opt));
    Joins(s.closes, s.tasks, FifoClosed, w, Cancelled(opt));
  }

  lemma OwnedStep(s: System, a: Event)
    requires Owned(s) && Enabled(s, a)
    ensures Owned(Next(s, a))
  {
    match a
    case Copy(output) => CopyOwned(s, Task(s.slot.slot.client, output, 0, 0, Opening));
    case Connect(_) => AllStay(s, Next(s, a).tasks);
    case Join(_) => AllStay(s, Next(s, a).tasks);
    case Send(_, _) => AllStay(s, Next(s, a).tasks);
    case Add(w) => AddOwned(s, w);
    case Remove(w) => RemoveOwned(s, w);
    case Close(w) => CloseOwned(s, w);
    case Cancel(c, opt) =>
      var i := FirstIndex(QueuedIds(s), c);
      if i < |s.queue| && s.queue[i] < |s.tasks| {
        assert s.queue[i] in s.queue;
        CancelOwned(s, s.queue[i], opt);
      }
    case _ =>
  }

  lemma {:induction false} OwnedRun(s: System, run: seq<Event>)
    requires Owned(s) && IsRun(s, run)
    ensures Owned(After(s, run))
    decreases |run|
  {
    if run != [] {
      OwnedStep(s, run[0]);
      OwnedRun(Next(s, run[0]), run[1..]);
    }
  }

  lemma NothingListed(stages: Stage -> bool)
    ensures Lists([], [], stages)
  {
  }

  lemma StartOwned(clients: nat)
    ensures Owned(Start(clients))
  {
    NothingListed(Queued);
    NothingListed(OffQueue);
    NothingListed(FifoClosed);
  }

  /** In every run of any number of clients, whatever they load and whatever the commands print:
      the queue holds exactly the running tasks, every entry is removed once, and every FIFO end
      is closed once, by the worker or by the canceller. */
  lemma EveryRunIsOwned(clients: nat, run: seq<Event>)
    requires IsRun(Start(clients), run)
    ensures Owned(After(Start(clients), run))
  {
    StartOwned(clients);
    OwnedRun(Start(clients), run);
  }
}
