/** Where every run ends up when clients load nothing more: the system comes to rest, and what rest
    means for its clients and tasks. */
module Rest {
  import opened Worker
  import opened Lifecycle
  import opened Ownership
  import opened Channels
  import opened Histories
  import opened Rounds
  import opened Search
  import Slot

  // ----- what rest means

  /** Nothing can happen but a load, a client's exit or a console command. */
  ghost predicate Settled(s: System) {
    forall a :: Enabled(s, a) ==> a.Load? || a.Quit? || a.Cancel?
  }

  /** Nobody sends or is served; who waits is stranded; every task has closed its FIFO end, or is
      blocked on a FIFO that its client has not opened. */
  predicate AtRest(s: System) {
    && s.slot.sem == 0 && !s.slot.copying
    && (forall c :: 0 <= c < |s.clients| ==>
          s.clients[c].Ready? || s.clients[c].Gone? || (s.clients[c].Waiting? && Stranded(s, c)))
    && (forall w :: 0 <= w < |s.tasks| ==> Shut(s.tasks[w]) || s.tasks[w].stage.Opening?)
  }

  /** What of the slot holds in every run. */
  predicate SlotFollowed(s: System) {
    && Slot.Inv(s.slot) && |s.clients| == |s.slot.phase|
    && forall c :: 0 <= c < |s.clients| ==> (s.clients[c].Sending? <==> s.slot.phase[c] != Slot.Idle)
  }

  predicate SentWithin(s: System) {
    forall w :: 0 <= w < |s.tasks| ==> s.tasks[w].sent <= |Encode(s.tasks[w].output)|
  }

  lemma SlotFollowedStep(s: System, a: Event)
    requires SlotFollowed(s) && Enabled(s, a)
    ensures SlotFollowed(Next(s, a))
  {
    SlotMoves(s, a);
    if SlotStep(a) {
      Slot.StepKeeps(s.slot, ToSlot(a));
      SendingStep(s, a);
    }
  }

  lemma SendingStep(s: System, a: Event)
    requires |s.clients| == |s.slot.phase| && Enabled(s, a) && SlotStep(a)
    requires forall c :: 0 <= c < |s.clients| ==> (s.clients[c].Sending? <==> s.slot.phase[c] != Slot.Idle)
    ensures var t := Next(s, a);
            && |t.clients| == |t.slot.phase|
            && forall c :: 0 <= c < |t.clients| ==> (t.clients[c].Sending? <==> t.slot.phase[c] != Slot.Idle)
  {
  }

  lemma SentWithinStep(s: System, a: Event)
    requires SentWithin(s) && Enabled(s, a)
    ensures SentWithin(Next(s, a))
  {
  }

  ghost predicate Followed(s: System) {
    Owned(s) && Known(s) && Traced(s) && SlotFollowed(s) && SentWithin(s)
  }

  lemma {:induction false} FollowedRun(s: System, run: seq<Event>)
    requires Followed(s) && IsRun(s, run)
    ensures Followed(After(s, run))
    decreases |run|
  {
    if run != [] {
      var a := run[0];
      OwnedStep(s, a);
      KnownStep(s, a);
      TracedStep(s, a);
      SlotFollowedStep(s, a);
      SentWithinStep(s, a);
      FollowedRun(Next(s, a), run[1..]);
    }
  }

  lemma StartFollowed(clients: nat)
    ensures Followed(Start(clients))
  {
    StartKnown(clients);
    Slot.StartHolds(clients);
  }

  lemma RestSettles(s: System)
    requires SlotFollowed(s) && AtRest(s)
    ensures Settled(s)
  {
    forall a | Enabled(s, a)
      ensures a.Load? || a.Quit? || a.Cancel?
    {
      RestAllows(s, a);
    }
  }

  lemma RestAllows(s: System, a: Event)
    requires SlotFollowed(s) && AtRest(s) && Enabled(s, a)
    ensures a.Load? || a.Quit? || a.Cancel?
  {
    if a.Connect? {
      OpenReleasesAll(s, a.client);
    }
  }

  /** At rest no client is sending, and the listener has nothing to do. */
  lemma SettledSlot(s: System)
    requires SlotFollowed(s) && Settled(s)
    ensures forall c :: 0 <= c < |s.clients| ==> !s.clients[c].Sending?
    ensures s.slot.sem == 0 && !s.slot.copying && !s.slot.pending
  {
    assert !Enabled(s, Wait) && !Enabled(s, Copy(""));
    forall c | 0 <= c < |s.clients|
      ensures s.slot.phase[c] == Slot.Idle
    {
      assert !Enabled(s, TryWait(c)) && !Enabled(s, Post(c));
    }
    Slot.CountZero(s.slot.phase, Slot.Written);
    Slot.CountZero(s.slot.phase, Slot.Tried);
  }

  /** A task past its open that has not closed its FIFO end can always go on. */
  lemma TaskCanGoOn(s: System, w: nat) returns (a: Event)
    requires SentWithin(s) && w < |s.tasks| && !Shut(s.tasks[w]) && !s.tasks[w].stage.Opening?
    ensures Enabled(s, a) && (a.Add? || a.Send? || a.Remove? || a.Close?)
  {
    var t := s.tasks[w];
    a := match t.stage
      case Opened => Add(w)
      case Running => if t.sent < |Encode(t.output)| then Send(w, |Encode(t.output)|) else Remove(w)
      case _ => Close(w);
  }

  lemma SettledTasks(s: System)
    requires SentWithin(s) && Settled(s)
    ensures forall w :: 0 <= w < |s.tasks| ==> Shut(s.tasks[w]) || s.tasks[w].stage.Opening?
  {
    forall w | 0 <= w < |s.tasks|
      ensures Shut(s.tasks[w]) || s.tasks[w].stage.Opening?
    {
      if !Shut(s.tasks[w]) && !s.tasks[w].stage.Opening? {
        var _ := TaskCanGoOn(s, w);
        assert false;
      }
    }
  }

  lemma ServedCanEnd(s: System, c: nat)
    requires Known(s) && c < |s.clients| && s.clients[c].Served?
    requires forall w :: 0 <= w < |s.tasks| ==> Shut(s.tasks[w]) || s.tasks[w].stage.Opening?
    ensures Enabled(s, Finish(c))
  {
    RoundCanEndIff(s, c);
  }

  lemma SettledClients(s: System)
    requires Known(s) && Traced(s) && SlotFollowed(s) && SentWithin(s) && Settled(s)
    ensures forall c :: 0 <= c < |s.clients| ==>
      s.clients[c].Ready? || s.clients[c].Gone? || (s.clients[c].Waiting? && Stranded(s, c))
  {
    SettledSlot(s);
    SettledTasks(s);
    forall c | 0 <= c < |s.clients|
      ensures s.clients[c].Ready? || s.clients[c].Gone? || (s.clients[c].Waiting? && Stranded(s, c))
    {
      if s.clients[c].Served? {
        ServedCanEnd(s, c);
      } else if s.clients[c].Waiting? {
        OpenReleasesAll(s, c);
        assert !Enabled(s, Connect(c));
      }
    }
  }

  /** In every run of any number of clients, however requests collide: when nothing but a load, an
      exit or a console command can happen, and only then, every task has closed its FIFO end or is
      blocked on a FIFO nobody opens, no client is sending or being served, and only stranded
      clients wait.  The queue is then empty. */
  lemma SettledIff(clients: nat, run: seq<Event>)
    requires IsRun(Start(clients), run)
    ensures var s := After(Start(clients), run);
            (Settled(s) <==> AtRest(s)) && (Settled(s) ==> s.queue == [] && !s.slot.pending)
  {
    StartFollowed(clients);
    FollowedRun(Start(clients), run);
    var s := After(Start(clients), run);
    if Settled(s) {
      SettledSlot(s);
      SettledTasks(s);
      SettledClients(s);
      assert s.queue != [] ==> s.queue[0] in s.queue;
    } else if AtRest(s) {
      RestSettles(s);
    }
  }

  /** When requests are not written over each other, rest means that all is done: every client is
      ready or gone, every request loaded has been carried out as one task of its client, in order,
      and every task has had its whole output written, or was cancelled. */
  lemma SerialisedRunsComplete(clients: nat, run: seq<Event>)
    requires IsRun(Start(clients), run) && Serialised(Start(clients), run)
    requires Settled(After(Start(clients), run))
    ensures var s := After(Start(clients), run);
            && (forall c :: 0 <= c < |s.clients| ==> s.clients[c].Ready? || s.clients[c].Gone?)
            && |s.tasks| == |LoadedIn(run)|
            && forall i :: 0 <= i < |s.tasks| ==>
                 && s.tasks[i].client == LoadedIn(run)[i].client && HasOwnFifo(s, i)
                 && (s.tasks[i].stage.Cancelled?
                     || s.fifos[s.tasks[i].fifo].stream == Encode(s.tasks[i].output))
  {
    SettledIff(clients, run);
    NobodyStrandedIffSerialised(clients, run);
    EveryRunIsTold(clients, run);
    StartHolds(clients);
    Rounds.RunKeeps(Start(clients), run);
    var s := After(Start(clients), run);
    CoreAtRest(s);
    DispatchedAll(s);
    assert s.slot.loaded == s.slot.dispatched == LoadedIn(run);
  }

  lemma DispatchedAll(s: System)
    requires SlotHeld(s) && !s.slot.pending
    ensures s.slot.loaded == s.slot.dispatched
  {
  }

  lemma CoreAtRest(s: System)
    requires OwnFifos(s) && OpeningAwaited(s) && AtRest(s) && NobodyStranded(s)
    ensures forall c :: 0 <= c < |s.clients| ==> s.clients[c].Ready? || s.clients[c].Gone?
    ensures forall i :: 0 <= i < |s.tasks| ==> HasOwnFifo(s, i)
    ensures forall i :: 0 <= i < |s.tasks| ==>
      s.tasks[i].stage.Cancelled? || s.fifos[s.tasks[i].fifo].stream == Encode(s.tasks[i].output)
  {
    forall i | 0 <= i < |s.tasks|
      ensures HasOwnFifo(s, i)
      ensures s.tasks[i].stage.Cancelled? || s.fifos[s.tasks[i].fifo].stream == Encode(s.tasks[i].output)
    {
      assert HasOwnFifo(s, i);
      if s.tasks[i].stage.Closed? {
        assert Stream(s.tasks[i]) == Encode(s.tasks[i].output);
      }
    }
  }

  // ----- every run gets there

  function Sum(ns: seq<nat>): nat {
    if ns == [] then 0 else ns[0] + Sum(ns[1..])
  }

  lemma {:induction false} SumUpdate(ns: seq<nat>, i: nat, n: nat)
    requires i < |ns|
    ensures Sum(ns[i := n]) + ns[i] == Sum(ns) + n
  {
    if i == 0 {
      assert ns[i := n][1..] == ns[1..];
    } else {
      assert ns[i := n][1..] == ns[1..][i - 1 := n];
      SumUpdate(ns[1..], i - 1, n);
    }
  }

  lemma {:induction false} SumAppend(ns: seq<nat>, n: nat)
    ensures Sum(ns + [n]) == Sum(ns) + n
  {
    if ns == [] {
      assert ns + [n] == [n] && [n][1..] == [];
    } else {
      assert (ns + [n])[1..] == ns[1..] + [n];
      SumAppend(ns[1..], n);
    }
  }

  lemma {:induction false} SumAtMost(ns: seq<nat>, ms: seq<nat>)
    requires |ns| == |ms| && forall i :: 0 <= i < |ns| ==> ns[i] <= ms[i]
    ensures Sum(ns) <= Sum(ms)
  {
    if ns != [] {
      SumAtMost(ns[1..], ms[1..]);
    }
  }

  /** How many steps a task can still take at most. */
  function TaskWork(t: Task): nat {
    var left := if t.sent <= |Encode(t.output)| then |Encode(t.output)| - t.sent else 0;
    match t.stage
    case Opening => left + 4
    case Opened => left + 3
    case Running => left + 2
    case Removed => 1
    case Closed => 0
    case Cancelled(_) => 0
  }

  function ClientWork(c: Session): nat {
    match c
    case Sending => 3
    case Waiting => 3
    case Served(_) => 2
    case Ready => 1
    case Gone => 0
  }

  function TaskWorks(tasks: seq<Task>): seq<nat> {
    seq(|tasks|, i requires 0 <= i < |tasks| => TaskWork(tasks[i]))
  }

  function ClientWorks(clients: seq<Session>): seq<nat> {
    seq(|clients|, i requires 0 <= i < |clients| => ClientWork(clients[i]))
  }

  function Work(s: System): nat {
    Slot.Weight(s.slot) + Sum(TaskWorks(s.tasks)) + Sum(ClientWorks(s.clients))
  }

  /** A step that is not the console's. */
  function Counts(a: Event): nat {
    if a.Cancel? then 0 else 1
  }

  /** What a new task brings with it. */
  function Brings(a: Event): nat {
    if a.Copy? then |Encode(a.output)| + 4 else 0
  }

  function Steps(run: seq<Event>): nat {
    if run == [] then 0 else Counts(run[0]) + Steps(run[1..])
  }

  function Brought(run: seq<Event>): nat {
    if run == [] then 0 else Brings(run[0]) + Brought(run[1..])
  }

  predicate LoadFree(run: seq<Event>) {
    forall i :: 0 <= i < |run| ==> !run[i].Load?
  }

  lemma TaskUpdate(tasks: seq<Task>, w: nat, t: Task)
    requires w < |tasks|
    ensures Sum(TaskWorks(tasks[w := t])) + TaskWork(tasks[w]) == Sum(TaskWorks(tasks)) + TaskWork(t)
  {
    SumUpdate(TaskWorks(tasks), w, TaskWork(t));
    assert TaskWorks(tasks[w := t]) == TaskWorks(tasks)[w := TaskWork(t)];
  }

  lemma ClientUpdate(clients: seq<Session>, c: nat, to: Session)
    requires c < |clients|
    ensures Sum(ClientWorks(clients[c := to])) + ClientWork(clients[c]) == Sum(ClientWorks(clients)) + ClientWork(to)
  {
    SumUpdate(ClientWorks(clients), c, ClientWork(to));
    assert ClientWorks(clients[c := to]) == ClientWorks(clients)[c := ClientWork(to)];
  }

  lemma SlotWork(s: Slot.State, a: Slot.Step)
    requires Slot.Enabled(s, a) && !a.Write?
    ensures Slot.Weight(Slot.Next(s, a)) < Slot.Weight(s)
  {
    Slot.CountsAfter(s, a);
  }

  lemma SlotStepWork(s: System, a: Event)
    requires Enabled(s, a) && SlotStep(a) && !a.Load?
    ensures Work(Next(s, a)) + 1 <= Work(s) + Brings(a)
  {
    SlotWork(s.slot, ToSlot(a));
    if a.Post? {
      ClientUpdate(s.clients, a.client, Waiting);
    } else if a.Copy? {
      var made := Task(s.slot.slot.client, a.output, 0, 0, Opening);
      SumAppend(TaskWorks(s.tasks), TaskWork(made));
      assert TaskWorks(s.tasks + [made]) == TaskWorks(s.tasks) + [TaskWork(made)];
    }
  }

  lemma ConnectWork(s: System, a: Event)
    requires Enabled(s, a) && a.Connect?
    ensures Work(Next(s, a)) < Work(s)
  {
    ClientUpdate(s.clients, a.client, Served(|s.fifos|));
    SumAtMost(TaskWorks(Released(s.tasks, a.client, |s.fifos|)), TaskWorks(s.tasks));
  }

  lemma TaskStepWork(s: System, a: Event)
    requires Enabled(s, a) && (a.Join? || a.Add? || a.Send? || a.Remove? || a.Close?)
    ensures Work(Next(s, a)) < Work(s)
  {
    TaskGoesOn(s, a);
    OneTaskChanges(s, Next(s, a), a.task, Next(s, a).tasks[a.task]);
  }

  lemma TaskGoesOn(s: System, a: Event)
    requires Enabled(s, a) && (a.Join? || a.Add? || a.Send? || a.Remove? || a.Close?)
    ensures var t := Next(s, a);
            && t.slot == s.slot && t.clients == s.clients && t.tasks == s.tasks[a.task := t.tasks[a.task]]
            && TaskWork(t.tasks[a.task]) < TaskWork(s.tasks[a.task])
  {
  }

  lemma CancelWork(s: System, a: Event)
    requires Enabled(s, a) && a.Cancel?
    ensures Work(Next(s, a)) <= Work(s)
  {
    var i := FirstIndex(QueuedIds(s), a.client);
    if i < |s.queue| && s.queue[i] < |s.tasks| {
      var w := s.queue[i];
      CancelsOne(s, a, w);
      OneTaskChanges(s, Next(s, a), w, s.tasks[w].(stage := Lifecycle.Cancelled(a.opt)));
    } else {
      CancelsNone(s, a);
    }
  }

  lemma OneTaskChanges(s: System, t: System, w: nat, x: Task)
    requires t.slot == s.slot && t.clients == s.clients && w < |s.tasks| && t.tasks == s.tasks[w := x]
    ensures Work(t) + TaskWork(s.tasks[w]) == Work(s) + TaskWork(x)
  {
    TaskUpdate(s.tasks, w, x);
  }

  lemma CancelsNone(s: System, a: Event)
    requires Enabled(s, a) && a.Cancel?
    requires var i := FirstIndex(QueuedIds(s), a.client); i < |s.queue| ==> s.queue[i] >= |s.tasks|
    ensures Next(s, a) == s
  {
  }

  lemma CancelsOne(s: System, a: Event, w: nat)
    requires Enabled(s, a) && a.Cancel? && FirstIndex(QueuedIds(s), a.client) < |s.queue|
    requires w == s.queue[FirstIndex(QueuedIds(s), a.client)] && w < |s.tasks|
    ensures var t := Next(s, a);
            && t.slot == s.slot && t.clients == s.clients
            && t.tasks == s.tasks[w := s.tasks[w].(stage := Lifecycle.Cancelled(a.opt))]
  {
  }

  lemma ClientStepWork(s: System, a: Event)
    requires Enabled(s, a) && (a.Quit? || a.Finish?)
    ensures Work(Next(s, a)) < Work(s)
  {
    ClientUpdate(s.clients, a.client, Next(s, a).clients[a.client]);
  }

  lemma StepWork(s: System, a: Event)
    requires Enabled(s, a) && !a.Load?
    ensures Work(Next(s, a)) + Counts(a) <= Work(s) + Brings(a)
  {
    match a
    case Connect(_) => ConnectWork(s, a);
    case Cancel(_, _) => CancelWork(s, a);
    case Quit(_) => ClientStepWork(s, a);
    case Finish(_) => ClientStepWork(s, a);
    case Join(_) => TaskStepWork(s, a);
    case Add(_) => TaskStepWork(s, a);
    case Send(_, _) => TaskStepWork(s, a);
    case Remove(_) => TaskStepWork(s, a);
    case Close(_) => TaskStepWork(s, a);
    case _ => SlotStepWork(s, a);
  }

  /** Once clients stop loading, every way of going on is bounded by the work in hand and the output
      of the commands started meanwhile, console commands aside: the system comes to rest. */
  lemma {:induction false} LoadFreeRunsEnd(s: System, run: seq<Event>)
    requires IsRun(s, run) && LoadFree(run)
    ensures Steps(run) + Work(After(s, run)) <= Work(s) + Brought(run)
    decreases |run|
  {
    if run != [] {
      StepWork(s, run[0]);
      LoadFreeRunsEnd(Next(s, run[0]), run[1..]);
    }
  }
}
