/** What holds as long as no request is written over a waiting one, whatever the commands print:
    every FIFO is one task's own, every waiting client is waited for, and so it is exactly known
    how each round of a client ends.  A single client never writes over a request. */
module Rounds {
  import opened Wire
  import opened LineSplit
  import opened Worker
  import opened Client
  import opened Framing
  import opened Lifecycle
  import opened Ownership
  import opened Channels
  import opened Search
  import LineReader
  import Slot

  // ----- the invariant

  predicate Sound(t: Task) {
    && t.sent <= |Encode(t.output)|
    && (t.stage.Opening? ==> t.sent == 0)
    && (t.stage.Cancelled? ==> ValidOption(t.stage.opt))
    && (t.stage.Removed? || t.stage.Closed? ==> t.sent == |Encode(t.output)|)
  }

  /** What the server side has written for a task. */
  function Stream(t: Task): string
    requires Sound(t)
  {
    Encode(t.output)[..t.sent] + if t.stage.Cancelled? then SendLine(t.stage.opt) else ""
  }

  predicate WellFormed(s: System) {
    && |s.clients| == |s.slot.phase|
    && forall w :: 0 <= w < |s.tasks| ==> Sound(s.tasks[w]) && s.tasks[w].client < |s.clients|
  }

  predicate SlotHeld(s: System) {
    && Slot.Inv(s.slot) && Slot.Tight(s.slot)
    && |s.clients| == |s.slot.phase|
    && (forall c :: 0 <= c < |s.clients| ==> (s.clients[c].Sending? <==> s.slot.phase[c] != Slot.Idle))
    && (forall c :: 0 <= c < |s.clients| && s.clients[c].Sending? ==> s.slot.pending && s.slot.slot.client == c)
  }

  /** A task that has opened a FIFO is the only one that has, and the FIFO holds what the task has
      written, or the canceller for it. */
  predicate HasOwnFifo(s: System, w: nat)
    requires w < |s.tasks|
  {
    var t := s.tasks[w];
    && Sound(t) && t.fifo < |s.fifos|
    && s.fifos[t.fifo].writers == [w] && s.fifos[t.fifo].stream == Stream(t)
  }

  predicate OwnFifos(s: System) {
    forall w :: 0 <= w < |s.tasks| && !s.tasks[w].stage.Opening? ==> HasOwnFifo(s, w)
  }

  /** The task a client reads from. */
  function Serving(s: System, c: nat): nat
    requires c < |s.clients| && s.clients[c].Served?
  {
    var f := s.clients[c].fifo;
    if f < |s.fifos| && s.fifos[f].writers != [] then s.fifos[f].writers[0] else |s.tasks|
  }

  predicate ServedByOwn(s: System) {
    forall c :: 0 <= c < |s.clients| && s.clients[c].Served? ==>
      var w := Serving(s, c);
      w < |s.tasks| && s.tasks[w].client == c && !s.tasks[w].stage.Opening? && s.tasks[w].fifo == s.clients[c].fifo
  }

  /** A task about to open its FIFO has its client waiting, and no rival. */
  predicate OpeningAwaited(s: System) {
    && (forall w :: 0 <= w < |s.tasks| && s.tasks[w].stage.Opening? ==> HasClient(s, s.tasks[w].client, Waiting))
    && (forall v, w :: 0 <= v < w < |s.tasks| && s.tasks[v].stage.Opening? && s.tasks[w].stage.Opening? ==>
          s.tasks[v].client != s.tasks[w].client)
  }

  /** While a request waits in the slot its client has not gone on, and has no task yet. */
  predicate PendingAlone(s: System) {
    s.slot.pending ==>
      && s.slot.slot.client < |s.clients|
      && (s.clients[s.slot.slot.client].Sending? || s.clients[s.slot.slot.client].Waiting?)
      && forall w :: 0 <= w < |s.tasks| ==> !BlockedOn(s.tasks[w], s.slot.slot.client)
  }

  /** A client that waits for its FIFO is waited for: its request or its task is under way. */
  predicate NoOrphan(s: System) {
    forall c :: 0 <= c < |s.clients| && s.clients[c].Waiting? ==>
      (s.slot.pending && s.slot.slot.client == c)
      || exists w :: 0 <= w < |s.tasks| && BlockedOn(s.tasks[w], c)
  }

  predicate Core(s: System) {
    && WellFormed(s) && SlotHeld(s) && OwnFifos(s) && ServedByOwn(s) && OpeningAwaited(s)
    && PendingAlone(s) && NoOrphan(s)
  }

  // ----- one lemma a step

  lemma SlotKeeps(s: System, a: Event)
    requires SlotHeld(s) && Enabled(s, a) && SlotStep(a)
    requires a.Load? ==> !s.slot.pending
    ensures Slot.Inv(Next(s, a).slot) && Slot.Tight(Next(s, a).slot)
  {
    Slot.StepKeeps(s.slot, ToSlot(a));
    Slot.TightStep(s.slot, ToSlot(a));
  }

  /** Which task opens what is untouched by a step of clients that are not served. */
  lemma FifosUntouched(s: System, t: System)
    requires OwnFifos(s) && ServedByOwn(s) && t.tasks == s.tasks && t.fifos == s.fifos && |t.clients| == |s.clients|
    requires forall c :: 0 <= c < |t.clients| && t.clients[c].Served? ==> t.clients[c] == s.clients[c]
    ensures OwnFifos(t) && ServedByOwn(t)
  {
    forall w | 0 <= w < |t.tasks| && !t.tasks[w].stage.Opening?
      ensures HasOwnFifo(t, w)
    {
      assert HasOwnFifo(s, w);
    }
  }

  /** Neither is who waits for whom, by a step that leaves the clients and the slot's text alone. */
  lemma WaitingUntouched(s: System, t: System)
    requires OpeningAwaited(s) && PendingAlone(s) && NoOrphan(s)
    requires t.tasks == s.tasks && t.clients == s.clients
    requires t.slot.pending == s.slot.pending && t.slot.slot == s.slot.slot
    ensures OpeningAwaited(t) && PendingAlone(t) && NoOrphan(t)
  {
  }

  lemma LoadKeepsWaiting(s: System, a: Event)
    requires OpeningAwaited(s) && NoOrphan(s) && Enabled(s, a) && a.Load? && !s.slot.pending
    ensures OpeningAwaited(Next(s, a)) && PendingAlone(Next(s, a)) && NoOrphan(Next(s, a))
  {
  }

  lemma LoadKeepsSlot(s: System, a: Event)
    requires SlotHeld(s) && Enabled(s, a) && a.Load? && !s.slot.pending
    ensures SlotHeld(Next(s, a))
  {
    SlotKeeps(s, a);
  }

  lemma LoadKeeps(s: System, a: Event)
    requires Core(s) && Enabled(s, a) && a.Load? && !s.slot.pending
    ensures Core(Next(s, a))
  {
    LoadKeepsSlot(s, a);
    LoadKeepsWaiting(s, a);
    FifosUntouched(s, Next(s, a));
  }

  lemma TryWaitOrWaitKeepsSlot(s: System, a: Event)
    requires SlotHeld(s) && Enabled(s, a) && (a.TryWait? || a.Wait?)
    ensures SlotHeld(Next(s, a))
  {
    SlotKeeps(s, a);
  }

  lemma TryWaitOrWaitKeeps(s: System, a: Event)
    requires Core(s) && Enabled(s, a) && (a.TryWait? || a.Wait?)
    ensures Core(Next(s, a))
  {
    TryWaitOrWaitKeepsSlot(s, a);
    WaitingUntouched(s, Next(s, a));
    FifosUntouched(s, Next(s, a));
  }

  lemma PostKeepsSlot(s: System, a: Event)
    requires SlotHeld(s) && Enabled(s, a) && a.Post?
    ensures SlotHeld(Next(s, a))
  {
    SlotKeeps(s, a);
  }

  lemma PostKeepsWaiting(s: System, a: Event)
    requires OpeningAwaited(s) && PendingAlone(s) && NoOrphan(s) && Enabled(s, a) && a.Post?
    requires s.slot.pending && s.slot.slot.client == a.client
    ensures OpeningAwaited(Next(s, a)) && PendingAlone(Next(s, a)) && NoOrphan(Next(s, a))
  {
  }

  lemma PostKeeps(s: System, a: Event)
    requires Core(s) && Enabled(s, a) && a.Post?
    ensures Core(Next(s, a))
  {
    PostKeepsSlot(s, a);
    PostKeepsWaiting(s, a);
    FifosUntouched(s, Next(s, a));
  }

  lemma QuitKeeps(s: System, a: Event)
    requires Core(s) && Enabled(s, a) && a.Quit?
    ensures Core(Next(s, a))
  {
    ClientGoesOn(s, Next(s, a), a.client);
    FifosUntouched(s, Next(s, a));
  }

  /** At a copy nobody is loading, and the client of the request waits for its FIFO. */
  lemma CopyFinds(s: System)
    requires SlotHeld(s) && PendingAlone(s) && s.slot.copying
    ensures s.slot.pending
    ensures forall c :: 0 <= c < |s.clients| ==> !s.clients[c].Sending?
    ensures HasClient(s, s.slot.slot.client, Waiting)
  {
    assert Slot.InFlight(s.slot) == 0;
    Slot.CountZero(s.slot.phase, Slot.Written);
    Slot.CountZero(s.slot.phase, Slot.Tried);
    forall c | 0 <= c < |s.clients|
      ensures !s.clients[c].Sending?
    {
      assert s.slot.phase[c] == Slot.Idle;
    }
  }

  lemma CopyKeeps(s: System, a: Event)
    requires Core(s) && Enabled(s, a) && a.Copy?
    ensures Core(Next(s, a))
  {
    SlotKeeps(s, a);
    CopyFinds(s);
    CopyKeepsNoOrphan(s, a);
    CopyKeepsTasks(s, a);
  }

  lemma CopyKeepsTasks(s: System, a: Event)
    requires OwnFifos(s) && ServedByOwn(s) && OpeningAwaited(s) && PendingAlone(s)
    requires Enabled(s, a) && a.Copy? && s.slot.pending && HasClient(s, s.slot.slot.client, Waiting)
    ensures OwnFifos(Next(s, a)) && ServedByOwn(Next(s, a)) && OpeningAwaited(Next(s, a))
  {
  }

  lemma CopyKeepsNoOrphan(s: System, a: Event)
    requires NoOrphan(s) && Enabled(s, a) && a.Copy?
    ensures NoOrphan(Next(s, a))
  {
    var t, client := Next(s, a), s.slot.slot.client;
    forall c | 0 <= c < |t.clients| && t.clients[c].Waiting?
      ensures exists w :: 0 <= w < |t.tasks| && BlockedOn(t.tasks[w], c)
    {
      if c == client {
        assert BlockedOn(t.tasks[|s.tasks|], c);
      } else {
        var w :| 0 <= w < |s.tasks| && BlockedOn(s.tasks[w], c);
        assert t.tasks[w] == s.tasks[w];
      }
    }
  }

  // ----- the meeting at the FIFO

  lemma {:induction false} BlockedAlone(tasks: seq<Task>, c: nat, w: nat, n: nat)
    requires w < |tasks| && n <= |tasks|
    requires forall v :: 0 <= v < |tasks| ==> (BlockedOn(tasks[v], c) <==> v == w)
    ensures Blocked(tasks, c, n) == if w < n then [w] else []
  {
    if n > 0 {
      BlockedAlone(tasks, c, w, n - 1);
    }
  }

  /** When one task is blocked on the client's FIFO, opening it is between the two. */
  lemma ReleasesOne(tasks: seq<Task>, c: nat, w: nat, f: nat)
    requires w < |tasks| && forall v :: 0 <= v < |tasks| ==> (BlockedOn(tasks[v], c) <==> v == w)
    ensures Blocked(tasks, c, |tasks|) == [w]
    ensures Released(tasks, c, f) == tasks[w := tasks[w].(stage := Opened, fifo := f)]
  {
    BlockedAlone(tasks, c, w, |tasks|);
  }

  /** The state after client and task `w` have met on a new FIFO. */
  function Met(s: System, c: nat, w: nat): System
    requires c < |s.clients| && w < |s.tasks|
  {
    s.(clients := s.clients[c := Served(|s.fifos|)],
       tasks := s.tasks[w := s.tasks[w].(stage := Opened, fifo := |s.fifos|)],
       fifos := s.fifos + [Channel(c, "", [w], true)])
  }

  lemma Meets(s: System, c: nat, w: nat)
    requires HasClient(s, c, Waiting) && w < |s.tasks|
    requires forall v :: 0 <= v < |s.tasks| ==> (BlockedOn(s.tasks[v], c) <==> v == w)
    ensures Enabled(s, Connect(c)) && Next(s, Connect(c)) == Met(s, c, w)
  {
    ReleasesOne(s.tasks, c, w, |s.fifos|);
  }

  lemma ConnectFinds(s: System, c: nat) returns (w: nat)
    requires OpeningAwaited(s) && Enabled(s, Connect(c))
    ensures w < |s.tasks| && BlockedOn(s.tasks[w], c)
    ensures Next(s, Connect(c)) == Met(s, c, w)
  {
    w := Blocked(s.tasks, c, |s.tasks|)[0];
    assert w in Blocked(s.tasks, c, |s.tasks|);
    forall v | 0 <= v < |s.tasks|
      ensures BlockedOn(s.tasks[v], c) <==> v == w
    {
    }
    Meets(s, c, w);
  }

  lemma ConnectKeeps(s: System, a: Event)
    requires Core(s) && Enabled(s, a) && a.Connect?
    ensures Core(Next(s, a))
  {
    var w := ConnectFinds(s, a.client);
    ConnectKeepsFifos(s, Next(s, a), a.client, w);
    ConnectKeepsSlot(s, Next(s, a), a.client, w);
    NoOrphanElsewhere(s, Next(s, a), w);
  }

  lemma ConnectKeepsSlot(s: System, t: System, c: nat, w: nat)
    requires WellFormed(s) && SlotHeld(s) && PendingAlone(s)
    requires HasClient(s, c, Waiting) && w < |s.tasks| && BlockedOn(s.tasks[w], c) && t == Met(s, c, w)
    ensures WellFormed(t) && SlotHeld(t) && PendingAlone(t)
  {
  }

  lemma ConnectKeepsFifos(s: System, t: System, c: nat, w: nat)
    requires OwnFifos(s) && ServedByOwn(s) && OpeningAwaited(s) && WellFormed(s)
    requires HasClient(s, c, Waiting) && w < |s.tasks| && BlockedOn(s.tasks[w], c)
    requires t == Met(s, c, w)
    ensures OwnFifos(t) && ServedByOwn(t) && OpeningAwaited(t)
  {
    forall v | 0 <= v < |t.tasks| && !t.tasks[v].stage.Opening?
      ensures HasOwnFifo(t, v)
    {
      assert v != w ==> HasOwnFifo(s, v);
      assert v == w ==> Stream(t.tasks[w]) == "";
    }
  }

  /** No task opens a FIFO that another has already opened. */
  lemma NobodyJoins(s: System, w: nat)
    requires OpeningAwaited(s)
    ensures !Enabled(s, Join(w))
  {
  }

  /** Waiting clients keep their blocked tasks when only the task of another client changes. */
  lemma NoOrphanElsewhere(s: System, t: System, w: nat)
    requires NoOrphan(s) && t.slot == s.slot && w < |s.tasks| == |t.tasks| && |t.clients| == |s.clients|
    requires forall v :: 0 <= v < |s.tasks| && v != w ==> t.tasks[v] == s.tasks[v]
    requires forall c :: 0 <= c < |t.clients| && t.clients[c].Waiting? ==>
               s.clients[c].Waiting? && !BlockedOn(s.tasks[w], c)
    ensures NoOrphan(t)
  {
    forall c | 0 <= c < |t.clients| && t.clients[c].Waiting? && !(t.slot.pending && t.slot.slot.client == c)
      ensures exists v :: 0 <= v < |t.tasks| && BlockedOn(t.tasks[v], c)
    {
      var v :| 0 <= v < |s.tasks| && BlockedOn(s.tasks[v], c);
      assert t.tasks[v] == s.tasks[v];
    }
  }

  // ----- past the meeting

  /** Task `w` goes on to `x`, and its FIFO with it. */
  predicate GoesOn(s: System, t: System, w: nat, x: Task, stream: string) {
    && w < |s.tasks| && !s.tasks[w].stage.Opening? && s.tasks[w].fifo < |s.fifos| == |t.fifos|
    && t.slot == s.slot && t.clients == s.clients && t.tasks == s.tasks[w := x]
    && !x.stage.Opening? && x.client == s.tasks[w].client && x.fifo == s.tasks[w].fifo
    && (forall f :: 0 <= f < |s.fifos| && f != x.fifo ==> t.fifos[f] == s.fifos[f])
    && t.fifos[x.fifo].writers == s.fifos[x.fifo].writers && t.fifos[x.fifo].stream == stream
  }

  lemma GoingOnKeeps(s: System, t: System, w: nat, x: Task, stream: string)
    requires Core(s) && GoesOn(s, t, w, x, stream) && Sound(x) && stream == Stream(x)
    ensures Core(t)
  {
    NoOrphanElsewhere(s, t, w);
    GoingOnKeepsFifos(s, t, w, x, stream);
  }

  lemma GoingOnKeepsFifos(s: System, t: System, w: nat, x: Task, stream: string)
    requires OwnFifos(s) && ServedByOwn(s) && GoesOn(s, t, w, x, stream) && Sound(x) && stream == Stream(x)
    ensures OwnFifos(t) && ServedByOwn(t)
  {
    assert HasOwnFifo(s, w);
    forall v | 0 <= v < |t.tasks| && !t.tasks[v].stage.Opening?
      ensures HasOwnFifo(t, v)
    {
      assert HasOwnFifo(s, v);
    }
  }

  lemma StreamGrows(t: Task, upto: nat)
    requires Sound(t) && t.stage.Running? && t.sent < upto <= |Encode(t.output)|
    ensures Stream(t.(sent := upto)) == Stream(t) + Encode(t.output)[t.sent..upto]
  {
  }

  lemma SendKeeps(s: System, a: Event)
    requires Core(s) && Enabled(s, a) && a.Send?
    ensures Core(Next(s, a))
  {
    assert HasOwnFifo(s, a.task);
    var x := s.tasks[a.task].(sent := a.upto);
    StreamGrows(s.tasks[a.task], a.upto);
    GoingOnKeeps(s, Next(s, a), a.task, x, Stream(x));
  }

  /** The three steps of a worker that write nothing. */
  lemma WorkerKeeps(s: System, a: Event)
    requires Core(s) && Enabled(s, a) && (a.Add? || a.Remove? || a.Close?)
    ensures Core(Next(s, a))
  {
    assert HasOwnFifo(s, a.task);
    var x := s.tasks[a.task].(stage := if a.Add? then Running else if a.Remove? then Removed else Closed);
    GoingOnKeeps(s, Next(s, a), a.task, x, Stream(x));
  }

  lemma CancelKeeps(s: System, a: Event)
    requires Core(s) && Owned(s) && Enabled(s, a) && a.Cancel?
    ensures Core(Next(s, a))
  {
    var i := FirstIndex(QueuedIds(s), a.client);
    if i < |s.queue| && s.queue[i] < |s.tasks| {
      var w := s.queue[i];
      assert w in s.queue && HasOwnFifo(s, w);
      var x := s.tasks[w].(stage := Cancelled(a.opt));
      CancelledStream(s.tasks[w], a.opt);
      GoingOnKeeps(s, Next(s, a), w, x, Stream(x));
    }
  }

  lemma CancelledStream(t: Task, opt: int)
    requires Sound(t) && t.stage.Running? && ValidOption(opt)
    ensures Stream(t.(stage := Cancelled(opt))) == Stream(t) + SendLine(opt)
  {
    assert Stream(t) == Encode(t.output)[..t.sent];
  }

  lemma FinishKeeps(s: System, a: Event)
    requires Core(s) && Enabled(s, a) && a.Finish?
    ensures Core(Next(s, a))
  {
    FinishKeepsFifos(s, a);
    ClientGoesOn(s, Next(s, a), a.client);
  }

  /** A client neither sending nor waiting, before and after. */
  lemma ClientGoesOn(s: System, t: System, c: nat)
    requires WellFormed(s) && SlotHeld(s) && OpeningAwaited(s) && PendingAlone(s) && NoOrphan(s)
    requires t.slot == s.slot && t.tasks == s.tasks && c < |s.clients| == |t.clients|
    requires forall b :: 0 <= b < |s.clients| && b != c ==> t.clients[b] == s.clients[b]
    requires !s.clients[c].Sending? && !s.clients[c].Waiting? && !t.clients[c].Sending? && !t.clients[c].Waiting?
    ensures WellFormed(t) && SlotHeld(t) && OpeningAwaited(t) && PendingAlone(t) && NoOrphan(t)
  {
  }

  lemma FinishKeepsFifos(s: System, a: Event)
    requires OwnFifos(s) && ServedByOwn(s) && Enabled(s, a) && a.Finish?
    ensures OwnFifos(Next(s, a)) && ServedByOwn(Next(s, a))
  {
    UnlinkingKeepsFifos(s, Next(s, a), s.clients[a.client].fifo);
  }

  lemma UnlinkingKeepsFifos(s: System, t: System, f: nat)
    requires OwnFifos(s) && ServedByOwn(s) && t.tasks == s.tasks && |t.clients| == |s.clients|
    requires f < |s.fifos| && t.fifos == Unlinked(s.fifos, f)
    requires forall c :: 0 <= c < |t.clients| && t.clients[c].Served? ==> t.clients[c] == s.clients[c]
    ensures OwnFifos(t) && ServedByOwn(t)
  {
    forall v | 0 <= v < |t.tasks| && !t.tasks[v].stage.Opening?
      ensures HasOwnFifo(t, v)
    {
      assert HasOwnFifo(s, v);
    }
  }

  lemma StepKeeps(s: System, a: Event)
    requires Core(s) && Owned(s) && Enabled(s, a)
    requires a.Load? ==> !s.slot.pending
    ensures Core(Next(s, a)) && Owned(Next(s, a))
  {
    OwnedStep(s, a);
    match a
    case Load(_, _) => LoadKeeps(s, a);
    case TryWait(_) => TryWaitOrWaitKeeps(s, a);
    case Post(_) => PostKeeps(s, a);
    case Quit(_) => QuitKeeps(s, a);
    case Wait => TryWaitOrWaitKeeps(s, a);
    case Copy(_) => CopyKeeps(s, a);
    case Connect(_) => ConnectKeeps(s, a);
    case Join(w) => NobodyJoins(s, w);
    case Add(_) => WorkerKeeps(s, a);
    case Send(_, _) => SendKeeps(s, a);
    case Remove(_) => WorkerKeeps(s, a);
    case Close(_) => WorkerKeeps(s, a);
    case Cancel(_, _) => CancelKeeps(s, a);
    case Finish(_) => FinishKeeps(s, a);
  }

  lemma StartHolds(clients: nat)
    ensures Core(Start(clients)) && Owned(Start(clients))
  {
    StartCore(clients);
    StartOwned(clients);
  }

  lemma StartCore(clients: nat)
    ensures Core(Start(clients))
  {
    Slot.StartHolds(clients);
    NothingUnderWay(Start(clients));
  }

  lemma NothingUnderWay(s: System)
    requires Slot.Inv(s.slot) && Slot.Tight(s.slot) && s.tasks == [] && !s.slot.pending
    requires |s.clients| == |s.slot.phase|
    requires forall c :: 0 <= c < |s.clients| ==> s.clients[c].Ready? && s.slot.phase[c] == Slot.Idle
    ensures Core(s)
  {
  }

  lemma {:induction false} RunKeeps(s: System, run: seq<Event>)
    requires Core(s) && Owned(s) && IsRun(s, run) && Serialised(s, run)
    ensures Core(After(s, run)) && Owned(After(s, run))
    decreases |run|
  {
    if run != [] {
      StepKeeps(s, run[0]);
      RunKeeps(Next(s, run[0]), run[1..]);
    }
  }

  /** In every run of any number of clients that writes no request over another, whatever the
      commands print: delivery is exactly-once and in order, a client waiting for its FIFO is
      waited for, and every FIFO has one writer and holds exactly what was written for its task. */
  lemma EverySerialisedRun(clients: nat, run: seq<Event>)
    requires IsRun(Start(clients), run) && Serialised(Start(clients), run)
    ensures var s := After(Start(clients), run);
            Slot.Delivered(s.slot) && NoOrphan(s) && OwnFifos(s) && ServedByOwn(s)
  {
    StartHolds(clients);
    RunKeeps(Start(clients), run);
  }

  /** For the whole system too, delivery throughout a run is exactly-once and in order if and only
      if the run writes no request over a waiting one. */
  lemma DeliveredIffSerialised(clients: nat, run: seq<Event>)
    requires IsRun(Start(clients), run)
    ensures Slot.IsRun(Slot.Start(clients), SlotRun(run))
    ensures Slot.AlwaysDelivered(Slot.Start(clients), SlotRun(run)) <==> Serialised(Start(clients), run)
  {
    RunsTheSlot(Start(clients), run);
    Slot.ExactlyOnceIffSerialised(clients, SlotRun(run));
  }

  // ----- who is left waiting

  /** The client has loaded, but its request is not in the slot, and no task is on its way to it. */
  predicate Stranded(s: System, c: nat) {
    && c < |s.clients| && (s.clients[c].Sending? || s.clients[c].Waiting?)
    && s.slot.slot.client != c
    && forall w :: 0 <= w < |s.tasks| ==> !BlockedOn(s.tasks[w], c)
  }

  predicate NobodyStranded(s: System) {
    forall c :: 0 <= c < |s.clients| ==> !Stranded(s, c)
  }

  lemma CoreStrandsNobody(s: System)
    requires SlotHeld(s) && NoOrphan(s)
    ensures NobodyStranded(s)
  {
  }

  /** A load over a waiting request strands the client whose request waited. */
  lemma OverwriteStrands(s: System, a: Event)
    requires PendingAlone(s) && Enabled(s, a) && a.Load? && s.slot.pending
    ensures Stranded(Next(s, a), s.slot.slot.client)
  {
  }

  lemma StrandedStep(s: System, a: Event, c: nat)
    requires Stranded(s, c) && Enabled(s, a)
    ensures Stranded(Next(s, a), c)
  {
    if a.Connect? {
      assert a.client == c ==> Blocked(s.tasks, c, |s.tasks|)[0] in Blocked(s.tasks, c, |s.tasks|);
    }
  }

  /** A stranded client stays so, and hence is never served again, in every continuation. */
  lemma {:induction false} StrandedForGood(s: System, run: seq<Event>, c: nat)
    requires Stranded(s, c) && IsRun(s, run)
    ensures Stranded(After(s, run), c) && !After(s, run).clients[c].Served?
    decreases |run|
  {
    if run != [] {
      StrandedStep(s, run[0], c);
      StrandedForGood(Next(s, run[0]), run[1..], c);
    }
  }

  lemma {:induction false} StrandedIff(s: System, run: seq<Event>)
    requires Core(s) && Owned(s) && IsRun(s, run)
    ensures NobodyStranded(After(s, run)) <==> Serialised(s, run)
    decreases |run|
  {
    if run == [] {
      CoreStrandsNobody(s);
    } else if run[0].Load? && s.slot.pending {
      OverwriteStrands(s, run[0]);
      StrandedForGood(Next(s, run[0]), run[1..], s.slot.slot.client);
    } else {
      StepKeeps(s, run[0]);
      StrandedIff(Next(s, run[0]), run[1..]);
    }
  }

  /** A client that has loaded the request in the slot can still be told where it is. */
  predicate Traced(s: System) {
    forall c :: 0 <= c < |s.clients| && (s.clients[c].Sending? || s.clients[c].Waiting?) && s.slot.slot.client == c ==>
      s.slot.pending || exists w :: 0 <= w < |s.tasks| && BlockedOn(s.tasks[w], c)
  }

  lemma StillBlocked(s: System, a: Event, w: nat, c: nat)
    requires Owned(s) && Enabled(s, a) && w < |s.tasks| && BlockedOn(s.tasks[w], c)
    requires c < |s.clients| && !s.clients[c].Served? && !(a.Connect? && a.client == c)
    ensures w < |Next(s, a).tasks| && BlockedOn(Next(s, a).tasks[w], c)
  {
    if a.Cancel? {
      var i := FirstIndex(QueuedIds(s), a.client);
      assert i < |s.queue| ==> s.queue[i] in s.queue;
    }
  }

  lemma TracedBefore(s: System, a: Event, c: nat)
    requires Enabled(s, a) && !a.Copy? && c < |Next(s, a).clients|
    requires Next(s, a).clients[c].Sending? || Next(s, a).clients[c].Waiting?
    requires Next(s, a).slot.slot.client == c && !Next(s, a).slot.pending
    ensures c < |s.clients| && (s.clients[c].Sending? || s.clients[c].Waiting?)
    ensures s.slot.slot.client == c && !s.slot.pending && !(a.Connect? && a.client == c)
  {
  }

  lemma TracedStep(s: System, a: Event)
    requires Owned(s) && Traced(s) && Enabled(s, a)
    ensures Traced(Next(s, a))
  {
    var t := Next(s, a);
    forall c | 0 <= c < |t.clients| && (t.clients[c].Sending? || t.clients[c].Waiting?) &&
               t.slot.slot.client == c && !t.slot.pending
      ensures exists w :: 0 <= w < |t.tasks| && BlockedOn(t.tasks[w], c)
    {
      if a.Copy? {
        assert BlockedOn(t.tasks[|s.tasks|], c);
      } else {
        TracedBefore(s, a, c);
        var w :| 0 <= w < |s.tasks| && BlockedOn(s.tasks[w], c);
        StillBlocked(s, a, w, c);
      }
    }
  }

  lemma {:induction false} TracedRun(s: System, run: seq<Event>)
    requires Owned(s) && Traced(s) && IsRun(s, run)
    ensures Traced(After(s, run))
    decreases |run|
  {
    if run != [] {
      OwnedStep(s, run[0]);
      TracedStep(s, run[0]);
      TracedRun(Next(s, run[0]), run[1..]);
    }
  }

  lemma OrphansAreStranded(s: System)
    requires Traced(s)
    ensures NoOrphan(s) <==> forall c :: 0 <= c < |s.clients| && s.clients[c].Waiting? ==> !Stranded(s, c)
  {
  }

  /** For every run of any number of clients: nobody is stranded if and only if no request has
      been written over a waiting one.  And whoever waits for its FIFO is waited for exactly when it
      is not stranded; `StrandedForGood` says that it then waits for ever. */
  lemma NobodyStrandedIffSerialised(clients: nat, run: seq<Event>)
    requires IsRun(Start(clients), run)
    ensures var s := After(Start(clients), run);
            && (NobodyStranded(s) <==> Serialised(Start(clients), run))
            && (NoOrphan(s) <==> forall c :: 0 <= c < |s.clients| && s.clients[c].Waiting? ==> !Stranded(s, c))
  {
    StartHolds(clients);
    StrandedIff(Start(clients), run);
    TracedRun(Start(clients), run);
    OrphansAreStranded(After(Start(clients), run));
  }

  // ----- a single client

  lemma OneClientLoadsAlone(s: System, a: Event)
    requires PendingAlone(s) && |s.clients| == 1 && Enabled(s, a) && a.Load?
    ensures !s.slot.pending
  {
  }

  lemma {:induction false} OneClientSerialises(s: System, run: seq<Event>)
    requires Core(s) && Owned(s) && |s.clients| == 1 && IsRun(s, run)
    ensures Serialised(s, run)
    decreases |run|
  {
    if run != [] {
      if run[0].Load? {
        OneClientLoadsAlone(s, run[0]);
      }
      StepKeeps(s, run[0]);
      OneClientSerialises(Next(s, run[0]), run[1..]);
    }
  }

  /** With one client the blocking FIFO open serialises the loads: in every run, whatever is
      loaded and whatever the commands print, no request is written over another, and at every
      step all requests but a waiting one have been delivered, once and in order. */
  lemma SingleClientIsSerialised(run: seq<Event>)
    requires IsRun(Start(1), run)
    ensures Serialised(Start(1), run)
    ensures Slot.IsRun(Slot.Start(1), SlotRun(run)) && Slot.AlwaysDelivered(Slot.Start(1), SlotRun(run))
    ensures Slot.Delivered(After(Start(1), run).slot)
  {
    StartHolds(1);
    OneClientSerialises(Start(1), run);
    EverySerialisedRun(1, run);
    DeliveredIffSerialised(1, run);
  }

  // ----- how a round ends

  predicate AnyStopper(ls: seq<string>) {
    exists k :: 0 <= k < |ls| && Stopper(ls[k])
  }

  /** The first line at which the client stops is the shutdown sentinel. */
  predicate StopsAtShutdown(ls: seq<string>) {
    exists k :: 0 <= k < |ls| && ls[k] == READ_SHUTDOWN && forall i :: 0 <= i < k ==> !Stopper(ls[i])
  }

  lemma ShutsDownIff(s: string)
    ensures Received(s).stop == OnShutdown(true) <==> StopsAtShutdown(Lines(s))
  {
    SentinelFacts();
    var ls, r := Lines(s), Received(s);
    if r.stop == OnShutdown(true) {
      FirstStopper(s, r.used - 1);
      StopsAtFirst(s, r.used - 1);
    } else if StopsAtShutdown(ls) {
      var k :| 0 <= k < |ls| && ls[k] == READ_SHUTDOWN && forall i :: 0 <= i < k ==> !Stopper(ls[i]);
      StopsAtFirst(s, k);
    }
  }

  /** Leaving the open FIFO, the client has read, printed and stopped as it would on all of it. */
  lemma EarlyLeaving(output: string, sent: nat)
    requires sent <= |Encode(output)| && Halts(Encode(output)[..sent], false)
    ensures !Clean(output) && Received(Encode(output)[..sent]) == Received(Encode(output))
  {
    PrefixStopsAlike(Encode(output)[..sent], Encode(output));
    if Clean(output) {
      CleanKeepsReading(output, sent);
    }
  }

  /** Clean output read to its end does not shut the client down. */
  lemma CleanIsNoShutdown(output: string)
    requires Clean(output)
    ensures !StopsAtShutdown(Lines(Encode(output)))
  {
    SentinelFacts();
  }

  /** On a cancelled task's FIFO the client ends as the option says, exactly when no stopper comes
      first or the first one happens to mean the same. */
  lemma CancelEndsAsMeantIff(p: string, opt: int)
    requires ValidOption(opt)
    ensures var ls := Lines(p + [NL]);
            (Received(p + SendLine(opt)).stop == OnShutdown(true) <==> opt == OPT_SHUTDOWN)
            <==> (AnyStopper(ls) ==> (StopsAtShutdown(ls) <==> opt == OPT_SHUTDOWN))
  {
    var ls := Lines(p + [NL]);
    CancelReachesClientIff(p, opt);
    if AnyStopper(ls) {
      SentinelResynchronises(p, opt, MAXLINE);
      ShutsDownIff(p + SendLine(opt));
      FirstOfMore(ls, ReadSentinel(opt));
    }
  }

  /** A line behind a stopper does not matter. */
  lemma FirstOfMore(ls: seq<string>, w: string)
    requires AnyStopper(ls)
    ensures StopsAtShutdown(ls + [w]) <==> StopsAtShutdown(ls)
  {
    var all := ls + [w];
    if StopsAtShutdown(all) {
      var k :| 0 <= k < |all| && all[k] == READ_SHUTDOWN && forall i :: 0 <= i < k ==> !Stopper(all[i]);
      var j :| 0 <= j < |ls| && Stopper(ls[j]);
      assert all[j] == ls[j];
      assert ls[k] == READ_SHUTDOWN && forall i :: 0 <= i < k ==> ls[i] == all[i];
    }
    if StopsAtShutdown(ls) {
      var k :| 0 <= k < |ls| && ls[k] == READ_SHUTDOWN && forall i :: 0 <= i < k ==> !Stopper(ls[i]);
      assert all[k] == READ_SHUTDOWN && forall i :: 0 <= i < k ==> all[i] == ls[i];
    }
  }

  /** The task that a client leaves, and what was on its FIFO. */
  lemma FinishFinds(s: System, c: nat)
    requires OwnFifos(s) && ServedByOwn(s) && Enabled(s, Finish(c))
    ensures Serving(s, c) < |s.tasks| && Sound(s.tasks[Serving(s, c)])
    ensures var t := s.tasks[Serving(s, c)];
            && t.client == c && s.fifos[s.clients[c].fifo].stream == Stream(t)
            && Halts(Stream(t), Shut(t))
            && Next(s, Finish(c)).clients[c] == if Received(Stream(t)).stop == OnShutdown(true) then Gone else Ready
  {
    var w := Serving(s, c);
    assert HasOwnFifo(s, w);
    assert AllShut(s, s.clients[c].fifo) <==> Shut(s.tasks[w]);
  }

  /** When a round can end: the client that is being served can leave its FIFO exactly when its task
      has been closed or cancelled, or a complete line on the FIFO is one at which it stops. */
  lemma RoundEndsIff(s: System, c: nat)
    requires OwnFifos(s) && ServedByOwn(s) && c < |s.clients| && s.clients[c].Served?
    ensures Serving(s, c) < |s.tasks| && Sound(s.tasks[Serving(s, c)])
    ensures var t := s.tasks[Serving(s, c)];
            Enabled(s, Finish(c)) <==> t.stage.Closed? || t.stage.Cancelled? || HoldsStopper(Stream(t))
  {
    var w, f := Serving(s, c), s.clients[c].fifo;
    assert HasOwnFifo(s, w);
    assert AllShut(s, f) <==> Shut(s.tasks[w]);
    HaltsMeans(s.fifos[f].stream, AllShut(s, f));
  }

  /** How any round ends, whatever the command printed.  The client has printed what it would print
      of the whole output, or of what had been written and a newline if its task was cancelled.  If
      its task was not cancelled, the client is gone exactly when the first line at which it stops,
      if any, is the shutdown sentinel; it leaves a task that is not done only when the output is
      not clean.  If its task was cancelled, the client ends as the option says exactly when no
      earlier line makes it stop, or the first that does happens to mean the same. */
  lemma RoundOutcome(s: System, c: nat)
    requires Core(s) && Enabled(s, Finish(c))
    ensures Serving(s, c) < |s.tasks| && Sound(s.tasks[Serving(s, c)])
    ensures var t := s.tasks[Serving(s, c)];
            var session := Next(s, Finish(c)).clients[c];
            && t.client == c && (session == Gone || session == Ready)
            && Received(s.fifos[s.clients[c].fifo].stream).out ==
               Received(if t.stage.Cancelled? then Encode(t.output)[..t.sent] + [NL] else Encode(t.output)).out
            && (!t.stage.Cancelled? ==>
                  && (session == Gone <==> StopsAtShutdown(Lines(Encode(t.output))))
                  && (Clean(t.output) ==> t.stage.Closed? && session == Ready))
            && (t.stage.Cancelled? ==>
                  var ls := Lines(Encode(t.output)[..t.sent] + [NL]);
                  session == (if t.stage.opt == OPT_SHUTDOWN then Gone else Ready)
                  <==> (AnyStopper(ls) ==> (StopsAtShutdown(ls) <==> t.stage.opt == OPT_SHUTDOWN)))
  {
    FinishFinds(s, c);
    var t := s.tasks[Serving(s, c)];
    var p := Encode(t.output)[..t.sent];
    if t.stage.Cancelled? {
      assert Stream(t) == p + SendLine(t.stage.opt);
      CancelEndsAsMeantIff(p, t.stage.opt);
      CancelledOutputIff(p, t.stage.opt);
    } else {
      assert Stream(t) == p;
      UncancelledOutcome(t);
    }
  }

  lemma UncancelledOutcome(t: Task)
    requires Sound(t) && !t.stage.Cancelled? && Halts(Encode(t.output)[..t.sent], Shut(t))
    ensures Received(Encode(t.output)[..t.sent]) == Received(Encode(t.output))
    ensures Received(Encode(t.output)).stop == OnShutdown(true) <==> StopsAtShutdown(Lines(Encode(t.output)))
    ensures Clean(t.output) ==> t.stage.Closed? && !StopsAtShutdown(Lines(Encode(t.output)))
  {
    ShutsDownIff(Encode(t.output));
    if t.stage.Closed? {
      assert Encode(t.output)[..t.sent] == Encode(t.output);
    } else {
      EarlyLeaving(t.output, t.sent);
    }
    if Clean(t.output) {
      CleanIsNoShutdown(t.output);
    }
  }

  /** What the client, reading as the client program does, has printed when its task is done: its
      own task's stream, exactly when the lines that arrive are printable; for output without NUL
      that is a condition on the output's own lines, and then deleting the NULs gives the output.
      When its task was cancelled: all that had been written and the canceller's newline, exactly
      when those lines are printable. */
  lemma RoundPrints(s: System, c: nat, reply: seq<LineReader.Event>)
    requires Core(s) && Enabled(s, Finish(c))
    requires LineReader.Data(reply) == s.fifos[s.clients[c].fifo].stream
    ensures Serving(s, c) < |s.tasks| && Sound(s.tasks[Serving(s, c)])
    ensures var t := s.tasks[Serving(s, c)];
            var out := Received(LineReader.Data(reply)).out;
            && (t.stage.Closed? ==>
                  && (out == Encode(t.output) <==> PrintableLines(Lines(Encode(t.output))))
                  && (NulFree(t.output) ==> (out == Encode(t.output) <==> PrintableOutput(t.output)))
                  && (NulFree(t.output) && PrintableOutput(t.output) ==> WithoutNuls(out) == t.output))
            && (t.stage.Cancelled? ==>
                  var written := Encode(t.output)[..t.sent] + [NL];
                  out == written <==> PrintableLines(Lines(written)))
  {
    RoundOutcome(s, c);
    var t := s.tasks[Serving(s, c)];
    if t.stage.Cancelled? {
      CancelledOutputIff(Encode(t.output)[..t.sent], t.stage.opt);
    } else {
      ClientPrintsStreamIff(Encode(t.output));
      if NulFree(t.output) {
        OutputRoundTripIff(t.output);
      }
    }
  }

  // ----- who loads again

  function LoadsOf(rs: seq<Slot.Request>, c: nat): nat {
    if rs == [] then 0 else LoadsOf(rs[..|rs| - 1], c) + if rs[|rs| - 1].client == c then 1 else 0
  }

  lemma LoadCounts(rs: seq<Slot.Request>, r: Slot.Request, c: nat)
    ensures LoadsOf(rs + [r], c) == LoadsOf(rs, c) + if r.client == c then 1 else 0
  {
    assert (rs + [r])[..|rs|] == rs;
  }

  /** A client that is gone stays gone and loads nothing more. */
  lemma {:induction false} GoneForGood(s: System, run: seq<Event>, c: nat)
    requires HasClient(s, c, Gone) && IsRun(s, run)
    ensures HasClient(After(s, run), c, Gone)
    ensures LoadsOf(After(s, run).slot.loaded, c) == LoadsOf(s.slot.loaded, c)
    decreases |run|
  {
    if run != [] {
      GoneStep(s, run[0], c);
      GoneForGood(Next(s, run[0]), run[1..], c);
    }
  }

  lemma GoneStep(s: System, a: Event, c: nat)
    requires HasClient(s, c, Gone) && Enabled(s, a)
    ensures HasClient(Next(s, a), c, Gone)
    ensures LoadsOf(Next(s, a).slot.loaded, c) == LoadsOf(s.slot.loaded, c)
  {
    if a.Load? {
      LoadCounts(s.slot.loaded, Slot.Request(a.client, a.text), c);
    }
  }

  /** Some continuation has another request of the client. */
  ghost predicate LoadsAgain(s: System, c: nat) {
    exists run :: IsRun(s, run) && LoadsOf(After(s, run).slot.loaded, c) > LoadsOf(s.slot.loaded, c)
  }

  lemma LoadsAgainIffReady(s: System, c: nat)
    requires SlotHeld(s) && (HasClient(s, c, Ready) || HasClient(s, c, Gone))
    ensures LoadsAgain(s, c) <==> HasClient(s, c, Ready)
  {
    if HasClient(s, c, Ready) {
      var run := [Load(c, "")];
      var t := Next(s, run[0]);
      assert run[1..] == [] && IsRun(t, []) && After(t, []) == t;
      LoadCounts(s.slot.loaded, Slot.Request(c, ""), c);
      assert IsRun(s, run) && After(s, run) == t;
    } else {
      forall run | IsRun(s, run)
        ensures LoadsOf(After(s, run).slot.loaded, c) == LoadsOf(s.slot.loaded, c)
      {
        GoneForGood(s, run, c);
      }
    }
  }

  /** After a round the client can load another request exactly when what it has read, as the
      client program reads it, did not ask for shutdown; when it was cancelled and nothing made it
      stop earlier, that is exactly when it was only interrupted. */
  lemma LoadsAgainIff(s: System, c: nat, reply: seq<LineReader.Event>)
    requires Core(s) && Enabled(s, Finish(c))
    requires LineReader.Data(reply) == s.fifos[s.clients[c].fifo].stream
    ensures LoadsAgain(Next(s, Finish(c)), c) <==> !RequestsShutdown(reply)
    ensures Serving(s, c) < |s.tasks| && Sound(s.tasks[Serving(s, c)])
    ensures var t := s.tasks[Serving(s, c)];
            t.stage.Cancelled? && !AnyStopper(Lines(Encode(t.output)[..t.sent] + [NL])) ==>
              (LoadsAgain(Next(s, Finish(c)), c) <==> t.stage.opt == OPT_INTERRUPT)
  {
    FinishFinds(s, c);
    RoundOutcome(s, c);
    FinishKeeps(s, Finish(c));
    LoadsAgainIffReady(Next(s, Finish(c)), c);
  }

  /** A client that leaves at its own prompt loads nothing more. */
  lemma QuitIsFinal(s: System, c: nat)
    requires SlotHeld(s) && HasClient(s, c, Ready)
    ensures Enabled(s, Quit(c)) && !LoadsAgain(Next(s, Quit(c)), c)
  {
    LoadsAgainIffReady(Next(s, Quit(c)), c);
  }

  // ----- the console's word

  lemma ShutStep(s: System, a: Event, w: nat)
    requires Owned(s) && Enabled(s, a) && w < |s.tasks| && Shut(s.tasks[w])
    ensures w < |Next(s, a).tasks| && Next(s, a).tasks[w] == s.tasks[w]
  {
    if a.Cancel? {
      var i := FirstIndex(QueuedIds(s), a.client);
      assert i < |s.queue| ==> s.queue[i] in s.queue;
    }
  }

  /** A task that has been closed or cancelled does not change any more. */
  lemma {:induction false} ShutForGood(s: System, run: seq<Event>, w: nat)
    requires Owned(s) && IsRun(s, run) && w < |s.tasks| && Shut(s.tasks[w])
    ensures w < |After(s, run).tasks| && After(s, run).tasks[w] == s.tasks[w]
    decreases |run|
  {
    if run != [] {
      ShutStep(s, run[0], w);
      OwnedStep(s, run[0]);
      ShutForGood(Next(s, run[0]), run[1..], w);
    }
  }

  /** The end of a round whose task has been cancelled with `opt`. */
  lemma CancelledRound(s: System, c: nat, opt: int)
    requires Core(s) && c < |s.clients| && s.clients[c].Served? && HasTask(s, Serving(s, c), Lifecycle.Cancelled(opt))
    ensures Enabled(s, Finish(c)) && Sound(s.tasks[Serving(s, c)])
    ensures var t := s.tasks[Serving(s, c)];
            var ls := Lines(Encode(t.output)[..t.sent] + [NL]);
            && (Next(s, Finish(c)).clients[c] == (if opt == OPT_SHUTDOWN then Gone else Ready)
                <==> (AnyStopper(ls) ==> (StopsAtShutdown(ls) <==> opt == OPT_SHUTDOWN)))
            && (!AnyStopper(ls) ==> (LoadsAgain(Next(s, Finish(c)), c) <==> opt == OPT_INTERRUPT))
  {
    RoundEndsIff(s, c);
    RoundOutcome(s, c);
    FinishKeeps(s, Finish(c));
    LoadsAgainIffReady(Next(s, Finish(c)), c);
  }

  /** The command given at the console decides the round: whatever happens between, a client that is
      served by the task that was cancelled can leave, and ends as the command says, gone for
      shutdown and ready for interrupt, exactly when no line of what had been written makes it stop
      first, or the first that does happens to mean the same.  When none does, the client can load
      again exactly if the command was an interrupt. */
  lemma CancelDecidesRound(s: System, c: nat, opt: int, rest: seq<Event>)
    requires Core(s) && Owned(s) && ValidOption(opt) && FirstIndex(QueuedIds(s), c) < |s.queue|
    requires IsRun(Next(s, Cancel(c, opt)), rest) && Serialised(Next(s, Cancel(c, opt)), rest)
    ensures var w := s.queue[FirstIndex(QueuedIds(s), c)];
            w < |s.tasks| && s.tasks[w].sent <= |Encode(s.tasks[w].output)|
    ensures var w := s.queue[FirstIndex(QueuedIds(s), c)];
            var t := After(Next(s, Cancel(c, opt)), rest);
            var ls := Lines(Encode(s.tasks[w].output)[..s.tasks[w].sent] + [NL]);
            c < |t.clients| && t.clients[c].Served? && Serving(t, c) == w ==>
              && Enabled(t, Finish(c))
              && (Next(t, Finish(c)).clients[c] == (if opt == OPT_SHUTDOWN then Gone else Ready)
                  <==> (AnyStopper(ls) ==> (StopsAtShutdown(ls) <==> opt == OPT_SHUTDOWN)))
              && (!AnyStopper(ls) ==> (LoadsAgain(Next(t, Finish(c)), c) <==> opt == OPT_INTERRUPT))
  {
    var w := s.queue[FirstIndex(QueuedIds(s), c)];
    assert w in s.queue && HasOwnFifo(s, w);
    var s1 := Next(s, Cancel(c, opt));
    StepKeeps(s, Cancel(c, opt));
    assert s1.tasks[w] == s.tasks[w].(stage := Lifecycle.Cancelled(opt));
    ShutForGood(s1, rest, w);
    RunKeeps(s1, rest);
    var t := After(s1, rest);
    if c < |t.clients| && t.clients[c].Served? && Serving(t, c) == w {
      CancelledRound(t, c, opt);
    }
  }
}
