/** For which command output the whole system stays sound: a client has one queue entry, and the
    server writes to nobody who has left, exactly when no output ends the client's loop early. */
module Outcomes {
  import opened Wire
  import opened LineSplit
  import opened Worker
  import opened Client
  import opened Lifecycle
  import opened Ownership
  import opened Rounds
  import opened Histories
  import opened Search
  import Slot

  // ----- what gentle output keeps

  predicate Live(t: Task) {
    !Shut(t)
  }

  /** A task that has met its client and still holds its FIFO has the client's attention, unless
      its own output has shut the client down. */
  predicate Attended(s: System) {
    forall w :: 0 <= w < |s.tasks| && Live(s.tasks[w]) && !s.tasks[w].stage.Opening? ==>
      var t := s.tasks[w];
      HasClient(s, t.client, Served(t.fifo)) || (HasClient(s, t.client, Gone) && !Clean(t.output))
  }

  predicate OneLiveTask(s: System) {
    forall v, w :: 0 <= v < w < |s.tasks| && Live(s.tasks[v]) && Live(s.tasks[w]) ==>
      s.tasks[v].client != s.tasks[w].client
  }

  predicate AllGentle(s: System) {
    forall w :: 0 <= w < |s.tasks| ==> Gentle(s.tasks[w].output)
  }

  predicate AllClean(s: System) {
    forall w :: 0 <= w < |s.tasks| ==> Clean(s.tasks[w].output)
  }

  predicate Minded(s: System) {
    AllGentle(s) && Attended(s) && OneLiveTask(s) && (AllClean(s) ==> !s.broken)
  }

  /** Only a client that is neither served nor gone changes. */
  lemma ClientStepKeeps(s: System, a: Event)
    requires Minded(s) && Enabled(s, a)
    requires a.Load? || a.TryWait? || a.Post? || a.Quit? || a.Wait?
    ensures Minded(Next(s, a))
  {
    AttendedStays(s, Next(s, a));
  }

  lemma AttendedStays(s: System, t: System)
    requires Attended(s) && t.tasks == s.tasks && |t.clients| == |s.clients|
    requires forall c :: 0 <= c < |s.clients| && (s.clients[c].Served? || s.clients[c].Gone?) ==>
      t.clients[c] == s.clients[c]
    ensures Attended(t)
  {
  }

  lemma CopyKeepsMinded(s: System, a: Event)
    requires SlotHeld(s) && PendingAlone(s) && Minded(s) && Enabled(s, a) && a.Copy? && Gentle(a.output)
    ensures Minded(Next(s, a))
  {
    CopyFinds(s);
    NewTaskKeeps(s, Next(s, a), Task(s.slot.slot.client, a.output, 0, 0, Opening));
  }

  lemma NewTaskKeeps(s: System, t: System, made: Task)
    requires Minded(s) && Gentle(made.output) && made.stage.Opening? && HasClient(s, made.client, Waiting)
    requires forall w :: 0 <= w < |s.tasks| ==> !BlockedOn(s.tasks[w], made.client)
    requires t.clients == s.clients && t.tasks == s.tasks + [made] && t.broken == s.broken
    ensures Minded(t)
  {
    NewTaskAttended(s, t, made);
    NewTaskOutputs(s, t, made);
  }

  lemma NewTaskOutputs(s: System, t: System, made: Task)
    requires t.tasks == s.tasks + [made]
    ensures AllGentle(s) && Gentle(made.output) ==> AllGentle(t)
    ensures AllClean(t) ==> AllClean(s)
  {
    assert forall w :: 0 <= w < |s.tasks| ==> t.tasks[w] == s.tasks[w];
  }

  lemma NewTaskAttended(s: System, t: System, made: Task)
    requires Attended(s) && OneLiveTask(s) && made.stage.Opening? && HasClient(s, made.client, Waiting)
    requires forall w :: 0 <= w < |s.tasks| ==> !BlockedOn(s.tasks[w], made.client)
    requires t.clients == s.clients && t.tasks == s.tasks + [made]
    ensures Attended(t) && OneLiveTask(t)
  {
    forall w | 0 <= w < |s.tasks| && Live(s.tasks[w])
      ensures s.tasks[w].client != made.client
    {
    }
  }

  lemma ConnectKeepsMinded(s: System, a: Event)
    requires OpeningAwaited(s) && Minded(s) && Enabled(s, a) && a.Connect?
    ensures Minded(Next(s, a))
  {
    var w := ConnectFinds(s, a.client);
    ConnectKeepsAttended(s, Next(s, a), a.client, w);
    SameOutputs(s, Next(s, a));
  }

  lemma SameOutputs(s: System, t: System)
    requires |s.tasks| == |t.tasks| && forall w :: 0 <= w < |s.tasks| ==> t.tasks[w].output == s.tasks[w].output
    ensures AllGentle(t) <==> AllGentle(s)
    ensures AllClean(t) <==> AllClean(s)
  {
    assert forall w :: 0 <= w < |s.tasks| ==> s.tasks[w].output == t.tasks[w].output;
  }

  lemma ConnectKeepsAttended(s: System, t: System, c: nat, w: nat)
    requires Attended(s) && OneLiveTask(s) && HasClient(s, c, Waiting) && w < |s.tasks| && BlockedOn(s.tasks[w], c)
    requires t == Met(s, c, w)
    ensures Attended(t) && OneLiveTask(t)
  {
  }

  /** A task past the meeting goes on; what it writes is read if its output is clean. */
  lemma GoingOnKeepsMinded(s: System, t: System, w: nat, x: Task)
    requires Minded(s) && w < |s.tasks| && t.clients == s.clients && t.tasks == s.tasks[w := x]
    requires !s.tasks[w].stage.Opening? && !x.stage.Opening?
    requires x.client == s.tasks[w].client && x.output == s.tasks[w].output && x.fifo == s.tasks[w].fifo
    requires Live(s.tasks[w]) && (t.broken ==> s.broken || Unread(s, w))
    ensures Minded(t)
  {
    SameOutputs(s, t);
    GoingOnAttended(s, t, w, x);
    if AllClean(s) {
      assert Clean(s.tasks[w].output);
    }
  }

  lemma GoingOnAttended(s: System, t: System, w: nat, x: Task)
    requires Attended(s) && OneLiveTask(s) && w < |s.tasks| && t.clients == s.clients && t.tasks == s.tasks[w := x]
    requires !s.tasks[w].stage.Opening? && Live(s.tasks[w])
    requires x.client == s.tasks[w].client && x.output == s.tasks[w].output && x.fifo == s.tasks[w].fifo
    ensures Attended(t) && OneLiveTask(t)
  {
  }

  lemma WorkerKeepsMinded(s: System, a: Event)
    requires Minded(s) && Enabled(s, a) && (a.Add? || a.Send? || a.Remove? || a.Close?)
    ensures Minded(Next(s, a))
  {
    GoingOnKeepsMinded(s, Next(s, a), a.task, Next(s, a).tasks[a.task]);
  }

  lemma CancelKeepsMinded(s: System, a: Event)
    requires Minded(s) && Owned(s) && Enabled(s, a) && a.Cancel?
    ensures Minded(Next(s, a))
  {
    var i := FirstIndex(QueuedIds(s), a.client);
    if i < |s.queue| && s.queue[i] < |s.tasks| {
      var w := s.queue[i];
      assert w in s.queue;
      GoingOnKeepsMinded(s, Next(s, a), w, Next(s, a).tasks[w]);
    }
  }

  lemma LeavingLive(t: Task)
    requires Sound(t) && Live(t) && Gentle(t.output) && Halts(Stream(t), Shut(t))
    ensures !Clean(t.output) && Received(Stream(t)).stop == OnShutdown(true)
  {
    assert Stream(t) == Encode(t.output)[..t.sent];
    GentleLeaving(t.output, t.sent);
  }

  /** A client that lives on leaves only a FIFO that has been closed, so that no live task of its
      own is left. */
  lemma LeavesBehind(s: System, c: nat)
    requires OwnFifos(s) && ServedByOwn(s) && OpeningAwaited(s) && AllGentle(s) && Attended(s) && Enabled(s, Finish(c))
    ensures HasClient(Next(s, Finish(c)), c, Gone) || HasClient(Next(s, Finish(c)), c, Ready)
    ensures forall w :: 0 <= w < |s.tasks| && Live(s.tasks[w]) && s.tasks[w].client == c ==>
      HasClient(Next(s, Finish(c)), c, Gone) && !Clean(s.tasks[w].output)
  {
    FinishFinds(s, c);
    var v := Serving(s, c);
    forall w | 0 <= w < |s.tasks| && Live(s.tasks[w]) && s.tasks[w].client == c
      ensures HasClient(Next(s, Finish(c)), c, Gone) && !Clean(s.tasks[w].output)
    {
      assert !s.tasks[w].stage.Opening?;
      assert HasOwnFifo(s, w) && w == v;
      LeavingLive(s.tasks[v]);
    }
  }

  lemma FinishKeepsMinded(s: System, a: Event)
    requires OwnFifos(s) && ServedByOwn(s) && OpeningAwaited(s) && Minded(s) && Enabled(s, a) && a.Finish?
    ensures Minded(Next(s, a))
  {
    LeavesBehind(s, a.client);
    FinishKeepsAttended(s, a);
  }

  lemma FinishKeepsAttended(s: System, a: Event)
    requires Attended(s) && Enabled(s, a) && a.Finish?
    requires forall w :: 0 <= w < |s.tasks| && Live(s.tasks[w]) && s.tasks[w].client == a.client ==>
      HasClient(Next(s, a), a.client, Gone) && !Clean(s.tasks[w].output)
    ensures Attended(Next(s, a))
  {
  }

  lemma MindedStep(s: System, a: Event)
    requires Core(s) && Owned(s) && Minded(s) && Enabled(s, a)
    requires a.Copy? ==> Gentle(a.output)
    ensures Minded(Next(s, a))
  {
    match a
    case Copy(_) => CopyKeepsMinded(s, a);
    case Connect(_) => ConnectKeepsMinded(s, a);
    case Join(w) => NobodyJoins(s, w);
    case Add(_) => WorkerKeepsMinded(s, a);
    case Send(_, _) => WorkerKeepsMinded(s, a);
    case Remove(_) => WorkerKeepsMinded(s, a);
    case Close(_) => WorkerKeepsMinded(s, a);
    case Cancel(_, _) => CancelKeepsMinded(s, a);
    case Finish(_) => FinishKeepsMinded(s, a);
    case _ => ClientStepKeeps(s, a);
  }

  // ----- runs by the output of their commands

  ghost predicate OutputsIn(run: seq<Event>, outputs: iset<string>) {
    forall i :: 0 <= i < |run| && run[i].Copy? ==> run[i].output in outputs
  }

  ghost predicate GentleSet(outputs: iset<string>) {
    forall output :: output in outputs ==> Gentle(output)
  }

  ghost predicate CleanSet(outputs: iset<string>) {
    forall output :: output in outputs ==> Clean(output)
  }

  /** A serialised run from the start whose commands print nothing but `outputs`. */
  ghost predicate Allowed(clients: nat, run: seq<Event>, outputs: iset<string>) {
    IsRun(Start(clients), run) && Serialised(Start(clients), run) && OutputsIn(run, outputs)
  }

  lemma OutputsTail(run: seq<Event>, outputs: iset<string>)
    requires run != [] && OutputsIn(run, outputs)
    ensures OutputsIn(run[1..], outputs) && (run[0].Copy? ==> run[0].output in outputs)
  {
  }

  lemma {:induction false} MindedRun(s: System, run: seq<Event>, outputs: iset<string>)
    requires Core(s) && Owned(s) && Minded(s) && IsRun(s, run) && Serialised(s, run)
    requires OutputsIn(run, outputs) && GentleSet(outputs)
    ensures Minded(After(s, run)) && Owned(After(s, run))
    decreases |run|
  {
    if run != [] {
      OutputsTail(run, outputs);
      StepKeeps(s, run[0]);
      MindedStep(s, run[0]);
      MindedRun(Next(s, run[0]), run[1..], outputs);
    }
  }

  lemma CleanStep(s: System, a: Event)
    requires AllClean(s) && Enabled(s, a) && (a.Copy? ==> Clean(a.output))
    ensures AllClean(Next(s, a))
  {
    OutputsAfter(s, a);
    forall w | 0 <= w < |Next(s, a).tasks|
      ensures Clean(Next(s, a).tasks[w].output)
    {
      if w < |s.tasks| {
        assert Next(s, a).tasks[w].output == s.tasks[w].output;
      }
    }
  }

  lemma OutputsAfter(s: System, a: Event)
    requires Enabled(s, a)
    ensures |Next(s, a).tasks| == |s.tasks| + if a.Copy? then 1 else 0
    ensures forall w :: 0 <= w < |s.tasks| ==> Next(s, a).tasks[w].output == s.tasks[w].output
    ensures a.Copy? ==> Next(s, a).tasks[|s.tasks|].output == a.output
  {
  }

  lemma {:induction false} CleanRun(s: System, run: seq<Event>, outputs: iset<string>)
    requires AllClean(s) && IsRun(s, run) && OutputsIn(run, outputs) && CleanSet(outputs)
    ensures AllClean(After(s, run))
    decreases |run|
  {
    if run != [] {
      CleanStep(s, run[0]);
      CleanRun(Next(s, run[0]), run[1..], outputs);
    }
  }

  /** No two entries of the queue belong to the same client, so looking one up by client id finds
      that client's only active task. */
  predicate OneEntryPerClient(s: System) {
    forall i, j :: 0 <= i < j < |s.queue| ==> ClientOf(s, i) != ClientOf(s, j)
  }

  lemma OneTaskMeansOneEntry(s: System)
    requires Owned(s) && OneLiveTask(s)
    ensures OneEntryPerClient(s)
  {
    forall i, j | 0 <= i < j < |s.queue|
      ensures ClientOf(s, i) != ClientOf(s, j)
    {
      assert s.queue[i] in s.queue && s.queue[j] in s.queue;
    }
  }

  /** A run of any number of clients that writes no request over another: with gentle output a
      client has at most one queue entry, and with clean output nothing is ever written to a FIFO
      without a reader. */
  lemma EveryGentleRun(clients: nat, run: seq<Event>, outputs: iset<string>)
    requires Allowed(clients, run, outputs) && GentleSet(outputs)
    ensures OneEntryPerClient(After(Start(clients), run))
    ensures CleanSet(outputs) ==> !After(Start(clients), run).broken
  {
    StartHolds(clients);
    MindedRun(Start(clients), run, outputs);
    OneTaskMeansOneEntry(After(Start(clients), run));
    if CleanSet(outputs) {
      CleanRun(Start(clients), run, outputs);
    }
  }

  /** One client, every run: who owns what and that delivery is exactly-once needs nothing; one
      entry needs gentle output, and a reader for every write needs clean output. */
  lemma SingleClientIsOwned(run: seq<Event>, outputs: iset<string>)
    requires IsRun(Start(1), run) && OutputsIn(run, outputs)
    ensures var s := After(Start(1), run);
            && Owned(s) && NoOrphan(s) && Slot.Delivered(s.slot)
            && (GentleSet(outputs) ==> OneEntryPerClient(s))
            && (CleanSet(outputs) ==> !s.broken)
  {
    SingleClientIsSerialised(run);
    EveryRunIsOwned(1, run);
    EverySerialisedRun(1, run);
    if GentleSet(outputs) {
      EveryGentleRun(1, run, outputs);
    }
  }

  // ----- when output ends the loop early

  /** From `s` the run leads to `t`; it writes no request over another, and all its commands print
      `output`. */
  ghost predicate Leads(s: System, run: seq<Event>, output: string, t: System) {
    IsRun(s, run) && Serialised(s, run) && OutputsIn(run, iset{output}) && After(s, run) == t
  }

  lemma LeadsStep(s: System, a: Event, rest: seq<Event>, output: string, t: System)
    requires Enabled(s, a) && Leads(Next(s, a), rest, output, t)
    requires (a.Load? ==> !s.slot.pending) && (a.Copy? ==> a.output == output)
    ensures Leads(s, [a] + rest, output, t)
  {
    assert ([a] + rest)[1..] == rest;
  }

  lemma {:induction false} LeadsOn(s: System, a: seq<Event>, t: System, b: seq<Event>, output: string, u: System)
    requires Leads(s, a, output, t) && Leads(t, b, output, u)
    ensures Leads(s, a + b, output, u)
    decreases |a|
  {
    if a == [] {
      assert a + b == b;
    } else {
      assert (a + b)[0] == a[0] && (a + b)[1..] == a[1..] + b;
      LeadsOn(Next(s, a[0]), a[1..], t, b, output, u);
    }
  }

  lemma TwoEvents(s: System, a: Event, b: Event, output: string)
    requires Enabled(s, a) && Enabled(Next(s, a), b)
    requires (a.Load? || b.Load? ==> !s.slot.pending) && (b.Load? ==> !a.Load?)
    requires (a.Copy? ==> a.output == output) && (b.Copy? ==> b.output == output)
    ensures Leads(s, [a, b], output, Next(Next(s, a), b))
  {
    var u := Next(Next(s, a), b);
    assert Leads(u, [], output, u);
    LeadsStep(Next(s, a), b, [], output, u);
    LeadsStep(s, a, [b], output, u);
    assert [b] + [] == [b] && [a] + [b] == [a, b];
  }

  /** Nothing under way in the slot, as far as the first client is concerned. */
  predicate Quiet(sl: Slot.State) {
    |sl.phase| > 0 && sl.phase[0] == Slot.Idle && sl.sem == 0 && !sl.copying && !sl.pending
  }

  predicate NoneOpening(tasks: seq<Task>) {
    forall w :: 0 <= w < |tasks| ==> !tasks[w].stage.Opening?
  }

  /** The first client's request is in the slot, posted. */
  predicate Posted(sl: Slot.State) {
    |sl.phase| > 0 && sl.phase[0] == Slot.Idle && sl.sem == 1 && !sl.copying && sl.slot.client == 0
  }

  lemma Submitting(s: System, output: string) returns (run: seq<Event>, t: System)
    requires Quiet(s.slot) && HasClient(s, 0, Ready)
    ensures Leads(s, run, output, t) && Posted(t.slot)
    ensures t == s.(slot := t.slot, clients := s.clients[0 := Waiting])
  {
    var s1 := Next(s, Load(0, ""));
    var s2 := Next(s1, TryWait(0));
    t := Next(s2, Post(0));
    TwoEvents(s1, TryWait(0), Post(0), output);
    LeadsStep(s, Load(0, ""), [TryWait(0), Post(0)], output, t);
    run := [Load(0, "")] + [TryWait(0), Post(0)];
  }

  lemma Taking(s: System, output: string) returns (run: seq<Event>, t: System)
    requires Posted(s.slot)
    ensures Leads(s, run, output, t) && Quiet(t.slot)
    ensures t == s.(slot := t.slot, tasks := s.tasks + [Task(0, output, 0, 0, Opening)])
  {
    var s1 := Next(s, Wait);
    run, t := [Wait, Copy(output)], Next(s1, Copy(output));
    TwoEvents(s, Wait, Copy(output), output);
  }

  /** A request of the first client goes through the slot and becomes a task. */
  lemma Requesting(s: System, output: string) returns (run: seq<Event>, t: System)
    requires Quiet(s.slot) && HasClient(s, 0, Ready)
    ensures Leads(s, run, output, t) && Quiet(t.slot)
    ensures t == s.(slot := t.slot, clients := s.clients[0 := Waiting],
                    tasks := s.tasks + [Task(0, output, 0, 0, Opening)])
  {
    var run1, s1 := Submitting(s, output);
    var run2, s2 := Taking(s1, output);
    LeadsOn(s, run1, s1, run2, output, s2);
    run, t := run1 + run2, s2;
  }

  /** The task meets its client and joins the queue. */
  lemma Meeting(s: System, output: string) returns (run: seq<Event>, t: System)
    requires HasClient(s, 0, Waiting) && |s.tasks| > 0 && NoneOpening(s.tasks[..|s.tasks| - 1])
    requires s.tasks[|s.tasks| - 1] == Task(0, output, 0, 0, Opening)
    ensures Leads(s, run, output, t)
    ensures var w, f := |s.tasks| - 1, |s.fifos|;
            t == s.(clients := s.clients[0 := Served(f)], tasks := s.tasks[w := Task(0, output, 0, f, Running)],
                    fifos := s.fifos + [Channel(0, "", [w], true)], queue := [w] + s.queue)
  {
    var w := |s.tasks| - 1;
    OnlyLastBlocked(s.tasks);
    Meets(s, 0, w);
    var s1 := Met(s, 0, w);
    assert HasTask(s1, w, Opened);
    run, t := [Connect(0), Add(w)], Next(s1, Add(w));
    TwoEvents(s, Connect(0), Add(w), output);
  }

  lemma OnlyLastBlocked(tasks: seq<Task>)
    requires |tasks| > 0 && NoneOpening(tasks[..|tasks| - 1]) && BlockedOn(tasks[|tasks| - 1], 0)
    ensures forall v :: 0 <= v < |tasks| ==> (BlockedOn(tasks[v], 0) <==> v == |tasks| - 1)
  {
    assert forall v :: 0 <= v < |tasks| - 1 ==> tasks[..|tasks| - 1][v] == tasks[v];
  }

  lemma UncleanHalts(output: string)
    requires !Clean(output)
    ensures |Encode(output)| > 0 && Halts(Encode(output), false)
  {
    var s := Encode(output);
    var i :| 0 <= i < |Lines(s)| && Terminated(Lines(s)[i]) && Stopper(Lines(s)[i]);
    HaltsAtStopper(s, i);
  }

  /** How the first client has left after reading all of an output. */
  function Left(output: string): Session {
    if Received(Encode(output)).stop == OnShutdown(true) then Gone else Ready
  }

  lemma Writing(s: System, w: nat, f: nat, output: string)
    requires HasClient(s, 0, Served(f)) && w < |s.tasks| && s.tasks[w] == Task(0, output, 0, f, Running)
    requires f < |s.fifos| && s.fifos[f].stream == "" && |Encode(output)| > 0
    ensures Enabled(s, Send(w, |Encode(output)|))
    ensures Next(s, Send(w, |Encode(output)|)) ==
            s.(tasks := s.tasks[w := Task(0, output, |Encode(output)|, f, Running)],
               fifos := s.fifos[f := s.fifos[f].(stream := Encode(output))])
  {
    assert Encode(output)[0..|Encode(output)|] == Encode(output);
    assert "" + Encode(output) == Encode(output);
  }

  lemma Leaving(s: System, f: nat, output: string)
    requires HasClient(s, 0, Served(f)) && f < |s.fifos| && s.fifos[f].stream == Encode(output)
    requires Halts(Encode(output), false)
    ensures Enabled(s, Finish(0))
    ensures Next(s, Finish(0)) == s.(clients := s.clients[0 := Left(output)], fifos := Unlinked(s.fifos, f))
  {
  }

  /** The task writes output that is not clean, and the client leaves while the task is queued. */
  lemma StoppingEarly(s: System, w: nat, f: nat, output: string) returns (run: seq<Event>, t: System)
    requires HasClient(s, 0, Served(f)) && w < |s.tasks| && s.tasks[w] == Task(0, output, 0, f, Running)
    requires f < |s.fifos| && s.fifos[f].stream == "" && !Clean(output)
    ensures Leads(s, run, output, t)
    ensures t == s.(clients := s.clients[0 := Left(output)], fifos := t.fifos,
                    tasks := s.tasks[w := Task(0, output, |Encode(output)|, f, Running)])
  {
    UncleanHalts(output);
    Writing(s, w, f, output);
    var a := Send(w, |Encode(output)|);
    var s1 := Next(s, a);
    Leaving(s1, f, output);
    run, t := [a, Finish(0)], Next(s1, Finish(0));
    TwoEvents(s, a, Finish(0), output);
  }

  /** The first client has left its only task, which is still in the queue. */
  predicate LeftBehind(s: System, output: string) {
    && Quiet(s.slot) && HasClient(s, 0, Left(output)) && s.queue == [0] && !s.broken
    && s.tasks == [Task(0, output, |Encode(output)|, 0, Running)]
  }

  /** The first client's task is running, and nobody else has done anything. */
  predicate FirstRunning(s: System, output: string) {
    && Quiet(s.slot) && HasClient(s, 0, Served(0)) && s.queue == [0] && s.fifos == [Channel(0, "", [0], true)]
    && s.tasks == [Task(0, output, 0, 0, Running)] && !s.broken
  }

  predicate NothingYet(s: System) {
    Quiet(s.slot) && HasClient(s, 0, Ready) && s.tasks == [] && s.fifos == [] && s.queue == [] && !s.broken
  }

  lemma StartIsQuiet(clients: nat)
    requires clients >= 1
    ensures NothingYet(Start(clients))
  {
  }

  lemma FirstTask(s: System, output: string) returns (run: seq<Event>, t: System)
    requires NothingYet(s)
    ensures Leads(s, run, output, t) && FirstRunning(t, output)
  {
    var run1, s1 := Requesting(s, output);
    assert s1.tasks == [Task(0, output, 0, 0, Opening)];
    var run2, s2 := Meeting(s1, output);
    LeadsOn(s, run1, s1, run2, output, s2);
    run, t := run1 + run2, s2;
  }

  lemma EarlyStop(clients: nat, output: string) returns (run: seq<Event>, t: System)
    requires clients >= 1 && !Clean(output)
    ensures Leads(Start(clients), run, output, t) && LeftBehind(t, output)
  {
    var s0 := Start(clients);
    StartIsQuiet(clients);
    var run1, s1 := FirstTask(s0, output);
    var run2, s2 := StoppingEarly(s1, 0, 0, output);
    LeadsOn(s0, run1, s1, run2, output, s2);
    run, t := run1 + run2, s2;
  }

  /** Cancelling the task after its client has left writes the sentinel to nobody. */
  lemma BreakingRun(clients: nat, output: string) returns (run: seq<Event>, t: System)
    requires clients >= 1 && !Clean(output)
    ensures Leads(Start(clients), run, output, t) && t.broken
  {
    var run1, s1 := EarlyStop(clients, output);
    var a := Cancel(0, OPT_INTERRUPT);
    assert QueuedIds(s1)[0] == 0;
    t := Next(s1, a);
    assert Leads(t, [], output, t);
    LeadsStep(s1, a, [], output, t);
    LeadsOn(Start(clients), run1, s1, [a] + [], output, t);
    run := run1 + ([a] + []);
  }

  /** Unless that output has shut the client down, a second entry of the client then joins the
      queue, before anything has been written to a FIFO without a reader. */
  lemma DuplicatingRun(clients: nat, output: string) returns (run: seq<Event>, t: System)
    requires clients >= 1 && !Gentle(output)
    ensures Leads(Start(clients), run, output, t) && !OneEntryPerClient(t) && !t.broken
  {
    var run1, s1 := EarlyStop(clients, output);
    var run2, s2 := Requesting(s1, output);
    assert s2.tasks[..1] == s1.tasks;
    var run3, s3 := Meeting(s2, output);
    LeadsOn(Start(clients), run1, s1, run2, output, s2);
    LeadsOn(Start(clients), run1 + run2, s2, run3, output, s3);
    run, t := run1 + run2 + run3, s3;
    assert t.queue == [1, 0] && ClientOf(t, 0) == 0 && ClientOf(t, 1) == 0;
  }

  /** For any number of clients whose requests are not written over each other, and any set of
      command outputs: no run puts two entries of one client into the queue exactly when every
      output is gentle.  The same holds of the runs in which nothing has yet been written to a FIFO
      without a reader, a write that would end the server. */
  lemma OneEntryIffGentle(clients: nat, outputs: iset<string>)
    requires clients >= 1
    ensures (forall run :: Allowed(clients, run, outputs) ==> OneEntryPerClient(After(Start(clients), run)))
            <==> GentleSet(outputs)
    ensures (forall run :: Allowed(clients, run, outputs) && !After(Start(clients), run).broken ==>
                             OneEntryPerClient(After(Start(clients), run)))
            <==> GentleSet(outputs)
  {
    if GentleSet(outputs) {
      forall run | Allowed(clients, run, outputs)
        ensures OneEntryPerClient(After(Start(clients), run))
      {
        EveryGentleRun(clients, run, outputs);
      }
    } else {
      var output :| output in outputs && !Gentle(output);
      var run, t := DuplicatingRun(clients, output);
      assert Allowed(clients, run, outputs) && After(Start(clients), run) == t;
    }
  }

  /** Likewise: no run writes to a FIFO that nobody reads exactly when every output is clean. */
  lemma NeverBrokenIffClean(clients: nat, outputs: iset<string>)
    requires clients >= 1
    ensures (forall run :: Allowed(clients, run, outputs) ==> !After(Start(clients), run).broken)
            <==> CleanSet(outputs)
    ensures (forall run :: Allowed(clients, run, outputs) ==> !UnreadIn(Start(clients), run))
            <==> CleanSet(outputs)
  {
    if CleanSet(outputs) {
      forall run | Allowed(clients, run, outputs)
        ensures !After(Start(clients), run).broken && !UnreadIn(Start(clients), run)
      {
        EveryGentleRun(clients, run, outputs);
        EveryRunIsTold(clients, run);
      }
    } else {
      var output :| output in outputs && !Clean(output);
      var run, t := BreakingRun(clients, output);
      assert Allowed(clients, run, outputs) && After(Start(clients), run) == t;
      EveryRunIsTold(clients, run);
    }
  }

  /** Any part of a command's output may have been written when it is cancelled, and then stands on
      the FIFO in front of the sentinel: nothing said of cuts is empty. */
  lemma AnyCut(clients: nat, output: string, cut: nat, opt: int) returns (run: seq<Event>, t: System)
    requires clients >= 1 && cut <= |Encode(output)| && ValidOption(opt)
    ensures Leads(Start(clients), run, output, t) && HasClient(t, 0, Served(0)) && |t.fifos| == 1
    ensures t.fifos[0].stream == Encode(output)[..cut] + SendLine(opt) && Enabled(t, Finish(0))
  {
    StartIsQuiet(clients);
    var s0 := Start(clients);
    var run1, s1 := FirstTask(s0, output);
    var run2, s2 := WritingSome(s1, output, cut);
    LeadsOn(s0, run1, s1, run2, output, s2);
    var a := Cancel(0, opt);
    t := Next(s2, a);
    assert QueuedIds(s2)[0] == 0;
    assert Leads(t, [], output, t);
    LeadsStep(s2, a, [], output, t);
    LeadsOn(s0, run1 + run2, s2, [a] + [], output, t);
    run := run1 + run2 + ([a] + []);
    assert AllShut(t, 0);
  }

  /** The first client's running task writes any part of its output. */
  lemma WritingSome(s: System, output: string, cut: nat) returns (run: seq<Event>, t: System)
    requires FirstRunning(s, output) && cut <= |Encode(output)|
    ensures Leads(s, run, output, t) && HasClient(t, 0, Served(0)) && t.queue == [0]
    ensures t.tasks == [Task(0, output, cut, 0, Running)]
    ensures |t.fifos| == 1 && t.fifos[0].writers == [0] && t.fifos[0].stream == Encode(output)[..cut]
  {
    if cut == 0 {
      run, t := [], s;
    } else {
      var a := Send(0, cut);
      t := Next(s, a);
      assert Leads(t, [], output, t);
      LeadsStep(s, a, [], output, t);
      run := [a] + [];
      assert Encode(output)[0..cut] == Encode(output)[..cut];
    }
  }

  // ----- when requests are written over each other

  lemma TwoMore(s: System, a: Event, b: Event, t: System, rest: seq<Event>, u: System)
    requires Enabled(s, a) && Enabled(Next(s, a), b) && Next(Next(s, a), b) == t
    requires IsRun(t, rest) && After(t, rest) == u
    ensures IsRun(s, [a, b] + rest) && After(s, [a, b] + rest) == u
  {
    var run := [a, b] + rest;
    assert run[1..] == [b] + rest && run[1..][1..] == rest;
  }

  function LoadingRun(rest: seq<Event>): seq<Event> {
    [Load(0, "a"), Load(1, "b")] + ([TryWait(0), TryWait(1)] + ([Post(0), Post(1)] + rest))
  }

  function CopyingRun(rest: seq<Event>): seq<Event> {
    [Wait, Copy("")] + ([Wait, Copy("")] + rest)
  }

  function SharingRun(): seq<Event> {
    [Connect(1), Add(0)] + [Add(1)]
  }

  function CollidingRun(): seq<Event> {
    LoadingRun(CopyingRun(SharingRun()))
  }

  /** Both have written the slot, tried the semaphore and posted; the first request is lost. */
  function BothAt(phase: Slot.Phase, posts: nat, session: Session): System {
    var slot := Slot.State(Slot.Request(1, "b"), true, posts, [phase, phase], false,
                           [Slot.Request(0, "a"), Slot.Request(1, "b")], [], posts, 0);
    System(slot, [session, session], [], [], [], [], [], false)
  }

  function BothPosted(): System {
    BothAt(Slot.Idle, 2, Waiting)
  }

  /** The second has been dispatched twice. */
  function BothCopied(): System {
    var r := Slot.Request(1, "b");
    var opening := Task(1, "", 0, 0, Opening);
    BothPosted().(slot := BothPosted().slot.(pending := false, sem := 0, dispatched := [r, r]),
                  tasks := [opening, opening])
  }

  /** Both workers share the FIFO, and are queued. */
  function BothQueued(): System {
    var running := Task(1, "", 0, 0, Running);
    BothCopied().(clients := [Waiting, Served(0)], tasks := [running, running],
                  fifos := [Channel(1, "", [0, 1], true)], queue := [1, 0])
  }

  lemma PostingBoth(rest: seq<Event>, u: System)
    requires IsRun(BothPosted(), rest) && After(BothPosted(), rest) == u
    ensures var s := BothAt(Slot.Tried, 0, Sending);
            IsRun(s, [Post(0), Post(1)] + rest) && After(s, [Post(0), Post(1)] + rest) == u
  {
    TwoMore(BothAt(Slot.Tried, 0, Sending), Post(0), Post(1), BothPosted(), rest, u);
  }

  lemma TryingBoth(rest: seq<Event>, u: System)
    requires IsRun(BothAt(Slot.Tried, 0, Sending), rest) && After(BothAt(Slot.Tried, 0, Sending), rest) == u
    ensures var s := BothAt(Slot.Written, 0, Sending);
            IsRun(s, [TryWait(0), TryWait(1)] + rest) && After(s, [TryWait(0), TryWait(1)] + rest) == u
  {
    TwoMore(BothAt(Slot.Written, 0, Sending), TryWait(0), TryWait(1), BothAt(Slot.Tried, 0, Sending), rest, u);
  }

  lemma WritingBoth(rest: seq<Event>, u: System)
    requires IsRun(BothAt(Slot.Written, 0, Sending), rest) && After(BothAt(Slot.Written, 0, Sending), rest) == u
    ensures var run := [Load(0, "a"), Load(1, "b")] + rest;
            IsRun(Start(2), run) && After(Start(2), run) == u
  {
    assert Start(2).slot.phase == [Slot.Idle, Slot.Idle] && Start(2).clients == [Ready, Ready];
    TwoMore(Start(2), Load(0, "a"), Load(1, "b"), BothAt(Slot.Written, 0, Sending), rest, u);
  }

  lemma Loading(rest: seq<Event>, u: System)
    requires IsRun(BothPosted(), rest) && After(BothPosted(), rest) == u
    ensures IsRun(Start(2), LoadingRun(rest)) && After(Start(2), LoadingRun(rest)) == u
  {
    PostingBoth(rest, u);
    TryingBoth([Post(0), Post(1)] + rest, u);
    WritingBoth([TryWait(0), TryWait(1)] + ([Post(0), Post(1)] + rest), u);
  }

  function OneCopied(): System {
    BothPosted().(slot := BothPosted().slot.(pending := false, sem := 1, dispatched := [Slot.Request(1, "b")]),
                  tasks := [Task(1, "", 0, 0, Opening)])
  }

  lemma CopyingFirst(rest: seq<Event>, u: System)
    requires IsRun(OneCopied(), rest) && After(OneCopied(), rest) == u
    ensures IsRun(BothPosted(), [Wait, Copy("")] + rest) && After(BothPosted(), [Wait, Copy("")] + rest) == u
  {
    TwoMore(BothPosted(), Wait, Copy(""), OneCopied(), rest, u);
  }

  lemma CopyingSecond(rest: seq<Event>, u: System)
    requires IsRun(BothCopied(), rest) && After(BothCopied(), rest) == u
    ensures IsRun(OneCopied(), [Wait, Copy("")] + rest) && After(OneCopied(), [Wait, Copy("")] + rest) == u
  {
    TwoMore(OneCopied(), Wait, Copy(""), BothCopied(), rest, u);
  }

  lemma Copying(rest: seq<Event>, u: System)
    requires IsRun(BothCopied(), rest) && After(BothCopied(), rest) == u
    ensures IsRun(BothPosted(), CopyingRun(rest)) && After(BothPosted(), CopyingRun(rest)) == u
  {
    CopyingSecond(rest, u);
    CopyingFirst([Wait, Copy("")] + rest, u);
  }

  lemma BothReleased()
    ensures var t := [Task(1, "", 0, 0, Opened), Task(1, "", 0, 0, Opened)];
            && Enabled(BothCopied(), Connect(1))
            && Next(BothCopied(), Connect(1)) ==
               BothCopied().(clients := [Waiting, Served(0)], tasks := t, fifos := [Channel(1, "", [0, 1], true)])
  {
    var tasks := BothCopied().tasks;
    assert Blocked(tasks, 1, 1) == [0] && Blocked(tasks, 1, 2) == [0, 1];
    assert Released(tasks, 1, 0) == [Task(1, "", 0, 0, Opened), Task(1, "", 0, 0, Opened)];
  }

  /** One of the two is queued. */
  function OneQueued(): System {
    BothQueued().(queue := [0], tasks := [Task(1, "", 0, 0, Running), Task(1, "", 0, 0, Opened)])
  }

  lemma LastAdd()
    ensures IsRun(OneQueued(), [Add(1)]) && After(OneQueued(), [Add(1)]) == BothQueued()
  {
    assert Next(OneQueued(), Add(1)) == BothQueued() && [Add(1)][1..] == [];
    assert IsRun(BothQueued(), []) && After(BothQueued(), []) == BothQueued();
  }

  lemma Sharing()
    ensures IsRun(BothCopied(), SharingRun()) && After(BothCopied(), SharingRun()) == BothQueued()
  {
    BothReleased();
    LastAdd();
    TwoMore(BothCopied(), Connect(1), Add(0), OneQueued(), [Add(1)], BothQueued());
  }

  /** Two clients load one after the other before the listener runs.  Both dispatches are the
      second client's, so its one open of its FIFO releases two workers: they share that FIFO, and
      the client has two queue entries.  The first client is stranded, waiting for its FIFO.  No
      command has printed anything. */
  lemma CollisionOrphansAndDuplicates()
    ensures IsRun(Start(2), CollidingRun())
    ensures var s := After(Start(2), CollidingRun());
            && s.fifos == [Channel(1, "", [0, 1], true)] && !OneEntryPerClient(s)
            && HasClient(s, 0, Waiting) && !NoOrphan(s) && Stranded(s, 0)
  {
    Sharing();
    Copying(SharingRun(), BothQueued());
    Loading(CopyingRun(SharingRun()), BothQueued());
    SharedAndStranded();
  }

  lemma SharedAndStranded()
    ensures !OneEntryPerClient(BothQueued()) && Stranded(BothQueued(), 0) && !NoOrphan(BothQueued())
  {
    var s := BothQueued();
    assert ClientOf(s, 0) == 1 && ClientOf(s, 1) == 1;
    assert s.clients[0].Waiting? && !s.slot.pending;
  }
}
