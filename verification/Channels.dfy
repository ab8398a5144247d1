/** Who has which FIFO open, in every run, however requests collide: what a client reads comes from
    its own tasks only, and exactly when its decoding loop comes to an end. */
module Channels {
  import opened Wire
  import opened LineSplit
  import opened Client
  import opened Lifecycle
  import opened Ownership
  import opened Search
  import TaskQueue

  predicate HasOpened(t: Task) {
    !t.stage.Opening?
  }

  /** Task `w` writes to FIFO `f`, which its own client has opened. */
  predicate IsWriter(s: System, w: nat, f: nat) {
    && w < |s.tasks| && f < |s.fifos|
    && HasOpened(s.tasks[w]) && s.tasks[w].fifo == f && s.tasks[w].client == s.fifos[f].reader
  }

  /** The writers of a FIFO are exactly the tasks that have opened it. */
  predicate WritersKnown(s: System) {
    && (forall w :: 0 <= w < |s.tasks| && HasOpened(s.tasks[w]) ==>
          s.tasks[w].fifo < |s.fifos| && w in s.fifos[s.tasks[w].fifo].writers)
    && (forall f, i :: 0 <= f < |s.fifos| && 0 <= i < |s.fifos[f].writers| ==> IsWriter(s, s.fifos[f].writers[i], f))
    && (forall f :: 0 <= f < |s.fifos| ==> s.fifos[f].writers != [])
  }

  /** A client reads a FIFO that it has opened itself. */
  predicate ReadersKnown(s: System) {
    forall c :: 0 <= c < |s.clients| && s.clients[c].Served? ==>
      s.clients[c].fifo < |s.fifos| && s.fifos[s.clients[c].fifo].reader == c
  }

  /** A FIFO's name leads to it only as long as its client reads it and nobody has closed it. */
  predicate LinksKnown(s: System) {
    forall f :: 0 <= f < |s.fifos| && s.fifos[f].linked ==>
      && HasClient(s, s.fifos[f].reader, Served(f))
      && forall w :: 0 <= w < |s.tasks| && IsWriter(s, w, f) ==> !Shut(s.tasks[w])
  }

  predicate Known(s: System) {
    WritersKnown(s) && ReadersKnown(s) && LinksKnown(s)
  }

  // ----- one lemma a step

  /** A step that leaves tasks and FIFOs alone, and the clients that are served. */
  lemma ClientsKeepKnown(s: System, t: System)
    requires Known(s) && t.tasks == s.tasks && t.fifos == s.fifos && |t.clients| == |s.clients|
    requires forall c :: 0 <= c < |s.clients| && (s.clients[c].Served? || t.clients[c].Served?) ==>
      t.clients[c] == s.clients[c]
    ensures Known(t)
  {
    assert forall w, f :: IsWriter(t, w, f) <==> IsWriter(s, w, f);
  }

  lemma CopyKeepsKnown(s: System, a: Event)
    requires Known(s) && Enabled(s, a) && a.Copy?
    ensures Known(Next(s, a))
  {
    var t := Next(s, a);
    assert forall w, f :: IsWriter(s, w, f) ==> IsWriter(t, w, f);
    forall f, w | 0 <= f < |t.fifos| && t.fifos[f].linked && 0 <= w < |t.tasks| && IsWriter(t, w, f)
      ensures !Shut(t.tasks[w])
    {
      assert IsWriter(s, w, f);
    }
  }

  lemma ConnectWriters(s: System, a: Event)
    requires WritersKnown(s) && Enabled(s, a) && a.Connect?
    ensures WritersKnown(Next(s, a))
  {
    var t, c, n := Next(s, a), a.client, |s.fifos|;
    var ws := Blocked(s.tasks, c, |s.tasks|);
    forall f, i | 0 <= f < |t.fifos| && 0 <= i < |t.fifos[f].writers|
      ensures IsWriter(t, t.fifos[f].writers[i], f)
    {
      if f < n {
        assert IsWriter(s, s.fifos[f].writers[i], f);
      } else {
        assert t.fifos[f].writers[i] in ws;
      }
    }
  }

  lemma ConnectLinks(s: System, a: Event)
    requires WritersKnown(s) && LinksKnown(s) && Enabled(s, a) && a.Connect?
    ensures LinksKnown(Next(s, a))
  {
    var t, c, n := Next(s, a), a.client, |s.fifos|;
    forall f | 0 <= f < |t.fifos| && t.fifos[f].linked
      ensures HasClient(t, t.fifos[f].reader, Served(f))
      ensures forall w :: 0 <= w < |t.tasks| && IsWriter(t, w, f) ==> !Shut(t.tasks[w])
    {
      if f < n {
        forall w | 0 <= w < |t.tasks| && IsWriter(t, w, f)
          ensures !Shut(t.tasks[w])
        {
          assert IsWriter(s, w, f);
        }
      }
    }
  }

  lemma ConnectKeepsKnown(s: System, a: Event)
    requires Known(s) && Enabled(s, a) && a.Connect?
    ensures Known(Next(s, a))
  {
    ConnectWriters(s, a);
    ConnectLinks(s, a);
  }

  lemma JoinWriters(s: System, a: Event)
    requires WritersKnown(s) && ReadersKnown(s) && Enabled(s, a) && a.Join?
    ensures WritersKnown(Next(s, a))
  {
    var t, w := Next(s, a), a.task;
    forall f, i | 0 <= f < |t.fifos| && 0 <= i < |t.fifos[f].writers|
      ensures IsWriter(t, t.fifos[f].writers[i], f)
    {
      if i < |s.fifos[f].writers| {
        assert IsWriter(s, s.fifos[f].writers[i], f);
      }
    }
  }

  lemma JoinKeepsKnown(s: System, a: Event)
    requires Known(s) && Enabled(s, a) && a.Join?
    ensures Known(Next(s, a))
  {
    JoinWriters(s, a);
    var t := Next(s, a);
    forall f, v | 0 <= f < |t.fifos| && t.fifos[f].linked && 0 <= v < |t.tasks| && IsWriter(t, v, f)
      ensures !Shut(t.tasks[v])
    {
      assert v != a.task ==> IsWriter(s, v, f);
    }
  }

  /** A task that has opened its FIFO goes on to `x`; if that shuts its end, the name goes. */
  lemma TaskKeepsKnown(s: System, t: System, w: nat, x: Task)
    requires Known(s) && w < |s.tasks| && HasOpened(s.tasks[w]) && t.tasks == s.tasks[w := x]
    requires t.clients == s.clients && |t.fifos| == |s.fifos|
    requires HasOpened(x) && x.client == s.tasks[w].client && x.fifo == s.tasks[w].fifo
    requires forall f :: 0 <= f < |s.fifos| ==>
      && t.fifos[f].reader == s.fifos[f].reader && t.fifos[f].writers == s.fifos[f].writers
      && (t.fifos[f].linked ==> s.fifos[f].linked && (f == x.fifo ==> !Shut(x)))
    ensures Known(t)
  {
    assert forall v, f :: IsWriter(t, v, f) <==> IsWriter(s, v, f);
  }

  lemma WorkerKeepsKnown(s: System, a: Event)
    requires Known(s) && Enabled(s, a) && (a.Add? || a.Send? || a.Remove? || a.Close?)
    ensures Known(Next(s, a))
  {
    TaskKeepsKnown(s, Next(s, a), a.task, Next(s, a).tasks[a.task]);
  }

  lemma FinishKeepsKnown(s: System, a: Event)
    requires Known(s) && Enabled(s, a) && a.Finish?
    ensures Known(Next(s, a))
  {
    LeavingKeepsKnown(s, Next(s, a), a.client, s.clients[a.client].fifo);
  }

  lemma LeavingKeepsKnown(s: System, t: System, c: nat, f: nat)
    requires Known(s) && HasClient(s, c, Served(f)) && f < |s.fifos| && t.tasks == s.tasks
    requires |t.clients| == |s.clients| && !t.clients[c].Served?
    requires forall b :: 0 <= b < |s.clients| && b != c ==> t.clients[b] == s.clients[b]
    requires t.fifos == s.fifos[f := s.fifos[f].(linked := false)]
    ensures Known(t)
  {
    assert forall v, g :: IsWriter(t, v, g) <==> IsWriter(s, v, g);
  }

  lemma CancelKeepsKnown(s: System, a: Event)
    requires Known(s) && Owned(s) && Enabled(s, a) && a.Cancel?
    ensures Known(Next(s, a))
  {
    var i := FirstIndex(QueuedIds(s), a.client);
    if i < |s.queue| && s.queue[i] < |s.tasks| {
      assert s.queue[i] in s.queue;
      TaskKeepsKnown(s, Next(s, a), s.queue[i], Next(s, a).tasks[s.queue[i]]);
    }
  }

  lemma KnownStep(s: System, a: Event)
    requires Known(s) && Owned(s) && Enabled(s, a)
    ensures Known(Next(s, a))
  {
    match a
    case Copy(_) => CopyKeepsKnown(s, a);
    case Connect(_) => ConnectKeepsKnown(s, a);
    case Join(_) => JoinKeepsKnown(s, a);
    case Add(_) => WorkerKeepsKnown(s, a);
    case Send(_, _) => WorkerKeepsKnown(s, a);
    case Remove(_) => WorkerKeepsKnown(s, a);
    case Close(_) => WorkerKeepsKnown(s, a);
    case Cancel(_, _) => CancelKeepsKnown(s, a);
    case Finish(_) => FinishKeepsKnown(s, a);
    case _ => ClientsKeepKnown(s, Next(s, a));
  }

  lemma {:induction false} KnownRun(s: System, run: seq<Event>)
    requires Known(s) && Owned(s) && IsRun(s, run)
    ensures Known(After(s, run)) && Owned(After(s, run))
    decreases |run|
  {
    if run != [] {
      KnownStep(s, run[0]);
      OwnedStep(s, run[0]);
      KnownRun(Next(s, run[0]), run[1..]);
    }
  }

  lemma StartKnown(clients: nat)
    ensures Known(Start(clients)) && Owned(Start(clients))
  {
    StartOwned(clients);
  }

  /** In every run of any number of clients: the writers of a FIFO are exactly the tasks that have
      opened it, all of them of the client that opened it to read; a client reads only such a FIFO;
      and a name leads to a FIFO only while its client reads it and no end has been closed. */
  lemma EveryRunKnowsItsFifos(clients: nat, run: seq<Event>)
    requires IsRun(Start(clients), run)
    ensures Known(After(Start(clients), run))
  {
    StartKnown(clients);
    KnownRun(Start(clients), run);
  }

  // ----- when a round can end

  /** A complete line at which the client stops is on the FIFO. */
  predicate HoldsStopper(stream: string) {
    exists i :: 0 <= i < |Lines(stream)| && Terminated(Lines(stream)[i]) && Stopper(Lines(stream)[i])
  }

  lemma AllShutIff(s: System, f: nat)
    requires WritersKnown(s) && f < |s.fifos|
    ensures AllShut(s, f) <==> forall w :: 0 <= w < |s.tasks| && IsWriter(s, w, f) ==> Shut(s.tasks[w])
  {
    if AllShut(s, f) {
      forall w | 0 <= w < |s.tasks| && IsWriter(s, w, f)
        ensures Shut(s.tasks[w])
      {
        var i :| 0 <= i < |s.fifos[f].writers| && s.fifos[f].writers[i] == w;
      }
    } else {
      var i :| 0 <= i < |s.fifos[f].writers| &&
               !(s.fifos[f].writers[i] < |s.tasks| && Shut(s.tasks[s.fifos[f].writers[i]]));
      assert IsWriter(s, s.fifos[f].writers[i], f);
    }
  }

  /** A client that is being served can end its round exactly when every task that has opened its
      FIFO has closed it again, or a complete stopper is on it. */
  lemma RoundCanEndIff(s: System, c: nat)
    requires Known(s) && c < |s.clients| && s.clients[c].Served?
    ensures var f := s.clients[c].fifo;
            && f < |s.fifos|
            && (Enabled(s, Finish(c)) <==>
                  (forall w :: 0 <= w < |s.tasks| && IsWriter(s, w, f) ==> Shut(s.tasks[w]))
                  || HoldsStopper(s.fifos[f].stream))
  {
    var f := s.clients[c].fifo;
    AllShutIff(s, f);
    var stream := s.fifos[f].stream;
    HaltsMeans(stream, AllShut(s, f));
    assert Enabled(s, Finish(c)) <==> Halts(stream, AllShut(s, f));
  }

  lemma HaltsMeans(stream: string, shut: bool)
    ensures Halts(stream, shut) <==> shut || HoldsStopper(stream)
  {
    if HoldsStopper(stream) {
      var i :| 0 <= i < |Lines(stream)| && Terminated(Lines(stream)[i]) && Stopper(Lines(stream)[i]);
      HaltsAtStopper(stream, i);
    }
    if !shut && Halts(stream, shut) {
      HaltsIff(stream);
      var i :| 0 <= i < |Lines(stream)| && Terminated(Lines(stream)[i]) && Stopper(Lines(stream)[i]);
      assert Stopper(Lines(stream)[i]);
    }
  }

  // ----- opening a FIFO

  /** A client's open lets every worker blocked on its FIFO go on, all to the same FIFO. */
  lemma OpenReleasesAll(s: System, c: nat)
    requires HasClient(s, c, Waiting)
    ensures Enabled(s, Connect(c)) <==> exists w :: 0 <= w < |s.tasks| && BlockedOn(s.tasks[w], c)
    ensures Enabled(s, Connect(c)) ==>
      var t := Next(s, Connect(c));
      && HasClient(t, c, Served(|s.fifos|))
      && forall w :: 0 <= w < |s.tasks| && BlockedOn(s.tasks[w], c) ==>
           t.tasks[w].stage.Opened? && IsWriter(t, w, |s.fifos|)
  {
    var ws := Blocked(s.tasks, c, |s.tasks|);
    if ws != [] {
      assert ws[0] in ws;
    }
    if w :| 0 <= w < |s.tasks| && BlockedOn(s.tasks[w], c) {
      assert w in ws;
    }
  }

  /** A worker that comes while its client reads a FIFO of that name shares the FIFO, and the client
      does not meet the end of the stream before the newcomer has closed, too. */
  lemma LateWorkerShares(s: System, w: nat, f: nat)
    requires Known(s) && HasTask(s, w, Opening) && HasClient(s, s.tasks[w].client, Served(f))
    requires f < |s.fifos| && s.fifos[f].linked
    ensures Enabled(s, Join(w))
    ensures var t := Next(s, Join(w));
            && HasTask(t, w, Opened) && IsWriter(t, w, f) && !AllShut(t, f)
            && t.fifos[f].stream == s.fifos[f].stream
  {
    var t := Next(s, Join(w));
    assert t.fifos[f].writers[|s.fifos[f].writers|] == w;
  }

  // ----- what a cancel does

  /** A cancel of the whole system, against the contract of the linked list's cancel on a queue of
      the same clients: the task found is cancelled with the option given, and the bytes that go to
      its FIFO are those of the one write among the effects of the list's cancel. */
  lemma CancelDoesTheEffects(s: System, c: nat, opt: int, ts: seq<TaskQueue.Task>, es: seq<TaskQueue.Effect>,
                             ts': seq<TaskQueue.Task>, es': seq<TaskQueue.Effect>)
    requires Owned(s) && Known(s) && ValidOption(opt) && TaskQueue.ClientIds(ts) == QueuedIds(s)
    requires TaskQueue.Cancelled(ts, es, c, opt, ts', es')
    ensures Enabled(s, Cancel(c, opt)) && es <= es'
    ensures TaskQueue.ClientIds(ts') == QueuedIds(Next(s, Cancel(c, opt)))
    ensures var k, t, sent := FirstIndex(QueuedIds(s), c), Next(s, Cancel(c, opt)), TaskQueue.Sent(es'[|es|..]);
            if k == |s.queue| then t == s && sent == []
            else
              var w := s.queue[k];
              && w < |s.tasks| && IsWriter(s, w, s.tasks[w].fifo) && |sent| == 1
              && t.tasks == s.tasks[w := s.tasks[w].(stage := Lifecycle.Cancelled(opt))]
              && sent[0].Send?
              && t.fifos[s.tasks[w].fifo].stream == s.fifos[s.tasks[w].fifo].stream + sent[0].bytes
              && !t.fifos[s.tasks[w].fifo].linked
              && t.removals == s.removals + [w] && t.closes == s.closes + [w]
  {
    var k := FirstIndex(QueuedIds(s), c);
    CancelAgrees(s, c, opt, ts, es, ts', es');
    if k < |s.queue| {
      assert s.queue[k] in s.queue;
      var done := TaskQueue.CancelEffects(ts[k].request, opt);
      TaskQueue.SentOfCancel(ts[k].request, opt);
      assert (es + done)[|es|..] == done;
    } else {
      assert es'[|es|..] == [];
    }
  }
}
