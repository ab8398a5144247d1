/** The whole system in motion: clients, the listener, the workers it starts, their FIFOs, the
    active-task queue and the console, one step at a time and in any order.  The slot protocol,
    the byte framing and the decoding loop are those of the modules it imports; a queue operation
    and a whole cancel are one step each. */
module Lifecycle {
  import opened Wire
  import opened LineSplit
  import opened Worker
  import opened Client
  import opened Framing
  import opened Search
  import Slot

  datatype Stage = Opening | Opened | Running | Removed | Closed | Cancelled(opt: int)

  /** One request being processed; `sent` bytes of its framed output are on FIFO number `fifo`,
      which means nothing before the task has opened it. */
  datatype Task = Task(client: nat, output: string, sent: nat, fifo: nat, stage: Stage)

  /** A FIFO from the open that made its reader and its writers meet: the client that opened it,
      the bytes written to it, the tasks that have opened it, and whether its name still leads to
      it. */
  datatype Channel = Channel(reader: nat, stream: string, writers: seq<nat>, linked: bool)

  datatype Session = Ready | Sending | Waiting | Served(fifo: nat) | Gone

  datatype System = System(
    slot: Slot.State,
    clients: seq<Session>,
    tasks: seq<Task>,          // in the order of their creation; a task is named by its index
    fifos: seq<Channel>,       // in the order of the clients' opens; named by index as well
    queue: seq<nat>,           // the active-task queue, head first
    removals: seq<nat>,        // tasks taken off the queue, in order
    closes: seq<nat>,          // server FIFO ends closed, in order
    broken: bool)              // something was written to a FIFO nobody was reading any more

  datatype Event =
    | Load(client: nat, text: string) | TryWait(client: nat) | Post(client: nat) | Quit(client: nat)
    | Wait | Copy(output: string)
    | Connect(client: nat) | Join(task: nat)
    | Add(task: nat) | Send(task: nat, upto: nat) | Remove(task: nat) | Close(task: nat)
    | Cancel(client: nat, opt: int)
    | Finish(client: nat)

  function Start(clients: nat): System {
    System(Slot.Start(clients), seq(clients, _ => Ready), [], [], [], [], [], false)
  }

  predicate Shut(t: Task) {
    t.stage.Closed? || t.stage.Cancelled?
  }

  // ----- FIFOs

  predicate BlockedOn(t: Task, client: nat) {
    t.stage.Opening? && t.client == client
  }

  /** The first `n` tasks' share of those blocked in their open of a client's FIFO. */
  function Blocked(tasks: seq<Task>, client: nat, n: nat): (ws: seq<nat>)
    requires n <= |tasks|
    ensures forall w: nat :: w in ws <==> w < n && BlockedOn(tasks[w], client)
  {
    if n == 0 then []
    else Blocked(tasks, client, n - 1) + if BlockedOn(tasks[n - 1], client) then [n - 1] else []
  }

  /** The client's open lets every one of them go on. */
  function Released(tasks: seq<Task>, client: nat, fifo: nat): (ts: seq<Task>)
    ensures |ts| == |tasks|
    ensures forall w :: 0 <= w < |ts| ==>
      ts[w] == if BlockedOn(tasks[w], client) then tasks[w].(stage := Opened, fifo := fifo) else tasks[w]
  {
    seq(|tasks|, w requires 0 <= w < |tasks| =>
      if BlockedOn(tasks[w], client) then tasks[w].(stage := Opened, fifo := fifo) else tasks[w])
  }

  function Written(fifos: seq<Channel>, f: nat, bytes: string): seq<Channel> {
    if f < |fifos| then fifos[f := fifos[f].(stream := fifos[f].stream + bytes)] else fifos
  }

  function Unlinked(fifos: seq<Channel>, f: nat): seq<Channel> {
    if f < |fifos| then fifos[f := fifos[f].(linked := false)] else fifos
  }

  /** Every writer has closed its end, so that the reader meets the end of the stream. */
  predicate AllShut(s: System, f: nat)
    requires f < |s.fifos|
  {
    forall i :: 0 <= i < |s.fifos[f].writers| ==>
      s.fifos[f].writers[i] < |s.tasks| && Shut(s.tasks[s.fifos[f].writers[i]])
  }

  /** The decoding loop leaves a FIFO at end of file, or at a complete line that ends it. */
  predicate Halts(s: string, shut: bool) {
    shut || (Received(s).stop != EndOfStream && 0 < Received(s).used <= |Lines(s)|
             && Terminated(Lines(s)[Received(s).used - 1]))
  }

  /** Nobody reads the FIFO of this task. */
  predicate Unread(s: System, w: nat)
    requires w < |s.tasks|
  {
    !HasClient(s, s.tasks[w].client, Served(s.tasks[w].fifo))
  }

  // ----- the queue

  function ClientOf(s: System, i: nat): nat {
    if i < |s.queue| && s.queue[i] < |s.tasks| then s.tasks[s.queue[i]].client else 0
  }

  function QueuedIds(s: System): (ids: seq<int>)
    ensures |ids| == |s.queue| && forall i :: 0 <= i < |ids| ==> ids[i] == ClientOf(s, i)
  {
    seq(|s.queue|, i requires 0 <= i < |s.queue| => ClientOf(s, i))
  }

  function Without(q: seq<nat>, w: nat): seq<nat> {
    if q == [] then [] else if q[0] == w then q[1..] else [q[0]] + Without(q[1..], w)
  }

  // ----- steps

  predicate HasTask(s: System, w: nat, stage: Stage) {
    w < |s.tasks| && s.tasks[w].stage == stage
  }

  predicate HasClient(s: System, c: nat, session: Session) {
    c < |s.clients| && s.clients[c] == session
  }

  predicate SlotStep(a: Event) {
    a.Load? || a.TryWait? || a.Post? || a.Wait? || a.Copy?
  }

  function ToSlot(a: Event): Slot.Step
    requires SlotStep(a)
  {
    match a
    case Load(c, text) => Slot.Write(c, text)
    case TryWait(c) => Slot.TryWait(c)
    case Post(c) => Slot.Post(c)
    case Wait => Slot.Wait
    case Copy(_) => Slot.Copy
  }

  predicate Enabled(s: System, a: Event) {
    && (SlotStep(a) ==> Slot.Enabled(s.slot, ToSlot(a)))
    && match a
       case Load(c, _) => HasClient(s, c, Ready)
       case TryWait(c) => true
       case Post(c) => HasClient(s, c, Sending)
       case Quit(c) => HasClient(s, c, Ready)
       case Wait => true
       case Copy(_) => true
       case Connect(c) => HasClient(s, c, Waiting) && Blocked(s.tasks, c, |s.tasks|) != []
       case Join(w) =>
         && HasTask(s, w, Opening) && s.tasks[w].client < |s.clients| && s.clients[s.tasks[w].client].Served?
         && s.clients[s.tasks[w].client].fifo < |s.fifos|
         && s.fifos[s.clients[s.tasks[w].client].fifo].linked
       case Add(w) => HasTask(s, w, Opened)
       case Send(w, upto) => HasTask(s, w, Running) && s.tasks[w].sent < upto <= |Encode(s.tasks[w].output)|
       case Remove(w) => HasTask(s, w, Running) && s.tasks[w].sent == |Encode(s.tasks[w].output)|
       case Close(w) => HasTask(s, w, Removed)
       case Cancel(_, opt) => ValidOption(opt)
       case Finish(c) =>
         && c < |s.clients| && s.clients[c].Served? && s.clients[c].fifo < |s.fifos|
         && Halts(s.fifos[s.clients[c].fifo].stream, AllShut(s, s.clients[c].fifo))
  }

  function Staged(s: System, w: nat, stage: Stage): seq<Task>
    requires w < |s.tasks|
  {
    s.tasks[w := s.tasks[w].(stage := stage)]
  }

  function Next(s: System, a: Event): System
    requires Enabled(s, a)
  {
    var t := if SlotStep(a) then s.(slot := Slot.Next(s.slot, ToSlot(a))) else s;
    match a
    case Load(c, _) => t.(clients := s.clients[c := Sending])
    case TryWait(_) => t
    case Post(c) => t.(clients := s.clients[c := Waiting])
    case Quit(c) => t.(clients := s.clients[c := Gone])
    case Wait => t
    case Copy(output) => t.(tasks := s.tasks + [Task(s.slot.slot.client, output, 0, 0, Opening)])
    case Connect(c) =>
      t.(clients := s.clients[c := Served(|s.fifos|)], tasks := Released(s.tasks, c, |s.fifos|),
         fifos := s.fifos + [Channel(c, "", Blocked(s.tasks, c, |s.tasks|), true)])
    case Join(w) =>
      var f := s.clients[s.tasks[w].client].fifo;
      t.(tasks := s.tasks[w := s.tasks[w].(stage := Opened, fifo := f)],
         fifos := s.fifos[f := s.fifos[f].(writers := s.fifos[f].writers + [w])])
    case Add(w) => t.(tasks := Staged(s, w, Running), queue := [w] + s.queue)
    case Send(w, upto) =>
      t.(tasks := s.tasks[w := s.tasks[w].(sent := upto)], broken := s.broken || Unread(s, w),
         fifos := Written(s.fifos, s.tasks[w].fifo, Encode(s.tasks[w].output)[s.tasks[w].sent..upto]))
    case Remove(w) => t.(tasks := Staged(s, w, Removed), queue := Without(s.queue, w), removals := s.removals + [w])
    case Close(w) =>
      t.(tasks := Staged(s, w, Closed), closes := s.closes + [w], fifos := Unlinked(s.fifos, s.tasks[w].fifo))
    case Cancel(c, opt) =>
      var i := FirstIndex(QueuedIds(s), c);
      if i < |s.queue| && s.queue[i] < |s.tasks| then
        var w := s.queue[i];
        t.(tasks := Staged(s, w, Cancelled(opt)), queue := Without(s.queue, w),
           removals := s.removals + [w], closes := s.closes + [w], broken := s.broken || Unread(s, w),
           fifos := Unlinked(Written(s.fifos, s.tasks[w].fifo, SendLine(opt)), s.tasks[w].fifo))
      else t
    case Finish(c) =>
      var f := s.clients[c].fifo;
      t.(clients := s.clients[c := if Received(s.fifos[f].stream).stop == OnShutdown(true) then Gone else Ready],
         fifos := Unlinked(s.fifos, f))
  }

  predicate IsRun(s: System, run: seq<Event>)
    decreases |run|
  {
    run == [] || (Enabled(s, run[0]) && IsRun(Next(s, run[0]), run[1..]))
  }

  function After(s: System, run: seq<Event>): System
    requires IsRun(s, run)
    decreases |run|
  {
    if run == [] then s else After(Next(s, run[0]), run[1..])
  }

  /** No request is written over one that waits to be copied. */
  predicate Serialised(s: System, run: seq<Event>)
    requires IsRun(s, run)
    decreases |run|
  {
    run == [] || ((run[0].Load? ==> !s.slot.pending) && Serialised(Next(s, run[0]), run[1..]))
  }

  /** What the slot sees of a run. */
  function SlotRun(run: seq<Event>): seq<Slot.Step> {
    if run == [] then [] else (if SlotStep(run[0]) then [ToSlot(run[0])] else []) + SlotRun(run[1..])
  }

  lemma SlotRunStep(run: seq<Event>)
    requires run != []
    ensures !SlotStep(run[0]) ==> SlotRun(run) == SlotRun(run[1..])
    ensures SlotStep(run[0]) ==>
      SlotRun(run) != [] && SlotRun(run)[0] == ToSlot(run[0]) && SlotRun(run)[1..] == SlotRun(run[1..])
  {
  }

  lemma SlotMoves(s: System, a: Event)
    requires Enabled(s, a)
    ensures Next(s, a).slot == if SlotStep(a) then Slot.Next(s.slot, ToSlot(a)) else s.slot
  {
  }

  /** Every run of the system is, at the slot, a run of the slot protocol. */
  lemma {:induction false} RunsTheSlot(s: System, run: seq<Event>)
    requires IsRun(s, run)
    ensures Slot.IsRun(s.slot, SlotRun(run)) && Slot.After(s.slot, SlotRun(run)) == After(s, run).slot
    ensures Serialised(s, run) <==> Slot.Serialised(s.slot, SlotRun(run))
    decreases |run|
  {
    if run != [] {
      RunsTheSlot(Next(s, run[0]), run[1..]);
      SlotRunStep(run);
      SlotMoves(s, run[0]);
    }
  }

  // ----- output that cannot end the client's loop early

  /** No complete line of the framed output is one at which the client stops. */
  predicate Clean(output: string) {
    forall i :: 0 <= i < |Lines(Encode(output))| && Terminated(Lines(Encode(output))[i]) ==>
      !Stopper(Lines(Encode(output))[i])
  }

  /** The guard of `Finish` in terms of lines. */
  lemma HaltsIff(s: string)
    ensures Halts(s, false) <==>
            exists i :: 0 <= i < |Lines(s)| && Terminated(Lines(s)[i]) && Stopper(Lines(s)[i])
  {
    if i :| 0 <= i < |Lines(s)| && Terminated(Lines(s)[i]) && Stopper(Lines(s)[i]) {
      HaltsAtStopper(s, i);
    }
    var r := Received(s);
    DecodeStopsAtFirstStopper(KeptAll(Lines(s), MAXLINE));
    if r.stop != EndOfStream {
      StopperUnderBuffer(Lines(s)[r.used - 1]);
    }
  }

  lemma HaltsAtStopper(s: string, i: nat)
    requires i < |Lines(s)| && Terminated(Lines(s)[i]) && Stopper(Lines(s)[i])
    ensures Halts(s, false)
  {
    var ls, r := Lines(s), Received(s);
    LinesPartition(s);
    DecodeStopsAtFirstStopper(KeptAll(ls, MAXLINE));
    StopperUnderBuffer(ls[i]);
    assert Stopper(KeptAll(ls, MAXLINE)[i]);
    assert r.used - 1 <= i;
    assert r.used - 1 < i ==> Terminated(ls[r.used - 1]);
  }

  /** While the FIFO is open, a client reading clean output does not leave it. */
  lemma CleanKeepsReading(output: string, sent: nat)
    requires Clean(output) && sent <= |Encode(output)|
    ensures !Halts(Encode(output)[..sent], false)
  {
    var p, s := Encode(output)[..sent], Encode(output);
    HaltsIff(p);
    forall i | 0 <= i < |Lines(p)| && Terminated(Lines(p)[i])
      ensures !Stopper(Lines(p)[i])
    {
      LinesOfPrefix(p, s, i);
    }
  }

  /** Output that is clean, or at least takes the client down with it: the first line at which
      the client stops is the shutdown sentinel. */
  predicate Gentle(output: string) {
    Clean(output) || Received(Encode(output)).stop == OnShutdown(true)
  }

  /** A client reads and prints of a prefix, if it leaves while the FIFO is open, what it would read
      and print of the whole. */
  lemma PrefixStopsAlike(p: string, s: string)
    requires p <= s && Halts(p, false)
    ensures Received(p) == Received(s)
  {
    var k := Received(p).used - 1;
    FirstStopper(p, k);
    LinesPartition(p);
    LinesOfPrefix(p, s, k);
    forall i | 0 <= i < k
      ensures Lines(s)[i] == Lines(p)[i] && !Stopper(Lines(s)[i])
    {
      LinesOfPrefix(p, s, i);
    }
    StopsAtFirst(s, k);
    StopsAtFirst(p, k);
    assert Lines(s)[..k] == Lines(p)[..k];
  }

  lemma FirstStopper(p: string, k: nat)
    requires Received(p).stop != EndOfStream && Received(p).used == k + 1
    ensures k < |Lines(p)| && Stopper(Lines(p)[k]) && forall i :: 0 <= i < k ==> !Stopper(Lines(p)[i])
  {
    var ls := Lines(p);
    DecodeStopsAtFirstStopper(KeptAll(ls, MAXLINE));
    StopperUnderBuffer(ls[k]);
    forall i | 0 <= i < k
      ensures !Stopper(ls[i])
    {
      StopperUnderBuffer(ls[i]);
      assert !Stopper(KeptAll(ls, MAXLINE)[i]);
    }
  }

  lemma StopsAtFirst(s: string, k: nat)
    requires k < |Lines(s)| && Stopper(Lines(s)[k]) && forall i :: 0 <= i < k ==> !Stopper(Lines(s)[i])
    ensures Received(s) == Reading(Printed(KeptAll(Lines(s)[..k], MAXLINE)), k + 1, StopFor(Lines(s)[k]))
  {
    var ls, r := Lines(s), Received(s);
    var ks := KeptAll(ls, MAXLINE);
    DecodeStopsAtFirstStopper(ks);
    StopperUnderBuffer(ls[k]);
    assert ks[k] == ls[k];
    StopperUnderBuffer(ls[r.used - 1]);
    assert r.used - 1 == k;
    DecodePrintsPassed(ks);
    assert ks[..k] == KeptAll(ls[..k], MAXLINE);
  }

  /** While the FIFO is open, a client reading gentle output leaves it only to shut down. */
  lemma GentleLeaving(output: string, sent: nat)
    requires Gentle(output) && sent <= |Encode(output)|
    requires Halts(Encode(output)[..sent], false)
    ensures !Clean(output) && Received(Encode(output)[..sent]).stop == OnShutdown(true)
  {
    if Clean(output) {
      CleanKeepsReading(output, sent);
    } else {
      PrefixStopsAlike(Encode(output)[..sent], Encode(output));
    }
  }
}
