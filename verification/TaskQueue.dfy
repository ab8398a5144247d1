/** The server's active-task queue: a hand-linked list of heap nodes, and the console operations
    that cancel its entries. */
module TaskQueue {
  import opened Search
  import opened Wire

  datatype Option<T> = None | Some(value: T)

  /** The request record a worker hands over when it joins the queue. */
  datatype Request = Request(clientId: int, textlen: nat, text: string, fifoName: string, fifoFd: int, tid: int)

  /** What cancelling does outside the queue, in order. */
  datatype Effect =
    | Kill(tid: int) | Join(tid: int) | Send(fd: int, bytes: string) | Close(fd: int) | Unlink(name: string)

  class Task {
    const request: Request
    var next: Task?
    var prev: Task?

    constructor (request: Request)
      ensures this.request == request && next == null && prev == null
    {
      this.request := request;
      next, prev := null, null;
    }
  }

  /** The effects of cancelling one task. */
  function CancelEffects(r: Request, opt: int): seq<Effect>
    requires ValidOption(opt)
  {
    [Kill(r.tid), Join(r.tid), Send(r.fifoFd, SendLine(opt)), Close(r.fifoFd), Unlink(r.fifoName)]
  }

  /** One cancellation after another. */
  datatype Cancellation = Cancellation(task: Task, opt: int)

  predicate ValidOptions(cs: seq<Cancellation>) {
    forall i :: 0 <= i < |cs| ==> ValidOption(cs[i].opt)
  }

  function AllEffects(cs: seq<Cancellation>): seq<Effect>
    requires ValidOptions(cs)
  {
    if cs == [] then []
    else AllEffects(cs[..|cs| - 1]) + CancelEffects(cs[|cs| - 1].task.request, cs[|cs| - 1].opt)
  }

  function TasksOf(cs: seq<Cancellation>): seq<Task> {
    seq(|cs|, i requires 0 <= i < |cs| => cs[i].task)
  }

  lemma OneMore(cs: seq<Cancellation>, c: Cancellation)
    requires ValidOptions(cs) && ValidOption(c.opt)
    ensures ValidOptions(cs + [c])
    ensures AllEffects(cs + [c]) == AllEffects(cs) + CancelEffects(c.task.request, c.opt)
    ensures TasksOf(cs + [c]) == TasksOf(cs) + [c.task]
  {
    assert (cs + [c])[..|cs|] == cs;
  }

  function ClientIds(ts: seq<Task>): (ids: seq<int>)
    ensures |ids| == |ts|
    ensures forall i :: 0 <= i < |ts| ==> ids[i] == ts[i].request.clientId
  {
    seq(|ts|, i requires 0 <= i < |ts| => ts[i].request.clientId)
  }

  /** The index of the first task of a client, or the length of the queue. */
  function FirstOf(ts: seq<Task>, clientId: int): (k: nat)
    ensures k <= |ts|
    ensures forall i :: 0 <= i < k ==> ts[i].request.clientId != clientId
    ensures k < |ts| ==> ts[k].request.clientId == clientId
  {
    var ids := ClientIds(ts);
    var k := FirstIndex(ids, clientId);
    assert forall i :: 0 <= i < k ==> ids[i] == ts[i].request.clientId;
    k
  }

  lemma ClientIdsCut(ts: seq<Task>, k: nat)
    requires k < |ts|
    ensures ClientIds(CutOut(ts, k)) == CutOut(ClientIds(ts), k)
  {
  }

  lemma CutOutOne(ts: seq<Task>, k: nat)
    requires k < |ts|
    ensures multiset(ts) == multiset(CutOut(ts, k)) + multiset{ts[k]}
  {
    assert ts == ts[..k] + [ts[k]] + ts[k + 1..];
  }

  datatype QueueState = QueueState(tasks: seq<Task>, effects: seq<Effect>)

  /** Cancelling a client's first task, if it has one. */
  function AfterCancel(q: QueueState, clientId: int, opt: int): QueueState
    requires ValidOption(opt)
  {
    var k := FirstOf(q.tasks, clientId);
    if k == |q.tasks| then q
    else QueueState(CutOut(q.tasks, k), q.effects + CancelEffects(q.tasks[k].request, opt))
  }

  predicate Distinct(ts: seq<Task>) {
    forall i, j :: 0 <= i < j < |ts| ==> ts[i] != ts[j]
  }

  /** From queue `ts` and effects `es`, cancelling a client's first task leads to `ts'` and `es'`. */
  ghost predicate Cancelled(ts: seq<Task>, es: seq<Effect>, clientId: int, opt: int,
                            ts': seq<Task>, es': seq<Effect>)
  {
    if ValidOption(opt) then QueueState(ts', es') == AfterCancel(QueueState(ts, es), clientId, opt)
    else
      var k := FirstOf(ts, clientId);
      ts' == ts && es' == es + if k < |ts| then [Kill(ts[k].request.tid), Join(ts[k].request.tid)] else []
  }

  lemma CancelledFirst(ts: seq<Task>, es: seq<Effect>, clientId: int, opt: int, ts': seq<Task>, es': seq<Effect>)
    requires Distinct(ts) && FirstOf(ts, clientId) < |ts| && ValidOption(opt)
    requires var node := ts[FirstOf(ts, clientId)];
      && (exists j :: 0 <= j < |ts| && ts[j] == node && ts' == CutOut(ts, j))
      && es' == es + [Kill(node.request.tid), Join(node.request.tid)] +
                [Send(node.request.fifoFd, SendLine(opt)), Close(node.request.fifoFd), Unlink(node.request.fifoName)]
    ensures Cancelled(ts, es, clientId, opt, ts', es')
  {
  }

  ghost function At(ts: seq<Task>, k: nat): Task? {
    if k < |ts| then ts[k] else null
  }

  ghost predicate AllIn(a: seq<Task>, b: seq<Task>) {
    forall i :: 0 <= i < |a| ==> a[i] in b
  }

  /** The commands of the server console, already parsed. */
  datatype Console = Exit | ShutdownAll | ListTasks | CancelOne(clientId: int) | ShutdownOne(clientId: int) | Other

  class Queue {
    var head: Task?
    var effects: seq<Effect>
    ghost var tasks: seq<Task>

    /** The list from `head` is `tasks`.  Nothing is said of the head's own `prev`: the code does
        not keep it, and no operation looks at it. */
    ghost predicate Valid()
      reads this, tasks
    {
      && head == (if tasks == [] then null else tasks[0])
      && Distinct(tasks)
      && (forall i {:trigger tasks[i].next} :: 0 <= i < |tasks| - 1 ==> tasks[i].next == tasks[i + 1])
      && (tasks != [] ==> tasks[|tasks| - 1].next == null)
      && (forall i {:trigger tasks[i].prev} :: 1 <= i < |tasks| ==> tasks[i].prev == tasks[i - 1])
    }

    constructor ()
      ensures Valid() && tasks == [] && effects == []
    {
      head, effects, tasks := null, [], [];
    }

    method Add(cli: Option<Request>) returns (node: Task?)
      requires Valid()
      modifies this`head, this`tasks, tasks
      ensures Valid()
      ensures cli.None? ==> node == null && tasks == old(tasks)
      ensures cli.Some? ==> node != null && fresh(node) && node.request == cli.value
      ensures cli.Some? ==> tasks == [node] + old(tasks)
    {
      if cli.None? {
        return null;
      }
      var made := new Task(cli.value);
      if head != null {
        head.prev := made;
        made.next := head;
        head := made;
      } else {
        head := made;
      }
      tasks := [made] + tasks;
      return made;
    }

    method Find(clientId: int) returns (node: Task?)
      requires Valid()
      ensures var k := FirstOf(tasks, clientId);
              node == if k < |tasks| then tasks[k] else null
    {
      node := head;
      ghost var k := 0;
      while node != null
        invariant k <= |tasks|
        invariant node == if k < |tasks| then tasks[k] else null
        invariant forall i :: 0 <= i < k ==> tasks[i].request.clientId != clientId
        decreases |tasks| - k
      {
        if node.request.clientId == clientId {
          return node;
        }
        node := node.next;
        k := k + 1;
      }
    }

    /** Unlink one member.  When it is the head its own `prev` is cleared, not its successor's, so
        the new head keeps pointing at the node that is gone. */
    method Remove(node: Task?) returns (removed: bool)
      requires Valid()
      requires node != null ==> node in tasks
      modifies this`head, this`tasks, tasks
      ensures Valid()
      ensures removed <==> node != null
      ensures node == null ==> tasks == old(tasks)
      ensures node != null ==>
        exists k :: 0 <= k < |old(tasks)| && old(tasks)[k] == node && tasks == CutOut(old(tasks), k)
      ensures node != null ==> node.next == old(node.next)
      ensures node != null && node == old(head) && head != null ==>
        node.prev == null && head.prev == old(head.next.prev)
    {
      removed := false;
      if node != null {
        ghost var k :| 0 <= k < |tasks| && tasks[k] == node;
        if node == head {
          UnlinkHead(node);
        } else {
          UnlinkInner(node, k);
        }
        removed := true;
      }
    }

    method UnlinkHead(node: Task)
      requires Valid() && tasks != [] && node == head
      modifies this`head, this`tasks, tasks
      ensures Valid() && tasks == CutOut(old(tasks), 0)
      ensures node.next == old(node.next)
      ensures head != null ==> node.prev == null && head.prev == old(head.next.prev)
    {
      head := node.next;
      if node.next != null {
        node.prev := null;
      }
      tasks := CutOut(tasks, 0);
    }

    method UnlinkInner(node: Task, ghost k: nat)
      requires Valid() && 0 < k < |tasks| && node == tasks[k]
      modifies tasks, this`tasks
      ensures Valid() && tasks == CutOut(old(tasks), k)
      ensures node.next == old(node.next)
    {
      assert node.prev == tasks[k - 1];
      node.prev.next := node.next;
      if node.next != null {
        assert node.next == tasks[k + 1];
        node.next.prev := node.prev;
      }
      tasks := CutOut(tasks, k);
    }

    /** Cancel the first active task of a client.  With an option it does not know, the task is
        killed but stays in the queue. */
    method CancelClient(clientId: int, opt: int)
      requires Valid()
      modifies this, tasks
      ensures Valid()
      ensures Cancelled(old(tasks), old(effects), clientId, opt, tasks, effects)
    {
      var node := Find(clientId);
      if node == null {
        return;
      }
      ghost var ts, es := tasks, effects;
      effects := effects + [Kill(node.request.tid), Join(node.request.tid)];
      var line: string;
      if opt == OPT_INTERRUPT {
        line := SEND_INTERRUPT;
      } else if opt == OPT_SHUTDOWN {
        line := SEND_SHUTDOWN;
      } else {
        return;
      }
      HangUp(node, line);
      CancelledFirst(ts, es, clientId, opt, tasks, effects);
    }

    /** Send the line, close and unlink the FIFO, and forget the task. */
    method HangUp(node: Task, line: string)
      requires Valid() && node in tasks
      modifies this, tasks
      ensures Valid()
      ensures effects == old(effects) +
              [Send(node.request.fifoFd, line), Close(node.request.fifoFd), Unlink(node.request.fifoName)]
      ensures exists k :: 0 <= k < |old(tasks)| && old(tasks)[k] == node && tasks == CutOut(old(tasks), k)
    {
      effects := effects + [Send(node.request.fifoFd, line), Close(node.request.fifoFd), Unlink(node.request.fifoName)];
      var _ := Remove(node);
    }

    /** Cancel every active task.  Each step looks its task up again by client id; the task found
        is always the head, so ids that repeat do no harm.  (The successor is read before the
        node is freed.) */
    method CancelAll(opt: int)
      requires Valid()
      modifies this, tasks
      ensures Valid()
      ensures ValidOption(opt) ==>
        tasks == [] && effects == old(effects) + AllEffects(CancellationsOf(old(tasks), opt))
      ensures !ValidOption(opt) ==>
        tasks == old(tasks) && effects == old(effects) + DrainEffects(old(tasks), |old(tasks)|, opt)
    {
      var curr := head;
      ghost var all, k, before := tasks, 0, effects;
      while curr != null
        invariant Valid() && Drained(all, k, opt, tasks, before, effects)
        invariant curr == At(all, k)
        invariant AllIn(tasks, all)
        decreases |all| - k
      {
        curr := CancelAndAdvance(curr, opt, all, k, before);
        k := k + 1;
      }
      DrainedAll(all, k, opt, tasks, before, effects);
    }

    /** One round of the loop; `all` and `k` say where in the initial queue it stands. */
    method CancelAndAdvance(curr: Task, opt: int, ghost all: seq<Task>, ghost k: nat, ghost before: seq<Effect>)
      returns (after: Task?)
      requires Valid() && Drained(all, k, opt, tasks, before, effects)
      requires k < |all| && curr == all[k]
      modifies this, tasks
      ensures Valid() && Drained(all, k + 1, opt, tasks, before, effects)
      ensures after == At(all, k + 1)
      ensures AllIn(tasks, all)
    {
      ghost var ts, es := tasks, effects;
      NextOf(all, k, opt);
      after := curr.next;
      CancelClient(curr.request.clientId, opt);
      DrainedOneMore(all, k, opt, ts, before, es, tasks, effects);
    }

    /** The successor of the k-th of the initial tasks is the next of them. */
    lemma NextOf(all: seq<Task>, k: nat, opt: int)
      requires Valid() && k < |all| && tasks == if ValidOption(opt) then all[k..] else all
      ensures all[k].next == At(all, k + 1)
    {
      assert ValidOption(opt) ==> all[k] == tasks[0] && (k + 1 < |all| ==> all[k + 1] == tasks[1]);
    }

    /** The console: commands up to the first that stops the server, and then everything that is
        still active.  The cancellations made, and the queue and effects between commands, are
        returned as ghosts. */
    method RunConsole(commands: seq<Console>)
      returns (stopped: bool, ghost cs: seq<Cancellation>, ghost states: seq<QueueState>)
      requires Valid()
      modifies this, tasks
      ensures Valid()
      ensures QueueState(tasks, effects) == AfterConsole(QueueState(old(tasks), old(effects)), commands)
      ensures stopped <==> exists i :: 0 <= i < |commands| && Stops(commands[i])
      ensures stopped ==> tasks == []
      ensures Recorded(old(tasks), old(effects), cs, tasks, effects)
      ensures IsSession(states, commands) && states[0] == QueueState(old(tasks), old(effects))
      ensures states[|states| - 1] == QueueState(tasks, effects)
    {
      ghost var q := QueueState(tasks, effects);
      var option: int;
      stopped, option := RunCommands(commands);
      if stopped {
        CancelAll(option);
      }
      cs := ConsoleConserves(q, commands);
      states := SessionOf(q, commands);
    }

    /** The loop: `option` is for the tasks left when a command has stopped the server. */
    method RunCommands(commands: seq<Console>) returns (stopped: bool, option: int)
      requires Valid()
      modifies this, tasks
      ensures Valid() && ValidOption(option) && AllIn(tasks, old(tasks))
      ensures stopped <==> exists i :: 0 <= i < |commands| && Stops(commands[i])
      ensures AfterConsole(QueueState(old(tasks), old(effects)), commands) ==
              if stopped then Drain(QueueState(tasks, effects), option) else QueueState(tasks, effects)
    {
      stopped := false;
      ghost var q := QueueState(tasks, effects);
      option := OPT_INTERRUPT;
      var i := 0;
      while i < |commands| && !stopped
        invariant i <= |commands| && Valid() && ValidOption(option)
        invariant AllIn(tasks, q.tasks)
        invariant stopped ==> i > 0 && Stops(commands[i - 1])
        invariant !stopped ==> forall j :: 0 <= j < i ==> !Stops(commands[j])
        invariant AfterConsole(q, commands) ==
                  if stopped then Drain(QueueState(tasks, effects), option)
                  else AfterConsole(QueueState(tasks, effects), commands[i..])
      {
        ghost var rest := commands[i..];
        assert rest[0] == commands[i] && rest[1..] == commands[i + 1..];
        if commands[i] == Exit {
          stopped, option := true, OPT_INTERRUPT;
        } else if commands[i] == ShutdownAll {
          stopped, option := true, OPT_SHUTDOWN;
        } else {
          Obey(commands[i], q.tasks);
        }
        i := i + 1;
      }
    }

    /** A command that does not stop the server, on a queue that began as `ts`. */
    method Obey(c: Console, ghost ts: seq<Task>)
      requires Valid() && !Stops(c) && AllIn(tasks, ts)
      modifies this, tasks
      ensures Valid() && AllIn(tasks, ts) && AllIn(tasks, old(tasks))
      ensures QueueState(tasks, effects) == AfterCommand(QueueState(old(tasks), old(effects)), c)
    {
      match c {
        case CancelOne(id) =>
          if id != 0 {
            CancelFrom(id, OPT_INTERRUPT, ts);
          }
        case ShutdownOne(id) =>
          if id != 0 {
            CancelFrom(id, OPT_SHUTDOWN, ts);
          }
        case _ =>
      }
    }

    /** `CancelClient` on a queue that began as `ts`. */
    method CancelFrom(clientId: int, opt: int, ghost ts: seq<Task>)
      requires Valid() && ValidOption(opt) && AllIn(tasks, ts)
      modifies this, tasks
      ensures Valid() && AllIn(tasks, ts)
      ensures AllIn(tasks, old(tasks))
      ensures QueueState(tasks, effects) == AfterCancel(QueueState(old(tasks), old(effects)), clientId, opt)
    {
      CancelClient(clientId, opt);
    }
  }

  predicate Stops(c: Console) {
    c.Exit? || c.ShutdownAll?
  }

  // ----- what a console session means

  /** Cancelling everything, in list order. */
  function Drain(q: QueueState, opt: int): QueueState
    requires ValidOption(opt)
  {
    QueueState([], q.effects + AllEffects(CancellationsOf(q.tasks, opt)))
  }

  /** A command that does not stop the server: "cancel" interrupts and "shutdown" shuts down one
      client, unless the id is 0. */
  function AfterCommand(q: QueueState, c: Console): QueueState
    requires !Stops(c)
  {
    match c
    case CancelOne(id) => if id == 0 then q else AfterCancel(q, id, OPT_INTERRUPT)
    case ShutdownOne(id) => if id == 0 then q else AfterCancel(q, id, OPT_SHUTDOWN)
    case _ => q
  }

  /** What becomes of the tasks that are left when a command stops the server. */
  function StopOption(c: Console): (opt: int)
    requires Stops(c)
    ensures ValidOption(opt)
  {
    if c.Exit? then OPT_INTERRUPT else OPT_SHUTDOWN
  }

  /** A whole session: its commands in turn, up to the first that stops the server; that one then
      cancels whatever is left. */
  function AfterConsole(q: QueueState, commands: seq<Console>): QueueState
    decreases |commands|
  {
    if commands == [] then q
    else if Stops(commands[0]) then Drain(q, StopOption(commands[0]))
    else AfterConsole(AfterCommand(q, commands[0]), commands[1..])
  }

  /** What is written to the FIFOs, in order. */
  function Sent(es: seq<Effect>): seq<Effect> {
    if es == [] then [] else Sent(es[..|es| - 1]) + if es[|es| - 1].Send? then [es[|es| - 1]] else []
  }

  /** One line to each of the tasks, in list order. */
  function ToEach(ts: seq<Task>, line: string): seq<Effect> {
    seq(|ts|, i requires 0 <= i < |ts| => Send(ts[i].request.fifoFd, line))
  }

  /** From `q` to `r`: nothing is left queued, and what has been written meanwhile is one line to
      each task that was. */
  ghost predicate Emptied(q: QueueState, r: QueueState, line: string) {
    r.tasks == [] && q.effects <= r.effects && Sent(r.effects[|q.effects|..]) == ToEach(q.tasks, line)
  }

  /** What each console command does to the queue. */
  ghost predicate Follows(q: QueueState, c: Console, r: QueueState) {
    match c
    case CancelOne(id) =>
      if id == 0 then r == q else Cancelled(q.tasks, q.effects, id, OPT_INTERRUPT, r.tasks, r.effects)
    case ShutdownOne(id) =>
      if id == 0 then r == q else Cancelled(q.tasks, q.effects, id, OPT_SHUTDOWN, r.tasks, r.effects)
    case Exit => Emptied(q, r, SEND_INTERRUPT)
    case ShutdownAll => Emptied(q, r, SEND_SHUTDOWN)
    case ListTasks => r == q
    case Other => r == q
  }

  /** The states of a console session: one command after another, up to the first that stops the
      server, or to the last. */
  ghost predicate IsSession(states: seq<QueueState>, commands: seq<Console>) {
    && 0 < |states| <= |commands| + 1
    && (forall i :: 0 <= i < |states| - 1 ==> Follows(states[i], commands[i], states[i + 1]))
    && (forall i :: 0 <= i < |states| - 2 ==> !Stops(commands[i]))
    && (|states| <= |commands| ==> |states| > 1 && Stops(commands[|states| - 2]))
  }

  lemma {:induction false} SessionOf(q: QueueState, commands: seq<Console>) returns (states: seq<QueueState>)
    ensures IsSession(states, commands) && states[0] == q
    ensures states[|states| - 1] == AfterConsole(q, commands)
    decreases |commands|
  {
    if commands == [] {
      states := [q];
    } else if Stops(commands[0]) {
      states := [q, Drain(q, StopOption(commands[0]))];
      DrainEmpties(q, StopOption(commands[0]));
    } else {
      var rest := SessionOf(AfterCommand(q, commands[0]), commands[1..]);
      states := [q] + rest;
      assert forall i :: 0 < i < |states| ==> states[i] == rest[i - 1];
      assert forall i :: 0 < i < |commands| ==> commands[i] == commands[1..][i - 1];
    }
  }

  lemma DrainEmpties(q: QueueState, opt: int)
    requires ValidOption(opt)
    ensures Emptied(q, Drain(q, opt), if opt == OPT_INTERRUPT then SEND_INTERRUPT else SEND_SHUTDOWN)
  {
    SentOfAll(q.tasks, opt);
    var es := AllEffects(CancellationsOf(q.tasks, opt));
    assert (q.effects + es)[|q.effects|..] == es;
  }

  lemma {:induction false} SentAppend(a: seq<Effect>, b: seq<Effect>)
    ensures Sent(a + b) == Sent(a) + Sent(b)
  {
    if b == [] {
      assert a + b == a;
    } else {
      assert (a + b)[..|a + b| - 1] == a + b[..|b| - 1];
      SentAppend(a, b[..|b| - 1]);
    }
  }

  lemma SentOfCancel(r: Request, opt: int)
    requires ValidOption(opt)
    ensures Sent(CancelEffects(r, opt)) ==
            [Send(r.fifoFd, if opt == OPT_INTERRUPT then SEND_INTERRUPT else SEND_SHUTDOWN)]
  {
    var kill, join, send := Kill(r.tid), Join(r.tid), Send(r.fifoFd, SendLine(opt));
    var close, unlink := Close(r.fifoFd), Unlink(r.fifoName);
    SentOneMore([], kill);
    SentOneMore([] + [kill], join);
    SentOneMore([] + [kill] + [join], send);
    SentOneMore([] + [kill] + [join] + [send], close);
    SentOneMore([] + [kill] + [join] + [send] + [close], unlink);
    assert CancelEffects(r, opt) == [] + [kill] + [join] + [send] + [close] + [unlink];
  }

  lemma SentOneMore(es: seq<Effect>, e: Effect)
    ensures Sent(es + [e]) == Sent(es) + if e.Send? then [e] else []
  {
    assert (es + [e])[..|es|] == es;
  }

  lemma ToEachOneMore(ts: seq<Task>, t: Task, line: string)
    ensures ToEach(ts + [t], line) == ToEach(ts, line) + [Send(t.request.fifoFd, line)]
  {
  }

  lemma {:induction false} SentOfAll(ts: seq<Task>, opt: int)
    requires ValidOption(opt)
    ensures Sent(AllEffects(CancellationsOf(ts, opt))) ==
            ToEach(ts, if opt == OPT_INTERRUPT then SEND_INTERRUPT else SEND_SHUTDOWN)
  {
    if ts != [] {
      var front, t := ts[..|ts| - 1], ts[|ts| - 1];
      var cs := CancellationsOf(front, opt);
      var line := if opt == OPT_INTERRUPT then SEND_INTERRUPT else SEND_SHUTDOWN;
      SentOfAll(front, opt);
      OneMore(cs, Cancellation(t, opt));
      assert CancellationsOf(ts, opt) == cs + [Cancellation(t, opt)];
      SentAppend(AllEffects(cs), CancelEffects(t.request, opt));
      SentOfCancel(t.request, opt);
      ToEachOneMore(front, t, line);
      assert ts == front + [t];
    }
  }

  /** Over any session every entry is either still queued or was cancelled, exactly once. */
  lemma ConsoleConserves(q: QueueState, commands: seq<Console>) returns (cs: seq<Cancellation>)
    ensures var r := AfterConsole(q, commands);
            Recorded(q.tasks, q.effects, cs, r.tasks, r.effects)
  {
    cs := ConsoleConservesFrom(q, [], q, commands);
  }

  lemma {:induction false} ConsoleConservesFrom(q0: QueueState, before: seq<Cancellation>, q: QueueState,
                                                commands: seq<Console>)
    returns (cs: seq<Cancellation>)
    requires Recorded(q0.tasks, q0.effects, before, q.tasks, q.effects)
    ensures var r := AfterConsole(q, commands);
            Recorded(q0.tasks, q0.effects, cs, r.tasks, r.effects)
    decreases |commands|
  {
    if commands == [] {
      cs := before;
    } else if Stops(commands[0]) {
      cs := RecordedRest(q0.tasks, q0.effects, before, q.tasks, q.effects, StopOption(commands[0]));
    } else {
      var made := CommandConserves(q0, before, q, commands[0]);
      cs := ConsoleConservesFrom(q0, made, AfterCommand(q, commands[0]), commands[1..]);
    }
  }

  lemma CommandConserves(q0: QueueState, before: seq<Cancellation>, q: QueueState, c: Console)
    returns (cs: seq<Cancellation>)
    requires !Stops(c) && Recorded(q0.tasks, q0.effects, before, q.tasks, q.effects)
    ensures var r := AfterCommand(q, c);
            Recorded(q0.tasks, q0.effects, cs, r.tasks, r.effects)
  {
    if c.CancelOne? && c.clientId != 0 {
      cs := RecordedOneMore(q0, before, q, c.clientId, OPT_INTERRUPT);
    } else if c.ShutdownOne? && c.clientId != 0 {
      cs := RecordedOneMore(q0, before, q, c.clientId, OPT_SHUTDOWN);
    } else {
      cs := before;
    }
  }

  /** From queue `ts0` and effects `es0`, exactly the cancellations `cs` have led to `ts` and `es`:
      every task of `ts0` is either still queued or cancelled, once. */
  ghost predicate Recorded(ts0: seq<Task>, es0: seq<Effect>, cs: seq<Cancellation>, ts: seq<Task>, es: seq<Effect>) {
    && ValidOptions(cs)
    && es == es0 + AllEffects(cs)
    && multiset(ts0) == multiset(ts) + multiset(TasksOf(cs))
    && AllIn(ts, ts0)
  }

  lemma RecordedOneMore(q0: QueueState, before: seq<Cancellation>, q: QueueState, clientId: int, opt: int)
    returns (cs: seq<Cancellation>)
    requires ValidOption(opt) && Recorded(q0.tasks, q0.effects, before, q.tasks, q.effects)
    ensures var r := AfterCancel(q, clientId, opt);
            Recorded(q0.tasks, q0.effects, cs, r.tasks, r.effects)
  {
    var k := FirstOf(q.tasks, clientId);
    cs := before;
    if k < |q.tasks| {
      var c := Cancellation(q.tasks[k], opt);
      cs := before + [c];
      OneMore(before, c);
      MoveOne(q0.tasks, TasksOf(before), q.tasks, k);
      AppendEffects(q0.effects, AllEffects(before), CancelEffects(c.task.request, opt));
    }
  }

  lemma AppendEffects(a: seq<Effect>, b: seq<Effect>, c: seq<Effect>)
    ensures a + b + c == a + (b + c)
  {
  }

  /** One task goes over from the queue to those cancelled. */
  lemma MoveOne(all: seq<Task>, gone: seq<Task>, ts: seq<Task>, k: nat)
    requires k < |ts| && multiset(all) == multiset(ts) + multiset(gone) && AllIn(ts, all)
    ensures multiset(all) == multiset(CutOut(ts, k)) + multiset(gone + [ts[k]])
    ensures AllIn(CutOut(ts, k), all)
  {
    CutOutOne(ts, k);
    assert multiset(gone + [ts[k]]) == multiset(gone) + multiset{ts[k]};
  }

  lemma RecordedRest(ts0: seq<Task>, es0: seq<Effect>, before: seq<Cancellation>, ts: seq<Task>, es: seq<Effect>,
                     opt: int)
    returns (cs: seq<Cancellation>)
    requires ValidOption(opt) && Recorded(ts0, es0, before, ts, es)
    ensures Recorded(ts0, es0, cs, [], es + AllEffects(CancellationsOf(ts, opt)))
  {
    var rest := CancellationsOf(ts, opt);
    cs := before + rest;
    AllEffectsAppend(before, rest);
    AppendEffects(es0, AllEffects(before), AllEffects(rest));
    TasksOfAll(before, ts, opt);
  }

  /** Cancelling a list of tasks in order. */
  function CancellationsOf(ts: seq<Task>, opt: int): (cs: seq<Cancellation>)
    ensures |cs| == |ts|
    ensures ValidOption(opt) ==> ValidOptions(cs)
  {
    seq(|ts|, i requires 0 <= i < |ts| => Cancellation(ts[i], opt))
  }

  /** The effects of the first `k` look-ups.  With an unknown option each only kills the first
      task that has the id. */
  function DrainEffects(all: seq<Task>, k: nat, opt: int): seq<Effect>
    requires k <= |all|
  {
    if k == 0 then []
    else
      var i := FirstOf(all, all[k - 1].request.clientId);
      DrainEffects(all, k - 1, opt)
      + if ValidOption(opt) then CancelEffects(all[k - 1].request, opt)
        else if i < |all| then [Kill(all[i].request.tid), Join(all[i].request.tid)]
        else []
  }

  /** `CancelAll` after `k` of the tasks it started with. */
  ghost predicate Drained(all: seq<Task>, k: nat, opt: int, ts: seq<Task>, before: seq<Effect>, es: seq<Effect>) {
    && k <= |all|
    && ts == (if ValidOption(opt) then all[k..] else all)
    && es == before + DrainEffects(all, k, opt)
  }

  /** The task looked up by id is the one at the head, however often its id occurs behind it. */
  lemma DrainedOneMore(all: seq<Task>, k: nat, opt: int, ts: seq<Task>, before: seq<Effect>, es: seq<Effect>,
                       ts': seq<Task>, es': seq<Effect>)
    requires k < |all| && Drained(all, k, opt, ts, before, es)
    requires Cancelled(ts, es, all[k].request.clientId, opt, ts', es')
    ensures Drained(all, k + 1, opt, ts', before, es') && AllIn(ts', all)
  {
    var id := all[k].request.clientId;
    if ValidOption(opt) {
      HeadIsFirst(all, k);
      AppendEffects(before, DrainEffects(all, k, opt), CancelEffects(all[k].request, opt));
    } else {
      var i := FirstOf(all, id);
      assert i <= k;
      AppendEffects(before, DrainEffects(all, k, opt), [Kill(all[i].request.tid), Join(all[i].request.tid)]);
    }
  }

  lemma HeadIsFirst(all: seq<Task>, k: nat)
    requires k < |all|
    ensures FirstOf(all[k..], all[k].request.clientId) == 0
    ensures CutOut(all[k..], 0) == all[k + 1..]
    ensures AllIn(all[k + 1..], all)
  {
    assert all[k..][0] == all[k];
  }

  lemma DrainedAll(all: seq<Task>, k: nat, opt: int, ts: seq<Task>, before: seq<Effect>, es: seq<Effect>)
    requires Drained(all, k, opt, ts, before, es) && At(all, k) == null
    ensures ValidOption(opt) ==> ts == [] && es == before + AllEffects(CancellationsOf(all, opt))
    ensures !ValidOption(opt) ==> ts == all && es == before + DrainEffects(all, |all|, opt)
  {
    if ValidOption(opt) {
      DrainIsCancelling(all, |all|, opt);
      assert all[..|all|] == all;
    }
  }

  lemma {:induction false} DrainIsCancelling(all: seq<Task>, k: nat, opt: int)
    requires k <= |all| && ValidOption(opt)
    ensures DrainEffects(all, k, opt) == AllEffects(CancellationsOf(all[..k], opt))
  {
    if k > 0 {
      var cs, c := CancellationsOf(all[..k - 1], opt), Cancellation(all[k - 1], opt);
      DrainIsCancelling(all, k - 1, opt);
      OneMore(cs, c);
      assert CancellationsOf(all[..k], opt) == cs + [c];
    }
  }

  lemma {:induction false} AllEffectsAppend(a: seq<Cancellation>, b: seq<Cancellation>)
    requires ValidOptions(a) && ValidOptions(b)
    ensures ValidOptions(a + b)
    ensures AllEffects(a + b) == AllEffects(a) + AllEffects(b)
  {
    if b == [] {
      assert a + b == a;
    } else {
      var c := b[|b| - 1];
      assert a + b == a + b[..|b| - 1] + [c];
      AllEffectsAppend(a, b[..|b| - 1]);
      OneMore(a + b[..|b| - 1], c);
    }
  }

  lemma TasksOfAll(cs: seq<Cancellation>, ts: seq<Task>, opt: int)
    ensures multiset(TasksOf(cs + CancellationsOf(ts, opt))) == multiset(TasksOf(cs)) + multiset(ts)
  {
    assert TasksOf(cs + CancellationsOf(ts, opt)) == TasksOf(cs) + ts;
  }
}
