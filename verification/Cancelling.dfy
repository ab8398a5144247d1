/** What the effects of a cancel do to the threads, FIFO ends and FIFO names of the server. */
module Cancelling {
  import opened Wire
  import opened TaskQueue

  /** The worker threads that run, those of them that have been told to stop, the FIFO ends that
      are open with what was written to them, whose they are, and the FIFO names that exist. */
  datatype World = World(running: set<int>, told: set<int>, open: map<int, string>, writer: map<int, int>,
                         names: set<string>)

  /** An effect that neither fails nor waits for ever: a join only of a thread told to stop, and a
      write only to an open FIFO end to which no running thread writes. */
  predicate Possible(w: World, e: Effect) {
    match e
    case Kill(tid) => tid in w.running
    case Join(tid) => tid in w.told
    case Send(fd, _) => fd in w.open && (fd in w.writer ==> w.writer[fd] !in w.running)
    case Close(fd) => fd in w.open
    case Unlink(_) => true
  }

  function Perform(w: World, e: Effect): World
    requires Possible(w, e)
  {
    match e
    case Kill(tid) => w.(told := w.told + {tid})
    case Join(tid) => w.(running := w.running - {tid}, told := w.told - {tid})
    case Send(fd, bytes) => w.(open := w.open[fd := w.open[fd] + bytes])
    case Close(fd) => w.(open := w.open - {fd})
    case Unlink(name) => w.(names := w.names - {name})
  }

  predicate AllPossible(w: World, es: seq<Effect>)
    decreases |es|
  {
    es == [] || (Possible(w, es[0]) && AllPossible(Perform(w, es[0]), es[1..]))
  }

  function PerformAll(w: World, es: seq<Effect>): World
    requires AllPossible(w, es)
    decreases |es|
  {
    if es == [] then w else PerformAll(Perform(w, es[0]), es[1..])
  }

  /** The three effects after the thread is gone. */
  lemma HangUpPerforms(w: World, r: Request, line: string)
    requires r.fifoFd in w.open && (r.fifoFd in w.writer ==> w.writer[r.fifoFd] !in w.running)
    ensures var es := [Send(r.fifoFd, line), Close(r.fifoFd), Unlink(r.fifoName)];
            AllPossible(w, es) && PerformAll(w, es) == w.(open := w.open - {r.fifoFd}, names := w.names - {r.fifoName})
    ensures Possible(w, Send(r.fifoFd, line))
    ensures Perform(w, Send(r.fifoFd, line)).open[r.fifoFd] == w.open[r.fifoFd] + line
  {
    var send, close, unlink := Send(r.fifoFd, line), Close(r.fifoFd), Unlink(r.fifoName);
    var w1 := Perform(w, send);
    var w2 := Perform(w1, close);
    var w3 := Perform(w2, unlink);
    OneFirst(w2, unlink, [], w3);
    OneFirst(w1, close, [unlink], w3);
    OneFirst(w, send, [close, unlink], w3);
    assert w2.open == w.open - {r.fifoFd};
  }

  lemma OneFirst(w: World, e: Effect, es: seq<Effect>, u: World)
    requires Possible(w, e) && AllPossible(Perform(w, e), es) && PerformAll(Perform(w, e), es) == u
    ensures AllPossible(w, [e] + es) && PerformAll(w, [e] + es) == u
  {
    assert ([e] + es)[1..] == es;
  }

  /** Cancelling a task whose worker runs and is the writer of its open FIFO goes through: the
      worker is told to stop and joined before the sentinel is written, so that the sentinel is the
      last thing on the FIFO; then the thread, the FIFO end and the name are gone, and nothing else
      has changed. */
  lemma CancelPerforms(w: World, r: Request, opt: int)
    requires ValidOption(opt) && r.tid in w.running && r.tid !in w.told && r.fifoFd in w.open
    requires r.fifoFd in w.writer && w.writer[r.fifoFd] == r.tid
    ensures var es := CancelEffects(r, opt);
            && AllPossible(w, es)
            && PerformAll(w, es) ==
               w.(running := w.running - {r.tid}, open := w.open - {r.fifoFd}, names := w.names - {r.fifoName})
            && AllPossible(w, es[..3])
            && PerformAll(w, es[..3]).open ==
               w.open[r.fifoFd := w.open[r.fifoFd] + if opt == OPT_INTERRUPT then SEND_INTERRUPT else SEND_SHUTDOWN]
  {
    var kill, join, send := Kill(r.tid), Join(r.tid), Send(r.fifoFd, SendLine(opt));
    var rest := [send, Close(r.fifoFd), Unlink(r.fifoName)];
    var w1 := Perform(w, kill);
    var w2 := Perform(w1, join);
    assert w2.told == w.told && w2 == w.(running := w.running - {r.tid});
    HangUpPerforms(w2, r, SendLine(opt));
    OneFirst(w1, join, rest, PerformAll(w2, rest));
    OneFirst(w, kill, [join] + rest, PerformAll(w2, rest));
    assert CancelEffects(r, opt) == [kill] + ([join] + rest);
    var w3 := Perform(w2, send);
    OneFirst(w2, send, [], w3);
    OneFirst(w1, join, [send], w3);
    OneFirst(w, kill, [join, send], w3);
    assert CancelEffects(r, opt)[..3] == [kill] + [join, send];
  }
}
