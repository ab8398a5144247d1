/** The client's receiving side: the decoding loop over the FIFO and the main loop above it. */
module Client {
  import opened Wire
  import opened LineSplit
  import opened LineReader

  lemma InterruptFacts()
    ensures |READ_INTERRUPT| == INTERRUPT_LENGTH && SEND_INTERRUPT == [NL] + READ_INTERRUPT
    ensures NulFree(READ_INTERRUPT) && IsLine(READ_INTERRUPT) && Terminated(READ_INTERRUPT)
  {
  }

  lemma ShutdownFacts()
    ensures |READ_SHUTDOWN| == SHUTDOWN_LENGTH && SEND_SHUTDOWN == [NL] + READ_SHUTDOWN
    ensures NulFree(READ_SHUTDOWN) && IsLine(READ_SHUTDOWN) && Terminated(READ_SHUTDOWN)
  {
  }

  lemma SentinelFacts()
    ensures |READ_INTERRUPT| == INTERRUPT_LENGTH && |READ_SHUTDOWN| == SHUTDOWN_LENGTH
    ensures SEND_INTERRUPT == [NL] + READ_INTERRUPT && SEND_SHUTDOWN == [NL] + READ_SHUTDOWN
    ensures NulFree(READ_INTERRUPT) && NulFree(READ_SHUTDOWN)
    ensures IsLine(READ_INTERRUPT) && Terminated(READ_INTERRUPT)
    ensures IsLine(READ_SHUTDOWN) && Terminated(READ_SHUTDOWN)
  {
    InterruptFacts();
    ShutdownFacts();
  }

  /** What comparing a buffer with the sentinels needs to know of them. */
  lemma SentinelsCompare()
    ensures |READ_INTERRUPT| == INTERRUPT_LENGTH && NulFree(READ_INTERRUPT)
    ensures |READ_SHUTDOWN| == SHUTDOWN_LENGTH && NulFree(READ_SHUTDOWN)
  {
    SentinelFacts();
  }

  // ----- the decoding loop on whole lines

  datatype Stop = EndOfStream | OnInterrupt | OnShutdown(requested: bool)

  /** What one run of the loop prints, how many lines it reads, and why it ends. */
  datatype Reading = Reading(out: string, used: nat, stop: Stop)

  /** The loop as the code has it: a line of 32 bytes other than the interrupt sentinel is
      dropped, and any line of 31 bytes ends the loop. */
  function Decode(ps: seq<string>): (r: Reading)
    ensures r.used <= |ps| && (r.stop != EndOfStream ==> r.used > 0)
  {
    if ps == [] then Reading("", 0, EndOfStream)
    else if |ps[0]| == INTERRUPT_LENGTH then
      if ps[0] == READ_INTERRUPT then Reading("", 1, OnInterrupt)
      else
        var r := Decode(ps[1..]);
        r.(used := r.used + 1)
    else if |ps[0]| == SHUTDOWN_LENGTH then Reading("", 1, OnShutdown(ps[0] == READ_SHUTDOWN))
    else
      var r := Decode(ps[1..]);
      r.(out := ps[0] + r.out, used := r.used + 1)
  }

  /** The lines that end the loop. */
  predicate Stopper(p: string) {
    p == READ_INTERRUPT || |p| == SHUTDOWN_LENGTH
  }

  function StopFor(p: string): Stop
    requires Stopper(p)
  {
    if p == READ_INTERRUPT then OnInterrupt else OnShutdown(p == READ_SHUTDOWN)
  }

  /** The loop ends at the first stopper, or at the end of the stream when there is none. */
  lemma {:induction false} DecodeStopsAtFirstStopper(ps: seq<string>)
    ensures var r := Decode(ps);
            && r.used <= |ps|
            && (forall i :: 0 <= i < r.used - 1 ==> !Stopper(ps[i]))
            && (r.stop == EndOfStream ==> r.used == |ps| && forall i :: 0 <= i < |ps| ==> !Stopper(ps[i]))
            && (r.stop != EndOfStream ==> r.used > 0 && Stopper(ps[r.used - 1]) && r.stop == StopFor(ps[r.used - 1]))
  {
    SentinelFacts();
    if ps != [] && !Stopper(ps[0]) {
      var r := Decode(ps[1..]);
      DecodeStopsAtFirstStopper(ps[1..]);
      assert Decode(ps).used == r.used + 1 && Decode(ps).stop == r.stop;
      assert forall i :: 1 <= i < |ps| ==> ps[i] == ps[1..][i - 1];
    }
  }

  /** What the loop prints of lines it does not stop at: all but those of 32 bytes. */
  function Printed(ps: seq<string>): string {
    if ps == [] then "" else (if |ps[0]| == INTERRUPT_LENGTH then "" else ps[0]) + Printed(ps[1..])
  }

  /** The lines read, without the one that ends the loop. */
  function Passed(ps: seq<string>): seq<string> {
    var r := Decode(ps);
    if r.stop == EndOfStream then ps else ps[..r.used - 1]
  }

  lemma {:induction false} DecodePrintsPassed(ps: seq<string>)
    ensures Decode(ps).out == Printed(Passed(ps))
  {
    if ps == [] {
    } else if Stopper(ps[0]) {
      StopsAtOnce(ps);
    } else {
      GoesOnAfter(ps);
      PassesOne(ps);
      DecodePrintsPassed(ps[1..]);
      assert Passed(ps)[1..] == Passed(ps[1..]);
    }
  }

  lemma StopsAtOnce(ps: seq<string>)
    requires ps != [] && Stopper(ps[0])
    ensures Decode(ps) == Reading("", 1, StopFor(ps[0])) && Passed(ps) == []
  {
    SentinelFacts();
  }

  lemma GoesOnAfter(ps: seq<string>)
    requires ps != [] && !Stopper(ps[0])
    ensures var r, t := Decode(ps), Decode(ps[1..]);
            && r.used == t.used + 1 && r.stop == t.stop
            && r.out == (if |ps[0]| == INTERRUPT_LENGTH then "" else ps[0]) + t.out
  {
  }

  lemma PassesOne(ps: seq<string>)
    requires ps != [] && Decode(ps).used == Decode(ps[1..]).used + 1 && Decode(ps).stop == Decode(ps[1..]).stop
    ensures Passed(ps) == [ps[0]] + Passed(ps[1..])
  {
    Uncons(ps, Decode(ps).used - 1);
  }

  lemma Uncons(ps: seq<string>, k: nat)
    requires ps != [] && k <= |ps|
    ensures ps == [ps[0]] + ps[1..]
    ensures k > 0 ==> ps[..k] == [ps[0]] + ps[1..][..k - 1]
  {
  }

  /** `strcmp(cbuf, wanted) == 0` on a filled buffer compares the whole line. */
  lemma StrcmpIffEqual(cbuf: string, kept: string, wanted: string)
    requires |kept| < |cbuf| && cbuf[..|kept|] == kept && cbuf[|kept|] == NUL
    requires |kept| == |wanted| && NulFree(wanted)
    ensures CStr(cbuf) == wanted <==> kept == wanted
  {
    if kept == wanted {
      assert forall i :: 0 <= i < |kept| ==> cbuf[i] == kept[i];
      StrlenIs(cbuf, |kept|);
    }
  }

  /** What the client prints for a byte stream, as `c_getResult_FIFO` reads it. */
  function Received(s: string): Reading {
    Decode(KeptAll(Lines(s), MAXLINE))
  }

  lemma ReceivedStep(s: string)
    requires s != ""
    ensures Lines(s) == [s[..LineEnd(s)]] + Lines(s[LineEnd(s)..])
    ensures KeptAll(Lines(s), MAXLINE) ==
            [Kept(s[..LineEnd(s)], MAXLINE)] + KeptAll(Lines(s[LineEnd(s)..]), MAXLINE)
  {
    KeptAllCons(s[..LineEnd(s)], Lines(s[LineEnd(s)..]), MAXLINE);
  }

  class ClientProgram {
    var clientShutdown: bool
    var stdout: string        // what `write(STDOUT_FILENO, ...)` has written
    var loaded: seq<string>   // the requests put into shared memory

    constructor ()
      ensures !clientShutdown && stdout == "" && loaded == []
    {
      clientShutdown, stdout, loaded := false, "", [];
    }

    /** Clear the buffer and read one line into it. */
    static method ReadPiece(fd: Source, cbuf: array<char>) returns (numIn: int)
      requires FailureFree(fd.events) && cbuf.Length == MAXLINE
      modifies fd, cbuf
      ensures FailureFree(fd.events) && |fd.events| <= |old(fd.events)|
      ensures numIn == 0 <==> Data(old(fd.events)) == ""
      ensures numIn != 0 ==>
        var s := Data(old(fd.events));
        && Data(fd.events) == s[LineEnd(s)..]
        && |fd.events| < |old(fd.events)|
        && numIn == |Kept(s[..LineEnd(s)], MAXLINE)| <= |cbuf[..]|
        && cbuf[..numIn] == Kept(s[..LineEnd(s)], MAXLINE)
        && (forall wanted :: |wanted| == numIn && NulFree(wanted) ==>
              (CStr(cbuf[..]) == wanted <==> cbuf[..numIn] == wanted))
      ensures numIn == 0 ==> Data(fd.events) == ""
    {
      ScanIsFirstLine(fd.events);
      ZeroIffEndOfFile(fd.events, MAXLINE);
      forall i | 0 <= i < MAXLINE {
        cbuf[i] := NUL;
      }
      numIn := ReadLine(fd, cbuf, MAXLINE);
      forall wanted | numIn != 0 && |wanted| == numIn && NulFree(wanted)
        ensures CStr(cbuf[..]) == wanted <==> cbuf[..numIn] == wanted
      {
        StrcmpIffEqual(cbuf[..], cbuf[..numIn], wanted);
      }
    }

    method GetResult(fd: Source)
      requires FailureFree(fd.events)
      modifies this`stdout, this`clientShutdown, fd
      ensures stdout == old(stdout) + Received(Data(old(fd.events))).out
      ensures clientShutdown <==>
              (old(clientShutdown) || Received(Data(old(fd.events))).stop == OnShutdown(true))
      ensures var ls := Lines(Data(old(fd.events)));
              var used := Received(Data(old(fd.events))).used;
              used <= |ls| && Lines(Data(fd.events)) == ls[used..]
    {
      var cbuf := new char[MAXLINE];
      ghost var start, out := Data(fd.events), stdout;
      ghost var k, stop := 0, EndOfStream;    // lines read so far; why the loop ends
      var more := true;
      while more
        invariant more ==> FailureFree(fd.events) && Reached(start, k, stdout, out, Data(fd.events))
        invariant more ==> clientShutdown == old(clientShutdown)
        invariant !more ==> Ended(start, stdout, out, Data(fd.events), stop)
        invariant !more ==> clientShutdown == (old(clientShutdown) || stop == OnShutdown(true))
        decreases |fd.events|, more
      {
        more, stop := TakePiece(fd, cbuf, start, k, out);
        k := k + 1;
      }
    }

    /** One round of the loop, behind `k` lines of `start`. */
    method TakePiece(fd: Source, cbuf: array<char>, ghost start: string, ghost k: nat, ghost out: string)
      returns (more: bool, ghost stop: Stop)
      requires FailureFree(fd.events) && cbuf.Length == MAXLINE
      requires Reached(start, k, stdout, out, Data(fd.events))
      modifies this`stdout, this`clientShutdown, fd, cbuf
      ensures more ==> FailureFree(fd.events) && |fd.events| < |old(fd.events)|
      ensures more ==> Reached(start, k + 1, stdout, out, Data(fd.events)) && clientShutdown == old(clientShutdown)
      ensures |fd.events| <= |old(fd.events)|
      ensures !more ==> Ended(start, stdout, out, Data(fd.events), stop)
      ensures !more ==> clientShutdown == (old(clientShutdown) || stop == OnShutdown(true))
    {
      SentinelsCompare();
      ghost var s := Data(fd.events);
      var numIn := ReadPiece(fd, cbuf);
      if numIn == 0 {
        ReachedEnd(start, k, stdout, out);
        return false, EndOfStream;
      }
      ReachedStep(start, k, stdout, out, s);
      more, stop := true, EndOfStream;
      if numIn == INTERRUPT_LENGTH {
        if CStr(cbuf[..]) == READ_INTERRUPT {
          more, stop := false, OnInterrupt;
        }
      } else if numIn == SHUTDOWN_LENGTH {
        if CStr(cbuf[..]) == READ_SHUTDOWN {
          clientShutdown := true;
        }
        more, stop := false, OnShutdown(CStr(cbuf[..]) == READ_SHUTDOWN);
      } else {
        stdout := stdout + cbuf[..numIn];
      }
    }

    /** One request: load it, open the FIFO, and read the reply. */
    method LoadAndWait(msg: string, reply: seq<Event>)
      requires FailureFree(reply)
      modifies this
      ensures loaded == old(loaded) + [msg]
      ensures stdout == old(stdout) + Received(Data(reply)).out
      ensures clientShutdown <==> (old(clientShutdown) || RequestsShutdown(reply))
    {
      loaded := loaded + [msg];
      var fd := new Source(reply);
      GetResult(fd);
    }

    /** The main loop over the lines typed at the console.  `connected[i]` says whether a server
        is up at the i-th load, and `replies[i]` is what then arrives on the FIFO. */
    method ClientMain(console: seq<string>, connected: seq<bool>, replies: seq<seq<Event>>)
      returns (exit: bool, rounds: nat)
      requires |connected| == |console| == |replies|
      requires forall i :: 0 <= i < |replies| ==> FailureFree(replies[i])
      modifies this
      ensures rounds <= |console|
      ensures loaded == old(loaded) + console[..rounds] && LoadsAll(console, connected, rounds)
      ensures Answered(replies, rounds, old(stdout), stdout, old(clientShutdown), clientShutdown)
      ensures exit <==> (!clientShutdown && rounds < |console| && console[rounds] == "exit\n")
      ensures forall i :: 0 <= i < rounds ==> console[i] != "exit\n" && connected[i]
      ensures rounds < |console| ==> exit || clientShutdown || !connected[rounds]
    {
      exit, rounds := false, 0;
      while !clientShutdown && rounds < |console|
        invariant rounds <= |console|
        invariant loaded == old(loaded) + console[..rounds] && LoadsAll(console, connected, rounds)
        invariant Answered(replies, rounds, old(stdout), stdout, old(clientShutdown), clientShutdown)
        invariant !exit
        decreases |console| - rounds
      {
        var msg := console[rounds];
        if IsExit(msg) {
          exit := true;
          break;
        }
        if !connected[rounds] {
          break;
        }
        AnsweredStep(replies, rounds, old(stdout), stdout, old(clientShutdown));
        LoadAndWait(msg, replies[rounds]);
        TakeOneMore(old(loaded), console, rounds);
        rounds := rounds + 1;
      }
      LoadsAllMeans(console, connected, rounds);
    }
  }

  /** `k` replies have been read, none after one that asks for shutdown: their output has gone to
      stdout, and the flag is up when it was before or when the last of them raised it. */
  ghost predicate Answered(replies: seq<seq<Event>>, k: nat, before: string, stdout: string,
                           downBefore: bool, down: bool)
    requires k <= |replies|
  {
    && stdout == before + PrintedFor(replies, k)
    && (down <==> (downBefore || ShutdownWithin(replies, k)))
    && (k > 0 ==> !downBefore && !ShutdownWithin(replies, k - 1))
  }

  lemma AnsweredStep(replies: seq<seq<Event>>, k: nat, before: string, stdout: string, downBefore: bool)
    requires k < |replies| && Answered(replies, k, before, stdout, downBefore, false)
    ensures Answered(replies, k + 1, before, stdout + Received(Data(replies[k])).out, downBefore,
                     RequestsShutdown(replies[k]))
  {
    Assoc(before, PrintedFor(replies, k), Received(Data(replies[k])).out);
  }

  lemma TakeOneMore<T>(before: seq<T>, s: seq<T>, k: nat)
    requires k < |s|
    ensures before + s[..k] + [s[k]] == before + s[..k + 1]
  {
  }

  predicate IsExit(msg: string) {
    msg == "exit\n"
  }

  /** None of the first `k` lines is "exit", and a server is up for each of them. */
  predicate LoadsAll(console: seq<string>, connected: seq<bool>, k: nat)
    requires k <= |console| == |connected|
  {
    k > 0 ==> LoadsAll(console, connected, k - 1) && !IsExit(console[k - 1]) && connected[k - 1]
  }

  lemma {:induction false} LoadsAllMeans(console: seq<string>, connected: seq<bool>, k: nat)
    requires k <= |console| == |connected| && LoadsAll(console, connected, k)
    ensures forall i :: 0 <= i < k ==> console[i] != "exit\n" && connected[i]
  {
    if k > 0 {
      LoadsAllMeans(console, connected, k - 1);
    }
  }

  predicate RequestsShutdown(reply: seq<Event>) {
    Received(Data(reply)).stop == OnShutdown(true)
  }

  /** One of the first `k` replies asks the client to shut down. */
  predicate ShutdownWithin(replies: seq<seq<Event>>, k: nat)
    requires k <= |replies|
  {
    k > 0 && (ShutdownWithin(replies, k - 1) || RequestsShutdown(replies[k - 1]))
  }

  /** What the first `k` replies put on stdout. */
  function PrintedFor(replies: seq<seq<Event>>, k: nat): string
    requires k <= |replies|
  {
    if k == 0 then "" else PrintedFor(replies, k - 1) + Received(Data(replies[k - 1])).out
  }

  /** After `k` lines of `start`, with `rest` still to read, the loop has printed `out - before`. */
  ghost predicate Reached(start: string, k: nat, out: string, before: string, rest: string) {
    && k <= |Lines(start)|
    && Lines(rest) == Lines(start)[k..]
    && before + Received(start).out == out + Received(rest).out
    && Received(start).used == k + Received(rest).used
    && Received(start).stop == Received(rest).stop
  }

  /** The loop has printed `out - before`, read what `rest` leaves, and ended for reason `stop`. */
  ghost predicate Ended(start: string, out: string, before: string, rest: string, stop: Stop) {
    && before + Received(start).out == out && Received(start).stop == stop
    && Received(start).used <= |Lines(start)| && Lines(rest) == Lines(start)[Received(start).used..]
  }

  /** One line more of `rest`: the four ways through the loop body. */
  lemma ReceivedOneLine(rest: string)
    requires rest != ""
    ensures var piece := Kept(rest[..LineEnd(rest)], MAXLINE);
            var r, t := Received(rest), Received(rest[LineEnd(rest)..]);
            && (Stopper(piece) ==> r == Reading("", 1, StopFor(piece)))
            && (!Stopper(piece) && |piece| == INTERRUPT_LENGTH ==> r == Reading(t.out, t.used + 1, t.stop))
            && (!Stopper(piece) && |piece| != INTERRUPT_LENGTH ==> r == Reading(piece + t.out, t.used + 1, t.stop))
  {
    SentinelFacts();
    ReceivedStep(rest);
    var ks := KeptAll(Lines(rest), MAXLINE);
    assert ks[1..] == KeptAll(Lines(rest[LineEnd(rest)..]), MAXLINE);
  }

  lemma ReachedEnd(start: string, k: nat, out: string, before: string)
    requires Reached(start, k, out, before, "")
    ensures Ended(start, out, before, "", EndOfStream)
  {
    assert out + "" == out;
  }

  lemma ReachedStep(start: string, k: nat, out: string, before: string, rest: string)
    requires Reached(start, k, out, before, rest) && rest != ""
    ensures var piece, next := Kept(rest[..LineEnd(rest)], MAXLINE), rest[LineEnd(rest)..];
      && (Stopper(piece) ==> Ended(start, out, before, next, StopFor(piece)))
      && (!Stopper(piece) && |piece| == INTERRUPT_LENGTH ==> Reached(start, k + 1, out, before, next))
      && (!Stopper(piece) && |piece| != INTERRUPT_LENGTH ==> Reached(start, k + 1, out + piece, before, next))
  {
    var piece, next := Kept(rest[..LineEnd(rest)], MAXLINE), rest[LineEnd(rest)..];
    ReceivedOneLine(rest);
    Assoc(out, piece, Received(next).out);
    assert out + "" == out;
    assert Lines(rest)[1..] == Lines(next);
    assert Lines(start)[k..][1..] == Lines(start)[k + 1..];
  }
}
