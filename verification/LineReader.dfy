/** `readLine`: one line from a file descriptor into a bounded buffer, one byte per `read`. */
module LineReader {
  import opened Wire
  import opened LineSplit

  const ERROR := -1

  /** What one `read(fd, &ch, 1)` can meet before the end of the stream. */
  datatype Event = Byte(ch: char) | Interruption | Failure

  datatype ReadResult = Got(ch: char) | EndOfFile | Eintr | OtherError

  /** A file descriptor: the events still to come; none left is end of file. */
  class Source {
    var events: seq<Event>

    constructor (events: seq<Event>)
      ensures this.events == events
    {
      this.events := events;
    }

    method Read() returns (r: ReadResult)
      modifies this
      ensures old(events) == [] ==> r == EndOfFile && events == []
      ensures old(events) != [] ==> events == old(events)[1..]
      ensures old(events) != [] ==> r == match old(events)[0]
                                         case Byte(ch) => Got(ch)
                                         case Interruption => Eintr
                                         case Failure => OtherError
    {
      if events == [] {
        return EndOfFile;
      }
      match events[0] {
        case Byte(ch) => r := Got(ch);
        case Interruption => r := Eintr;
        case Failure => r := OtherError;
      }
      events := events[1..];
    }
  }

  /** The bytes a reader that restarts interrupted reads gets, up to the first failure. */
  function Data(events: seq<Event>): string {
    if events == [] || events[0].Failure? then ""
    else if events[0].Interruption? then Data(events[1..])
    else [events[0].ch] + Data(events[1..])
  }

  predicate FailureFree(events: seq<Event>) {
    forall i :: 0 <= i < |events| ==> !events[i].Failure?
  }

  datatype Ending = AtNewline | AtEnd | AtFailure
  datatype Scanned = Scanned(line: string, rest: seq<Event>, ending: Ending)

  /** Everything one call takes from the descriptor: the raw line, what is left, and why it ended. */
  function Scan(events: seq<Event>): Scanned {
    if events == [] then Scanned("", [], AtEnd)
    else match events[0]
      case Failure => Scanned("", events[1..], AtFailure)
      case Interruption => Scan(events[1..])
      case Byte(ch) =>
        if ch == NL then Scanned([ch], events[1..], AtNewline)
        else
          var r := Scan(events[1..]);
          r.(line := [ch] + r.line)
  }

  /** On a stream without failures a call consumes exactly the first line, however often it
      is interrupted, and leaves exactly the bytes behind it. */
  lemma {:induction false} ScanIsFirstLine(events: seq<Event>)
    requires FailureFree(events)
    ensures var s, r := Data(events), Scan(events);
            && r.line == s[..LineEnd(s)]
            && Data(r.rest) == s[LineEnd(s)..]
            && FailureFree(r.rest)
            && |r.rest| <= |events|
            && (r.line != "" ==> |r.rest| < |events|)
            && r.ending == (if Terminated(r.line) then AtNewline else AtEnd)
            && (r.ending == AtEnd ==> r.rest == [])
  {
    if events != [] {
      ScanIsFirstLine(events[1..]);
      if events[0].Byte? && events[0].ch != NL {
        LineEndCons(events[0].ch, Data(events[1..]));
      }
    }
  }

  lemma LineEndCons(ch: char, t: string)
    requires ch != NL
    ensures var s := [ch] + t;
            && s[..LineEnd(s)] == [ch] + t[..LineEnd(t)]
            && s[LineEnd(s)..] == t[LineEnd(t)..]
  {
    assert ([ch] + t)[1..] == t;
  }

  /** A failure loses the whole partial line: the caller is told only that the read failed. */
  lemma {:induction false} ScanMeetsFailure(events: seq<Event>)
    ensures Scan(events).ending == AtFailure <==>
            (!FailureFree(events) && NL !in Data(events))
  {
    if events != [] {
      ScanMeetsFailure(events[1..]);
      assert FailureFree(events) <==> !events[0].Failure? && FailureFree(events[1..]) by {
        assert forall i :: 1 <= i < |events| ==> events[i] == events[1..][i - 1];
        assert FailureFree(events) ==> forall i :: 0 <= i < |events[1..]| ==> events[1..][i] == events[i + 1];
      }
    }
  }

  /** It then leaves what is behind the first failure. */
  lemma {:induction false} ScanLeavesBehindFailure(events: seq<Event>) returns (k: nat)
    requires Scan(events).ending == AtFailure
    ensures k < |events| && events[k].Failure? && FailureFree(events[..k]) && Scan(events).rest == events[k + 1..]
  {
    if events[0].Failure? {
      k := 0;
    } else {
      var j := ScanLeavesBehindFailure(events[1..]);
      k := j + 1;
      assert events[..k] == [events[0]] + events[1..][..j];
    }
  }

  /** `kept` and a terminator at the start of the buffer, the rest of it as it was. */
  ghost predicate Filled(before: seq<char>, after: seq<char>, kept: string) {
    && |kept| < |before| == |after|
    && after[..|kept|] == kept
    && after[|kept|] == NUL
    && after[|kept| + 1..] == before[|kept| + 1..]
  }

  /** The whole contract.  At most `n - 1` bytes of the line are kept, nothing is written at
      index `n` or beyond, and the rest of an over-long line is consumed with it. */
  method ReadLine(src: Source, buffer: array?<char>, n: nat) returns (r: int)
    requires buffer != null ==> n <= buffer.Length
    modifies src, buffer
    ensures n == 0 || buffer == null ==>
      r == ERROR && src.events == old(src.events) && (buffer != null ==> buffer[..] == old(buffer[..]))
    ensures n > 0 && buffer != null ==> src.events == Scan(old(src.events)).rest
    ensures n > 0 && buffer != null ==> buffer[n..] == old(buffer[n..])
    ensures n > 0 && buffer != null && Scan(old(src.events)).ending == AtFailure ==> r == ERROR
    ensures n > 0 && buffer != null && Scan(old(src.events)).ending != AtFailure ==>
      var s := Scan(old(src.events));
      && r == |Kept(s.line, n)|
      && (if s.ending == AtEnd && r == 0 then buffer[..] == old(buffer[..])
          else Filled(old(buffer[..]), buffer[..], Kept(s.line, n)))
  {
    if n <= 0 || buffer == null {
      return ERROR;
    }
    ghost var whole := Scan(src.events);
    ghost var line: string, before := "", buffer[..];    // the bytes consumed so far
    var totalRead := 0;
    while true
      invariant Ahead(whole, line, src.events)
      invariant totalRead == Min(|line|, n - 1) && Holds(before, buffer[..], n, line)
      decreases |src.events|
    {
      AheadStep(whole, line, src.events);
      var got := src.Read();
      if got == Eintr {
        continue;
      } else if got == OtherError {
        HoldsFrame(before, buffer[..], n, line);
        return ERROR;
      } else if got == EndOfFile {
        if totalRead == 0 {
          HoldsFrame(before, buffer[..], n, line);
          return 0;
        } else {
          break;
        }
      } else {
        totalRead := Put(buffer, n, totalRead, got.ch, before, line);
        line := line + [got.ch];
        if got.ch == NL {
          break;
        }
      }
    }
    assert whole.line == line;
    Terminate(buffer, n, totalRead, before, line);
    return totalRead;
  }

  /** Keep a byte while there is room for it and a terminator. */
  method Put(buffer: array<char>, n: nat, totalRead: nat, ch: char, ghost before: seq<char>, ghost line: string)
    returns (kept: nat)
    requires 0 < n <= buffer.Length && totalRead == Min(|line|, n - 1) && Holds(before, buffer[..], n, line)
    modifies buffer
    ensures kept == Min(|line| + 1, n - 1) && Holds(before, buffer[..], n, line + [ch])
  {
    kept := totalRead;
    if totalRead < n - 1 {
      ghost var held := buffer[..];
      buffer[totalRead] := ch;
      kept := totalRead + 1;
      assert buffer[..] == held[totalRead := ch];
      HoldsMore(before, held, n, line, ch);
    } else {
      assert Kept(line + [ch], n) == Kept(line, n);
    }
  }

  method Terminate(buffer: array<char>, n: nat, totalRead: nat, ghost before: seq<char>, ghost line: string)
    requires 0 < n <= buffer.Length && totalRead == Min(|line|, n - 1) && Holds(before, buffer[..], n, line)
    modifies buffer
    ensures Filled(before, buffer[..], Kept(line, n)) && buffer[n..] == before[n..]
  {
    ghost var held := buffer[..];
    buffer[totalRead] := NUL;
    assert buffer[..] == held[totalRead := NUL];
    HoldsFilled(before, held, n, line);
    assert buffer[n..] == buffer[..][n..];
  }

  /** What of `line` fits is at the start of the buffer, the rest of it is as it was. */
  ghost predicate Holds(before: seq<char>, held: seq<char>, n: nat, line: string) {
    && 0 < n <= |before| == |held|
    && held[..|Kept(line, n)|] == Kept(line, n)
    && held[|Kept(line, n)|..] == before[|Kept(line, n)|..]
  }

  lemma HoldsMore(before: seq<char>, held: seq<char>, n: nat, line: string, ch: char)
    requires Holds(before, held, n, line) && |line| < n - 1
    ensures Holds(before, held[|line| := ch], n, line + [ch])
  {
    var after := held[|line| := ch];
    assert Kept(line, n) == line && Kept(line + [ch], n) == line + [ch];
    assert after[..|line| + 1] == held[..|line|] + [ch];
    assert after[|line| + 1..] == held[|line|..][1..] == before[|line|..][1..] == before[|line| + 1..];
  }

  lemma HoldsFilled(before: seq<char>, held: seq<char>, n: nat, line: string)
    requires Holds(before, held, n, line)
    ensures var after := held[|Kept(line, n)| := NUL];
            Filled(before, after, Kept(line, n)) && after[n..] == before[n..]
  {
    var k := |Kept(line, n)|;
    var after := held[k := NUL];
    assert after[..k] == held[..k];
    assert after[k + 1..] == held[k..][1..] == before[k..][1..] == before[k + 1..];
    assert after[n..] == after[k + 1..][n - k - 1..] == before[k + 1..][n - k - 1..] == before[n..];
  }

  lemma HoldsFrame(before: seq<char>, held: seq<char>, n: nat, line: string)
    requires Holds(before, held, n, line)
    ensures held[n..] == before[n..]
    ensures Kept(line, n) == "" ==> held == before
  {
    var k := |Kept(line, n)|;
    assert held[n..] == held[k..][n - k..] == before[k..][n - k..] == before[n..];
    assert k == 0 ==> held[k..] == held && before[k..] == before;
  }

  /** `line` has been consumed and `events` are still ahead of a call described by `whole`. */
  ghost predicate Ahead(whole: Scanned, line: string, events: seq<Event>) {
    whole == Scan(events).(line := line + Scan(events).line)
  }

  lemma AheadStep(whole: Scanned, line: string, events: seq<Event>)
    requires Ahead(whole, line, events)
    ensures events == [] ==> whole == Scanned(line, [], AtEnd)
    ensures events != [] && events[0].Failure? ==> whole == Scanned(line, events[1..], AtFailure)
    ensures events != [] && events[0].Interruption? ==> Ahead(whole, line, events[1..])
    ensures events != [] && events[0].Byte? && events[0].ch == NL ==>
      whole == Scanned(line + [NL], events[1..], AtNewline)
    ensures events != [] && events[0].Byte? && events[0].ch != NL ==>
      Ahead(whole, line + [events[0].ch], events[1..])
  {
    if events != [] && events[0].Byte? && events[0].ch != NL {
      var ch := events[0].ch;
      assert line + ([ch] + Scan(events[1..]).line) == (line + [ch]) + Scan(events[1..]).line;
    }
  }

  /** With room for a byte and its terminator, the result 0 means end of file and nothing else;
      with n == 1 it carries no information at all. */
  lemma ZeroIffEndOfFile(events: seq<Event>, n: nat)
    requires n >= 1 && FailureFree(events)
    ensures n >= 2 ==> (|Kept(Scan(events).line, n)| == 0 <==> Data(events) == "")
    ensures n == 1 ==> |Kept(Scan(events).line, n)| == 0
  {
    ScanIsFirstLine(events);
  }
}
