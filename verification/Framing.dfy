/** The protocol on the FIFO, end to end: what the worker and the canceller write against what
    the client makes of it. */
module Framing {
  import opened Wire
  import opened LineSplit
  import opened Worker
  import opened Client

  // ----- resynchronisation on a sentinel

  /** Whatever is already on the FIFO, the canceller's leading newline closes it, and the
      sentinel arrives as a line of its own, the last one; a reader sees that line whole exactly
      when its buffer of `n` bytes has room for it and a terminator. */
  lemma SentinelResynchronises(p: string, opt: int, n: nat)
    requires ValidOption(opt) && n >= 1
    ensures Lines(p + SendLine(opt)) == Lines(p + [NL]) + [ReadSentinel(opt)]
    ensures KeptAll(Lines(p + SendLine(opt)), n)[|Lines(p + [NL])|] == ReadSentinel(opt) <==> n > |ReadSentinel(opt)|
  {
    SentinelIsLine(opt);
    ClosedByLine(p, ReadSentinel(opt));
    assert Lines(p + SendLine(opt))[|Lines(p + [NL])|] == ReadSentinel(opt);
  }

  lemma SentinelIsLine(opt: int)
    requires ValidOption(opt)
    ensures SendLine(opt) == [NL] + ReadSentinel(opt) && IsLine(ReadSentinel(opt))
  {
    SentinelFacts();
  }

  lemma ClosedByLine(p: string, w: string)
    requires IsLine(w)
    ensures Lines(p + ([NL] + w)) == Lines(p + [NL]) + [w]
  {
    Assoc(p, [NL], w);
    LinesAppend(p + [NL], w);
    OneLine(w);
  }

  lemma StopperUnderBuffer(l: string)
    ensures Stopper(Kept(l, MAXLINE)) <==> Stopper(l)
    ensures Stopper(l) ==> Kept(l, MAXLINE) == l
  {
    SentinelFacts();
  }

  lemma SentinelStops(opt: int)
    requires ValidOption(opt)
    ensures Stopper(ReadSentinel(opt))
    ensures StopFor(ReadSentinel(opt)) == if opt == OPT_SHUTDOWN then OnShutdown(true) else OnInterrupt
  {
    SentinelFacts();
  }

  /** The loop on lines `ls` closed by one more line `w` that is a stopper. */
  lemma ReceivedBeforeStopper(s: string, ls: seq<string>, w: string)
    requires Lines(s) == ls + [w] && Stopper(w)
    ensures var r := Received(s);
            && 0 < r.used <= |ls| + 1
            && (r.used == |ls| + 1 <==> forall i :: 0 <= i < |ls| ==> !Stopper(ls[i]))
            && Stopper((ls + [w])[r.used - 1]) && r.stop == StopFor((ls + [w])[r.used - 1])
  {
    var ps, r := ls + [w], Received(s);
    ReceivedAtStopper(ps);
    assert forall i :: 0 <= i < |ls| ==> ps[i] == ls[i];
    if r.used < |ls| + 1 {
      assert Stopper(ls[r.used - 1]);
    }
  }

  lemma ReceivedAtStopper(ps: seq<string>)
    requires ps != [] && Stopper(ps[|ps| - 1])
    ensures var r := Decode(KeptAll(ps, MAXLINE));
            && 0 < r.used <= |ps| && Stopper(ps[r.used - 1]) && r.stop == StopFor(ps[r.used - 1])
            && forall i :: 0 <= i < r.used - 1 ==> !Stopper(ps[i])
  {
    var ks := KeptAll(ps, MAXLINE);
    var r := Decode(ks);
    DecodeStopsAtFirstStopper(ks);
    KeptStoppers(ps);
    assert Stopper(ks[|ps| - 1]);
    forall i | 0 <= i < r.used - 1
      ensures !Stopper(ps[i])
    {
      assert !Stopper(ks[i]);
    }
  }

  lemma KeptStoppers(ls: seq<string>)
    ensures forall i :: 0 <= i < |ls| ==> (Stopper(KeptAll(ls, MAXLINE)[i]) <==> Stopper(ls[i]))
    ensures forall i :: 0 <= i < |ls| && Stopper(ls[i]) ==> KeptAll(ls, MAXLINE)[i] == ls[i]
  {
    forall i | 0 <= i < |ls|
      ensures Stopper(KeptAll(ls, MAXLINE)[i]) <==> Stopper(ls[i])
      ensures Stopper(ls[i]) ==> KeptAll(ls, MAXLINE)[i] == ls[i]
    {
      StopperUnderBuffer(ls[i]);
    }
  }

  /** The client ends at the canceller's line, and for the canceller's reason, exactly when no
      line before it is a stopper.  When one is, the client ends there instead. */
  lemma CancelReachesClientIff(p: string, opt: int)
    requires ValidOption(opt)
    ensures var ls, r := Lines(p + [NL]), Received(p + SendLine(opt));
            && (r.used == |ls| + 1 <==> forall i :: 0 <= i < |ls| ==> !Stopper(ls[i]))
            && (r.used == |ls| + 1 ==>
                  r.stop == if opt == OPT_SHUTDOWN then OnShutdown(true) else OnInterrupt)
            && (r.used != |ls| + 1 ==>
                  0 < r.used <= |ls| && Stopper(ls[r.used - 1]) && r.stop == StopFor(ls[r.used - 1]))
  {
    SentinelResynchronises(p, opt, MAXLINE);
    SentinelStops(opt);
    ReceivedBeforeStopper(p + SendLine(opt), Lines(p + [NL]), ReadSentinel(opt));
  }

  lemma {:induction false} StopperPrintsNothing(ps: seq<string>, w: string)
    requires Stopper(w)
    ensures Decode(ps + [w]).out == Decode(ps).out
  {
    SentinelFacts();
    if ps == [] {
      assert ps + [w] == [w];
    } else {
      assert (ps + [w])[0] == ps[0] && (ps + [w])[1..] == ps[1..] + [w];
      StopperPrintsNothing(ps[1..], w);
    }
  }

  /** What a cancelled command has printed: exactly what the client would print for the bytes on
      the FIFO and the canceller's newline, in full when those lines are printable. */
  lemma CancelledOutputIff(p: string, opt: int)
    requires ValidOption(opt)
    ensures var out := Received(p + SendLine(opt)).out;
            && out == Received(p + [NL]).out == Printed(Passed(KeptAll(Lines(p + [NL]), MAXLINE)))
            && (out == p + [NL] <==> PrintableLines(Lines(p + [NL])))
  {
    var ls, w := Lines(p + [NL]), ReadSentinel(opt);
    SentinelResynchronises(p, opt, MAXLINE);
    SentinelStops(opt);
    StopperUnderBuffer(w);
    assert KeptAll(ls + [w], MAXLINE) == KeptAll(ls, MAXLINE) + [w];
    StopperPrintsNothing(KeptAll(ls, MAXLINE), w);
    DecodePrintsPassed(KeptAll(ls, MAXLINE));
    ClientPrintsStreamIff(p + [NL]);
  }

  /** After whole lines without NUL have been written, the canceller's newline closes the line
      that holds their last NUL. */
  lemma LinesAfterWholeWrites(written: string)
    requires NulFree(written) && Terminated(written)
    ensures var ls, ds := Lines(written), Lines(Encode(written) + [NL]);
            && |ds| == |ls| + 1
            && (forall i :: 0 <= i < |ls| ==> Terminated(ls[i]) && ds[i] == FramedLine("", ls, i))
            && ds[|ls|] == [NUL, NL]
  {
    LinesPartition(written);
    LastLineTerminated(written);
    EncodeShape(written);
    DecodedLines(written);
    var ls, ds := Lines(written), Lines(Encode(written));
    CloseAt(Encode(written), ds, |ls|);
  }

  lemma CloseAt(s: string, ds: seq<string>, k: nat)
    requires ds == Lines(s) && |ds| == k + 1 && ds[k] == [NUL]
    ensures Lines(s + [NL]) == ds[..k] + [[NUL, NL]]
  {
    var open: string, shut: string := [NUL], [NUL, NL];
    assert open + [NL] == shut;
    assert ds == ds[..k] + [open];
    CloseLastLine(s, ds[..k], open);
  }

  /** A task cancelled between two writes, after NUL-free whole lines: the sentinel is reached
      exactly when none of those lines arrives with a stopper's length, and the first is not the
      interrupt sentinel.  The condition is on the output itself. */
  lemma CancelBetweenWritesIff(written: string, opt: int)
    requires ValidOption(opt) && NulFree(written) && Terminated(written)
    ensures var ls := Lines(written);
            var r := Received(Encode(written) + SendLine(opt));
            (r.used == |ls| + 2 && r.stop == if opt == OPT_SHUTDOWN then OnShutdown(true) else OnInterrupt) <==>
            forall i :: 0 <= i < |ls| ==> !StopsAt(ls, i)
  {
    var ls, ds := Lines(written), Lines(Encode(written) + [NL]);
    LinesAfterWholeWrites(written);
    CancelReachesClientIff(Encode(written), opt);
    NoStopperIff(ls, ds);
  }

  lemma NoStopperIff(ls: seq<string>, ds: seq<string>)
    requires |ds| == |ls| + 1 && ds[|ls|] == [NUL, NL]
    requires forall i :: 0 <= i < |ls| ==> Terminated(ls[i]) && ds[i] == FramedLine("", ls, i)
    ensures (forall i :: 0 <= i < |ds| ==> !Stopper(ds[i])) <==> forall i :: 0 <= i < |ls| ==> !StopsAt(ls, i)
  {
    ShortLineGoesOn([NUL, NL]);
    forall i | 0 <= i < |ls|
      ensures Stopper(ds[i]) <==> StopsAt(ls, i)
    {
      FramedStops(ls, i);
    }
  }

  /** The i-th line of an output would end the client's loop. */
  predicate StopsAt(ls: seq<string>, i: nat)
    requires i < |ls|
  {
    if i == 0 then Stopper(ls[0]) else 1 + |ls[i]| == SHUTDOWN_LENGTH
  }

  lemma FramedStops(ls: seq<string>, i: nat)
    requires i < |ls| && Terminated(ls[i])
    ensures Stopper(FramedLine("", ls, i)) <==> StopsAt(ls, i)
  {
    SentinelFacts();
    var l := FramedLine("", ls, i);
    if i == 0 {
      assert l == ls[0];
    } else {
      assert l[0] == NUL && READ_INTERRUPT[0] != NUL;
    }
  }

  lemma ShortLineGoesOn(l: string)
    requires |l| <= 2
    ensures !Stopper(l)
  {
    SentinelFacts();
  }

  // ----- command output cannot forge a sentinel, except as its first line

  /** On any cut of a worker's stream closed by the canceller, only the first line can equal a
      sentinel. */
  lemma OnlyFirstLineCanMatch(output: string, cut: nat, opt: int, k: nat)
    requires ValidOption(opt) && cut <= |Encode(output)|
    requires k < |Lines(Encode(output)[..cut] + [NL])|
    requires Lines(Encode(output)[..cut] + [NL])[k] == ReadSentinel(opt)
    ensures k == 0
  {
    SentinelFacts();
    if k > 0 {
      CutLines(output, cut, k);
    }
  }

  /** On an uncut stream a sentinel appears exactly when the command's first output line is it. */
  lemma ForgedSentinelIff(output: string, opt: int)
    requires ValidOption(opt)
    ensures ReadSentinel(opt) in Lines(Encode(output)) <==>
            output != "" && output[..LineEnd(output)] == ReadSentinel(opt)
  {
    SentinelFacts();
    if ReadSentinel(opt) in Lines(Encode(output)) {
      ForgedOnlyByFirstLine(output, ReadSentinel(opt));
    } else if output != "" && output[..LineEnd(output)] == ReadSentinel(opt) {
      FirstLineForges(output, ReadSentinel(opt));
    }
  }

  lemma FirstLineForges(output: string, w: string)
    requires IsLine(w) && Terminated(w) && NulFree(w)
    requires output != "" && output[..LineEnd(output)] == w
    ensures w in Lines(Encode(output))
  {
    var rest := [NUL] + Encode(output[LineEnd(output)..]);
    PlainChunk(w);
    EncodeStep(output);
    Assoc(w, [NUL], Encode(output[LineEnd(output)..]));
    FirstLineOf(w, rest);
  }

  lemma FirstLineOf(w: string, rest: string)
    requires IsLine(w) && Terminated(w)
    ensures w in Lines(w + rest)
  {
    OneLine(w);
    LinesAppend(w, rest);
    assert Lines(w + rest)[0] == w;
  }

  lemma ForgedOnlyByFirstLine(output: string, w: string)
    requires IsLine(w) && Terminated(w) && NulFree(w)
    requires w in Lines(Encode(output))
    ensures output != "" && output[..LineEnd(output)] == w
  {
    var s := Encode(output);
    EncodeShape(output);
    var k :| 0 <= k < |Lines(s)| && Lines(s)[k] == w;
    if k > 0 {
      LaterLinesStartWithNul(s, k);
    }
    assert s[..LineEnd(s)] == w;
    EncodeStep(output);
    LinesPartition(output);
    assert Lines(output)[0] == output[..LineEnd(output)];
    FirstChunkHoldsSentinel(output[..LineEnd(output)], Encode(output[LineEnd(output)..]), w);
  }

  /** A NUL-free line at the front of a stream lies inside the first chunk, and fills it. */
  lemma FirstChunkHoldsSentinel(line: string, rest: string, w: string)
    requires IsLine(line) && IsLine(w) && Terminated(w) && NulFree(w)
    requires w <= Chunk(line) + rest
    ensures line == w
  {
    var c := Strlen(line);
    var all := Chunk(line) + rest;
    assert all[c] == NUL;
    assert forall i :: 0 <= i < |w| ==> w[i] == all[i];
    assert |w| <= c;
    assert forall i :: 0 <= i < |w| ==> w[i] == line[i];
    assert line[|w| - 1] == NL;
  }

  // ----- the output round trip

  /** A line the client prints in full. */
  predicate Printable(l: string) {
    |l| != INTERRUPT_LENGTH && |l| != SHUTDOWN_LENGTH && |l| <= MAXLINE - 1
  }

  predicate PrintableLines(ls: seq<string>) {
    forall i :: 0 <= i < |ls| ==> Printable(ls[i])
  }

  lemma {:induction false} DecodePrintsAllIff(ps: seq<string>)
    requires forall i :: 0 <= i < |ps| ==> ps[i] != ""
    ensures |Decode(ps).out| <= |Flatten(ps)|
    ensures Decode(ps).out == Flatten(ps) <==>
            forall i :: 0 <= i < |ps| ==> |ps[i]| != INTERRUPT_LENGTH && |ps[i]| != SHUTDOWN_LENGTH
    ensures Decode(ps).out == Flatten(ps) ==> Decode(ps) == Reading(Flatten(ps), |ps|, EndOfStream)
  {
    SentinelFacts();
    if ps != [] {
      DecodePrintsAllIff(ps[1..]);
      assert |Flatten(ps)| == |ps[0]| + |Flatten(ps[1..])|;
      assert forall i :: 1 <= i < |ps| ==> ps[i] == ps[1..][i - 1];
      assert forall i :: 0 <= i < |ps[1..]| ==> ps[1..][i] == ps[i + 1];
      var plain := |ps[0]| != INTERRUPT_LENGTH && |ps[0]| != SHUTDOWN_LENGTH;
      if plain && Decode(ps).out == Flatten(ps) {
        assert Decode(ps[1..]).out == Decode(ps).out[|ps[0]|..] == Flatten(ps[1..]);
      }
    }
  }

  /** For any stream: the client's stdout is the stream exactly when every line is printable. */
  lemma ClientPrintsStreamIff(s: string)
    ensures Received(s).out == s <==> PrintableLines(Lines(s))
    ensures Received(s).out == s ==> Received(s).stop == EndOfStream && Received(s).used == |Lines(s)|
  {
    LinesPartition(s);
    DecodeKeptPrintsAllIff(Lines(s));
  }

  lemma DecodeKeptPrintsAllIff(ls: seq<string>)
    requires forall i :: 0 <= i < |ls| ==> ls[i] != ""
    ensures var r := Decode(KeptAll(ls, MAXLINE));
            && (r.out == Flatten(ls) <==> PrintableLines(ls))
            && (r.out == Flatten(ls) ==> r.stop == EndOfStream && r.used == |ls|)
  {
    if i: nat :| i < |ls| && |ls[i]| > MAXLINE - 1 {
      LongLineIsCut(ls, i);
      assert !Printable(ls[i]);
    } else {
      KeptAllOfFitting(ls, MAXLINE);
      DecodePrintsAllIff(ls);
    }
  }

  lemma LongLineIsCut(ls: seq<string>, i: nat)
    requires forall j :: 0 <= j < |ls| ==> ls[j] != ""
    requires i < |ls| && |ls[i]| > MAXLINE - 1
    ensures |Decode(KeptAll(ls, MAXLINE)).out| < |Flatten(ls)|
  {
    DecodePrintsAllIff(KeptAll(ls, MAXLINE));
    KeptAllIffFits(ls, MAXLINE);
  }

  /** The condition a command's author can check: how long the output lines are.  A line after
      the first carries one NUL in front, and an unterminated line one behind. */
  predicate PrintableOutput(output: string) {
    forall i :: 0 <= i < |Lines(output)| ==> Arrives(Lines(output), i)
  }

  predicate Arrives(ls: seq<string>, i: nat)
    requires i < |ls|
  {
    var length := ArrivingLength(ls, i);
    length != INTERRUPT_LENGTH && length != SHUTDOWN_LENGTH && length <= MAXLINE - 1
  }

  function ArrivingLength(ls: seq<string>, i: nat): nat
    requires i < |ls|
  {
    |ls[i]| + (if i == 0 then 0 else 1) + (if Terminated(ls[i]) then 0 else 1)
  }

  /** An uncancelled run delivers the worker's stream unchanged exactly for printable output, and
      then deleting the NULs gives the command's own output, byte for byte. */
  lemma OutputRoundTripIff(output: string)
    requires NulFree(output)
    ensures Received(Encode(output)).out == Encode(output) <==> PrintableOutput(output)
    ensures PrintableOutput(output) ==>
      && WithoutNuls(Received(Encode(output)).out) == output
      && Received(Encode(output)).stop == EndOfStream
  {
    ClientPrintsStreamIff(Encode(output));
    EncodeReversibleIff(output);
    PrintableAsDecoded(output);
  }

  lemma PrintableAsDecoded(output: string)
    requires NulFree(output)
    ensures PrintableOutput(output) <==> PrintableLines(Lines(Encode(output)))
  {
    DecodedLines(output);
    AllPrintable(Lines(output), Lines(Encode(output)));
  }

  lemma AllPrintable(ls: seq<string>, ds: seq<string>)
    requires |ls| <= |ds| <= |ls| + 1
    requires forall i :: 0 <= i < |ls| ==> ds[i] == FramedLine("", ls, i)
    requires |ds| == |ls| + 1 ==> ds[|ls|] == [NUL]
    ensures PrintableLines(ds) <==> forall i :: 0 <= i < |ls| ==> Arrives(ls, i)
  {
    forall i | 0 <= i < |ls|
      ensures Printable(ds[i]) <==> Arrives(ls, i)
    {
      FramedLength(ls, i);
    }
  }

  lemma FramedLength(ls: seq<string>, i: nat)
    requires i < |ls|
    ensures Printable(FramedLine("", ls, i)) <==> Arrives(ls, i)
  {
  }

  // ----- the loop as it was meant

  /** The same loop with its braces and its missing branch in place: only the two sentinels end
      it, and every other line is printed. */
  function DecodeIntended(ps: seq<string>): Reading {
    if ps == [] then Reading("", 0, EndOfStream)
    else if ps[0] == READ_INTERRUPT then Reading("", 1, OnInterrupt)
    else if ps[0] == READ_SHUTDOWN then Reading("", 1, OnShutdown(true))
    else
      var r := DecodeIntended(ps[1..]);
      r.(out := ps[0] + r.out, used := r.used + 1)
  }

  predicate Sentinel(p: string) {
    p == READ_INTERRUPT || p == READ_SHUTDOWN
  }

  /** The lengths alone tell where the two loops part: they agree exactly when no line up to the
      first sentinel has a sentinel's length without being that sentinel. */
  lemma {:induction false} AsIntendedIff(ps: seq<string>)
    requires forall i :: 0 <= i < |ps| ==> ps[i] != ""
    ensures |Decode(ps).out| <= |DecodeIntended(ps).out|
    ensures Decode(ps) == DecodeIntended(ps) <==>
            forall i :: 0 <= i < |ps| && (forall j :: 0 <= j < i ==> !Sentinel(ps[j])) ==>
              Sentinel(ps[i]) || (|ps[i]| != INTERRUPT_LENGTH && |ps[i]| != SHUTDOWN_LENGTH)
  {
    SentinelFacts();
    if ps != [] && !Sentinel(ps[0]) {
      AsIntendedIff(ps[1..]);
      assert forall i :: 1 <= i < |ps| ==> ps[i] == ps[1..][i - 1];
      assert forall i :: 0 <= i < |ps[1..]| ==> ps[1..][i] == ps[i + 1];
      var a, b := Decode(ps[1..]), DecodeIntended(ps[1..]);
      assert |DecodeIntended(ps).out| == |ps[0]| + |b.out|;
      if |ps[0]| != INTERRUPT_LENGTH && |ps[0]| != SHUTDOWN_LENGTH {
        assert Decode(ps) == DecodeIntended(ps) <==> a == b by {
          if Decode(ps) == DecodeIntended(ps) {
            assert a.out == Decode(ps).out[|ps[0]|..] == b.out;
          }
        }
      }
    }
  }

  lemma {:induction false} IntendedStopsAtFirstSentinel(ps: seq<string>, k: nat)
    requires k < |ps| && Sentinel(ps[k])
    ensures var r := DecodeIntended(ps);
            && 0 < r.used <= k + 1 && Sentinel(ps[r.used - 1])
            && r.stop == StopFor(ps[r.used - 1])
            && (r.used == k + 1 <==> forall i :: 0 <= i < k ==> !Sentinel(ps[i]))
  {
    SentinelFacts();
    if !Sentinel(ps[0]) {
      IntendedStopsAtFirstSentinel(ps[1..], k - 1);
      assert forall i :: 1 <= i < |ps| ==> ps[i] == ps[1..][i - 1];
      assert forall i :: 0 <= i < |ps[1..]| ==> ps[1..][i] == ps[i + 1];
    }
  }

  /** The loop as it was meant, on a worker's stream cut anywhere: it ends at the canceller's line
      exactly when the first line on the FIFO is not itself a sentinel, and then for the canceller's
      reason. */
  lemma IntendedCancelReachesClientIff(output: string, cut: nat, opt: int)
    requires ValidOption(opt) && cut <= |Encode(output)|
    ensures var p := Encode(output)[..cut];
            var r := DecodeIntended(KeptAll(Lines(p + SendLine(opt)), MAXLINE));
            && Lines(p + [NL]) != []
            && (r.used == |Lines(p + [NL])| + 1 <==> !Sentinel(Lines(p + [NL])[0]))
            && (r.used == |Lines(p + [NL])| + 1 ==>
                  r.stop == if opt == OPT_SHUTDOWN then OnShutdown(true) else OnInterrupt)
  {
    var p := Encode(output)[..cut];
    var ls, w := Lines(p + [NL]), ReadSentinel(opt);
    SentinelResynchronises(p, opt, MAXLINE);
    LastLineTerminated(p + [NL]);
    SentinelStops(opt);
    IntendedBeforeSentinel(ls, w);
    forall i | 0 < i < |ls|
      ensures !Sentinel(ls[i])
    {
      LaterLineIsNoSentinel(output, cut, i);
    }
  }

  /** The intended loop on lines closed by a sentinel. */
  lemma IntendedBeforeSentinel(ls: seq<string>, w: string)
    requires Sentinel(w)
    ensures var r := DecodeIntended(KeptAll(ls + [w], MAXLINE));
            && (r.used == |ls| + 1 <==> forall i :: 0 <= i < |ls| ==> !Sentinel(ls[i]))
            && (r.used == |ls| + 1 ==> r.stop == StopFor(w))
  {
    var ps := ls + [w];
    var ks := KeptAll(ps, MAXLINE);
    forall i | 0 <= i < |ps|
      ensures Sentinel(ks[i]) <==> Sentinel(ps[i])
    {
      SentinelUnderBuffer(ps[i]);
    }
    assert ps[|ls|] == w && forall i :: 0 <= i < |ls| ==> ps[i] == ls[i];
    KeptSentinel(w);
    IntendedStopsAtFirstSentinel(ks, |ls|);
  }

  lemma KeptSentinel(w: string)
    requires Sentinel(w)
    ensures Stopper(w) && Kept(w, MAXLINE) == w
  {
    SentinelsCompare();
  }

  lemma SentinelUnderBuffer(l: string)
    ensures Sentinel(Kept(l, MAXLINE)) <==> Sentinel(l)
  {
    SentinelFacts();
  }

  lemma LaterLineIsNoSentinel(output: string, cut: nat, k: nat)
    requires cut <= |Encode(output)| && 0 < k < |Lines(Encode(output)[..cut] + [NL])|
    ensures !Sentinel(Lines(Encode(output)[..cut] + [NL])[k])
  {
    var l := Lines(Encode(output)[..cut] + [NL])[k];
    if l == READ_INTERRUPT {
      OnlyFirstLineCanMatch(output, cut, OPT_INTERRUPT, k);
    } else if l == READ_SHUTDOWN {
      OnlyFirstLineCanMatch(output, cut, OPT_SHUTDOWN, k);
    }
  }

  // ----- the output round trip, as it was meant

  predicate NoSentinel(ls: seq<string>) {
    forall i :: 0 <= i < |ls| ==> !Sentinel(ls[i])
  }

  lemma {:induction false} IntendedPrintsAllIff(ps: seq<string>)
    requires forall i :: 0 <= i < |ps| ==> ps[i] != ""
    ensures |DecodeIntended(ps).out| <= |Flatten(ps)|
    ensures DecodeIntended(ps).out == Flatten(ps) <==> NoSentinel(ps)
    ensures NoSentinel(ps) ==> DecodeIntended(ps) == Reading(Flatten(ps), |ps|, EndOfStream)
  {
    if ps != [] && !Sentinel(ps[0]) {
      var tail, r := ps[1..], DecodeIntended(ps[1..]);
      IntendedPrintsAllIff(tail);
      assert NoSentinel(ps) <==> NoSentinel(tail) by {
        assert forall i :: 1 <= i < |ps| ==> ps[i] == tail[i - 1];
        assert forall i :: 0 <= i < |tail| ==> tail[i] == ps[i + 1];
      }
      assert Flatten(ps)[|ps[0]|..] == Flatten(tail) && DecodeIntended(ps).out[|ps[0]|..] == r.out;
    }
  }

  /** For any stream: the loop as it was meant prints all of it exactly when no line is a sentinel
      and every line fits the buffer. */
  lemma IntendedPrintsStreamIff(s: string)
    ensures var r := DecodeIntended(KeptAll(Lines(s), MAXLINE));
            && (r.out == s <==> NoSentinel(Lines(s)) && Fitting(Lines(s)))
            && (r.out == s ==> r.stop == EndOfStream && r.used == |Lines(s)|)
  {
    var ls := Lines(s);
    LinesPartition(s);
    if Fitting(ls) {
      KeptAllOfFitting(ls, MAXLINE);
      IntendedPrintsAllIff(ls);
    } else {
      IntendedPrintsAllIff(KeptAll(ls, MAXLINE));
      KeptAllIffFits(ls, MAXLINE);
    }
  }

  predicate Fitting(ls: seq<string>) {
    forall i :: 0 <= i < |ls| ==> |ls[i]| <= MAXLINE - 1
  }

  /** The condition on the command's own lines: the first is no sentinel, and every line fits the
      buffer with the NULs it arrives with. */
  predicate ForIntended(output: string) {
    && (output != "" ==> !Sentinel(output[..LineEnd(output)]))
    && forall i :: 0 <= i < |Lines(output)| ==> ArrivingLength(Lines(output), i) <= MAXLINE - 1
  }

  /** With its braces in place the loop delivers an uncancelled command's stream unchanged exactly
      under that condition, and then deleting the NULs gives the command's own output. */
  lemma IntendedRoundTripIff(output: string)
    requires NulFree(output)
    ensures var r := DecodeIntended(KeptAll(Lines(Encode(output)), MAXLINE));
            && (r.out == Encode(output) <==> ForIntended(output))
            && (ForIntended(output) ==> WithoutNuls(r.out) == output && r.stop == EndOfStream)
  {
    IntendedPrintsStreamIff(Encode(output));
    EncodeReversibleIff(output);
    DecodedLines(output);
    FramedForIntended(output, Lines(output), Lines(Encode(output)));
  }

  lemma FramedForIntended(output: string, ls: seq<string>, ds: seq<string>)
    requires ls == Lines(output) && |ls| <= |ds| <= |ls| + 1
    requires forall i :: 0 <= i < |ls| ==> ds[i] == FramedLine("", ls, i)
    requires |ds| == |ls| + 1 ==> ds[|ls|] == [NUL] && output != ""
    ensures NoSentinel(ds) && Fitting(ds) <==> ForIntended(output)
  {
    forall i | 0 <= i < |ls|
      ensures |ds[i]| == ArrivingLength(ls, i)
      ensures Sentinel(ds[i]) <==> i == 0 && Sentinel(ls[0])
    {
      FramedSentinel(ls, i);
    }
    LoneNulIsNoSentinel();
    assert output != "" ==> ls[0] == output[..LineEnd(output)];
    if ForIntended(output) {
      assert forall i :: 0 <= i < |ds| ==> !Sentinel(ds[i]) && |ds[i]| <= MAXLINE - 1;
    } else if output != "" && Sentinel(ls[0]) {
      assert Sentinel(ds[0]);
    }
  }

  lemma LoneNulIsNoSentinel()
    ensures !Sentinel([NUL])
  {
    SentinelsCompare();
  }

  lemma FramedSentinel(ls: seq<string>, i: nat)
    requires i < |ls|
    ensures Sentinel(FramedLine("", ls, i)) <==> i == 0 && Sentinel(ls[0])
  {
    SentinelFacts();
    var l := FramedLine("", ls, i);
    if i > 0 {
      assert l[0] == NUL && READ_INTERRUPT[0] != NUL && READ_SHUTDOWN[0] != NUL;
    } else if Terminated(ls[0]) {
      assert l == ls[0];
    } else {
      assert l[|l| - 1] == NUL;
    }
  }
}
