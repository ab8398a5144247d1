/** The server's sending side: how a command's output is framed on the client's FIFO, and why
    that framing keeps command output from being mistaken for a sentinel. */
module Worker {
  import opened Wire
  import opened LineSplit

  // ----- the pump loop

  /** A stream being read with `getline`. */
  class Pipe {
    var data: string

    constructor (data: string)
      ensures this.data == data
    {
      this.data := data;
    }

    /** `more` is false at end of file; otherwise `line` is the next line, newline included. */
    method GetLine() returns (more: bool, line: string)
      modifies this
      ensures more <==> old(data) != ""
      ensures more ==> line == old(data)[..LineEnd(old(data))] && data == old(data)[|line|..]
      ensures !more ==> line == "" && data == ""
    {
      if data == "" {
        return false, "";
      }
      var end := LineEnd(data);
      more, line, data := true, data[..end], data[end..];
    }
  }

  /** The write end of a FIFO: what has been written to it so far. */
  class Fifo {
    var stream: string

    constructor ()
      ensures stream == ""
    {
      stream := "";
    }

    method Write(bytes: string)
      modifies this
      ensures stream == old(stream) + bytes
    {
      stream := stream + bytes;
    }
  }

  /** One `write`: `strlen(line) + 1` bytes, hence the line up to its first NUL, and a NUL. */
  function Chunk(line: string): string {
    CStr(line) + [NUL]
  }

  lemma PlainChunk(line: string)
    requires NulFree(line)
    ensures Chunk(line) == line + [NUL]
  {
    StrlenIs(line, |line|);
  }

  function EncodeLines(ls: seq<string>): string {
    if ls == [] then "" else Chunk(ls[0]) + EncodeLines(ls[1..])
  }

  /** The byte stream a worker sends for a command's output. */
  function Encode(output: string): string {
    EncodeLines(Lines(output))
  }

  lemma EncodeStep(output: string)
    ensures output == "" ==> Encode(output) == ""
    ensures output != "" ==>
      Encode(output) == Chunk(output[..LineEnd(output)]) + Encode(output[LineEnd(output)..])
  {
  }

  method Pump(command: Pipe, fifo: Fifo)
    modifies command, fifo
    ensures fifo.stream == old(fifo.stream) + Encode(old(command.data))
    ensures command.data == ""
  {
    ghost var target := fifo.stream + Encode(command.data);
    EncodeStep(command.data);
    var more, line := command.GetLine();
    while more
      invariant more ==> fifo.stream + (Chunk(line) + Encode(command.data)) == target
      invariant !more ==> fifo.stream == target && command.data == ""
      decreases |command.data|, more
    {
      EncodeStep(command.data);
      Assoc(fifo.stream, Chunk(line), Encode(command.data));
      fifo.Write(line[..Strlen(line)] + [NUL]);
      more, line := command.GetLine();
    }
  }

  // ----- newline is always followed by NUL

  predicate NulAfterNewline(s: string) {
    forall i :: 0 <= i < |s| - 1 && s[i] == NL ==> s[i + 1] == NUL
  }

  /** A written chunk has at most one newline, just before its NUL. */
  lemma ChunkShape(line: string)
    requires IsLine(line)
    ensures Chunk(line) != "" && Chunk(line)[|Chunk(line)| - 1] == NUL
    ensures NulAfterNewline(Chunk(line))
  {
    assert forall i :: 0 <= i < Strlen(line) ==> Chunk(line)[i] == line[i];
  }

  lemma {:induction false} EncodeLinesShape(ls: seq<string>)
    requires forall i :: 0 <= i < |ls| ==> IsLine(ls[i])
    ensures NulAfterNewline(EncodeLines(ls))
    ensures ls != [] ==> EncodeLines(ls) != "" && EncodeLines(ls)[|EncodeLines(ls)| - 1] == NUL
  {
    if ls != [] {
      ChunkShape(ls[0]);
      EncodeLinesShape(ls[1..]);
    }
  }

  /** The framing invariant, for every command output whatsoever. */
  lemma EncodeShape(output: string)
    ensures NulAfterNewline(Encode(output))
    ensures output != "" ==> Encode(output) != "" && Encode(output)[|Encode(output)| - 1] == NUL
  {
    LinesPartition(output);
    EncodeLinesShape(Lines(output));
  }

  lemma NulAfterNewlineTail(s: string, n: nat)
    requires NulAfterNewline(s) && n <= |s|
    ensures NulAfterNewline(s[n..])
  {
    assert forall i :: 0 <= i < |s[n..]| ==> s[n..][i] == s[n + i];
  }

  /** In such a stream every line but the first begins with NUL. */
  lemma {:induction false} LaterLinesStartWithNul(s: string, k: nat)
    requires NulAfterNewline(s)
    requires 1 <= k < |Lines(s)|
    ensures Lines(s)[k] != "" && Lines(s)[k][0] == NUL
  {
    var rest := s[LineEnd(s)..];
    LinesTail(s, k);
    if k == 1 {
      NulBehindFirstLine(s);
      FirstOfLines(rest);
    } else {
      NulAfterNewlineTail(s, LineEnd(s));
      LaterLinesStartWithNul(rest, k - 1);
    }
  }

  lemma LinesTail(s: string, k: nat)
    requires 1 <= k < |Lines(s)|
    ensures s[LineEnd(s)..] != "" && k - 1 < |Lines(s[LineEnd(s)..])|
    ensures Lines(s)[k] == Lines(s[LineEnd(s)..])[k - 1]
  {
  }

  lemma NulBehindFirstLine(s: string)
    requires NulAfterNewline(s) && LineEnd(s) < |s|
    ensures s[LineEnd(s)..][0] == NUL
  {
    var n := LineEnd(s);
    assert n > 0 && s[n - 1] == NL;
  }

  lemma FirstOfLines(s: string)
    requires s != ""
    ensures Lines(s) != [] && Lines(s)[0] != "" && Lines(s)[0][0] == s[0]
  {
  }

  /** What may stand on a FIFO before the canceller's own newline: any prefix of an encoding. */
  lemma CutLines(output: string, cut: nat, k: nat)
    requires cut <= |Encode(output)|
    requires 1 <= k < |Lines(Encode(output)[..cut] + [NL])|
    ensures var l := Lines(Encode(output)[..cut] + [NL])[k]; l == [NL] || (l != "" && l[0] == NUL)
  {
    EncodeShape(output);
    var p := Encode(output)[..cut];
    assert NulAfterNewline(p);
    if Terminated(p) {
      LinesAppend(p, [NL]);
      OneLine([NL]);
      if k < |Lines(p)| {
        LaterLinesStartWithNul(p, k);
      }
    } else {
      NulAfterNewlineExtended(p);
      LaterLinesStartWithNul(p + [NL], k);
    }
  }

  lemma NulAfterNewlineExtended(p: string)
    requires NulAfterNewline(p) && !Terminated(p)
    ensures NulAfterNewline(p + [NL])
  {
  }

  // ----- the lines a client decodes, for output without NUL

  /** The lines of `carry + EncodeLines(ls)`: the NUL that ends one chunk starts the next line. */
  function Framed(carry: string, ls: seq<string>): seq<string>
    decreases |ls|
  {
    if ls == [] then (if carry == "" then [] else [carry])
    else if Terminated(ls[0]) then [carry + ls[0]] + Framed([NUL], ls[1..])
    else [carry + ls[0] + [NUL]] + Framed("", ls[1..])
  }

  lemma FramedIsLine(carry: string, l: string)
    requires NL !in carry && IsLine(l)
    ensures IsLine(if Terminated(l) then carry + l else carry + l + [NUL])
  {
  }

  /** Lines as `getline` returns them, without NUL. */
  predicate PlainLines(ls: seq<string>) {
    && (forall i :: 0 <= i < |ls| ==> IsLine(ls[i]) && NulFree(ls[i]))
    && (forall i :: 0 <= i < |ls| - 1 ==> Terminated(ls[i]))
  }

  lemma EncodePlainStep(ls: seq<string>)
    requires PlainLines(ls) && ls != []
    ensures EncodeLines(ls) == ls[0] + [NUL] + EncodeLines(ls[1..])
    ensures PlainLines(ls[1..]) && IsLine(ls[0])
    ensures !Terminated(ls[0]) ==> ls[1..] == []
  {
    PlainChunk(ls[0]);
  }

  lemma {:induction false} FramedIsPartition(carry: string, ls: seq<string>)
    requires carry == "" || carry == [NUL]
    requires PlainLines(ls)
    ensures IsPartition(Framed(carry, ls), carry + EncodeLines(ls))
    decreases |ls|
  {
    if ls == [] {
      assert carry != "" ==> Flatten([carry]) == carry + Flatten([]);
    } else {
      EncodePlainStep(ls);
      FramedIsLine(carry, ls[0]);
      var rest := EncodeLines(ls[1..]);
      if Terminated(ls[0]) {
        FramedIsPartition([NUL], ls[1..]);
        PartitionCons(carry + ls[0], Framed([NUL], ls[1..]), [NUL] + rest);
        MoveNul(carry, ls[0], rest);
      } else {
        PartitionCons(carry + ls[0] + [NUL], [], "");
        assert rest == "" && Framed("", ls[1..]) == [];
        assert carry + ls[0] + [NUL] + "" == carry + (ls[0] + [NUL] + "");
      }
    }
  }

  lemma MoveNul(carry: string, l: string, rest: string)
    ensures carry + l + ([NUL] + rest) == carry + (l + [NUL] + rest)
  {
  }

  /** An output line as it arrives: after the NUL of the line before it, and followed by its own
      NUL when it lacks a newline. */
  function FramedLine(carry: string, ls: seq<string>, i: nat): string
    requires i < |ls|
  {
    (if i == 0 then carry else [NUL]) + ls[i] + (if Terminated(ls[i]) then "" else [NUL])
  }

  lemma {:induction false} FramedAt(carry: string, ls: seq<string>)
    requires ls != []
    requires forall i :: 0 <= i < |ls| - 1 ==> Terminated(ls[i])
    ensures |Framed(carry, ls)| == |ls| + (if Terminated(ls[|ls| - 1]) then 1 else 0)
    ensures forall i :: 0 <= i < |ls| ==> Framed(carry, ls)[i] == FramedLine(carry, ls, i)
    ensures Terminated(ls[|ls| - 1]) ==> Framed(carry, ls)[|ls|] == [NUL]
    decreases |ls|
  {
    var next := if Terminated(ls[0]) then [NUL] else "";
    var f := Framed(next, ls[1..]);
    assert Framed(carry, ls)[1..] == f;
    if |ls| > 1 {
      FramedAt([NUL], ls[1..]);
      forall i | 1 <= i < |ls|
        ensures Framed(carry, ls)[i] == FramedLine(carry, ls, i)
      {
        assert Framed(carry, ls)[i] == f[i - 1] == FramedLine([NUL], ls[1..], i - 1);
      }
    }
  }

  lemma FramedIsDecoded(output: string)
    requires NulFree(output)
    ensures Lines(Encode(output)) == Framed("", Lines(output))
  {
    LinesPartition(output);
    NulFreeLines(output);
    FramedIsPartition("", Lines(output));
    assert "" + Encode(output) == Encode(output);
    LinesUnique(Framed("", Lines(output)), Encode(output));
  }

  /** Exactly the lines that arrive for NUL-free output: one per output line, and a last line
      holding a lone NUL when the output ends in a newline. */
  lemma DecodedLines(output: string)
    requires NulFree(output)
    ensures |Lines(Encode(output))| == |Lines(output)| + (if Terminated(output) then 1 else 0)
    ensures forall i :: 0 <= i < |Lines(output)| ==>
      Lines(Encode(output))[i] == FramedLine("", Lines(output), i)
    ensures Terminated(output) ==> Lines(Encode(output))[|Lines(output)|] == [NUL]
  {
    FramedIsDecoded(output);
    if output != "" {
      LinesPartition(output);
      LastLineTerminated(output);
      FramedAt("", Lines(output));
    }
  }

  lemma {:induction false} NulFreeLines(s: string)
    requires NulFree(s)
    ensures forall i :: 0 <= i < |Lines(s)| ==> NulFree(Lines(s)[i])
  {
    if s != "" {
      NulFreeLines(s[LineEnd(s)..]);
    }
  }

  // ----- deleting the NULs gives the output back

  function WithoutNuls(s: string): string {
    if s == "" then "" else (if s[0] == NUL then "" else [s[0]]) + WithoutNuls(s[1..])
  }

  lemma {:induction false} WithoutNulsAppend(a: string, b: string)
    ensures WithoutNuls(a + b) == WithoutNuls(a) + WithoutNuls(b)
  {
    if a == "" {
      assert a + b == b;
    } else {
      assert (a + b)[1..] == a[1..] + b;
      WithoutNulsAppend(a[1..], b);
    }
  }

  lemma {:induction false} WithoutNulsShape(s: string)
    ensures NulFree(WithoutNuls(s))
    ensures NulFree(s) ==> WithoutNuls(s) == s
  {
    if s != "" {
      WithoutNulsShape(s[1..]);
    }
  }

  lemma {:induction false} WithoutNulsOfEncoding(ls: seq<string>)
    requires forall i :: 0 <= i < |ls| ==> NulFree(ls[i])
    ensures WithoutNuls(EncodeLines(ls)) == Flatten(ls)
  {
    if ls != [] {
      WithoutNulsOfChunk(ls[0], EncodeLines(ls[1..]));
      WithoutNulsOfEncoding(ls[1..]);
    }
  }

  lemma WithoutNulsOfChunk(l: string, rest: string)
    requires NulFree(l)
    ensures WithoutNuls(Chunk(l) + rest) == l + WithoutNuls(rest)
  {
    PlainChunk(l);
    Assoc(l, [NUL], rest);
    WithoutNulsAppend(l, [NUL] + rest);
    assert ([NUL] + rest)[1..] == rest;
    assert WithoutNuls([NUL] + rest) == WithoutNuls(rest);
    WithoutNulsShape(l);
  }

  /** The lines as C strings: what precedes the first NUL of each. */
  function CStrings(ls: seq<string>): seq<string> {
    seq(|ls|, i requires 0 <= i < |ls| => CStr(ls[i]))
  }

  lemma {:induction false} WithoutNulsOfLines(ls: seq<string>)
    ensures WithoutNuls(EncodeLines(ls)) == Flatten(CStrings(ls))
  {
    if ls != [] {
      var c, rest := CStr(ls[0]), EncodeLines(ls[1..]);
      WithoutNulsOfLines(ls[1..]);
      assert CStrings(ls)[1..] == CStrings(ls[1..]);
      Assoc(c, [NUL], rest);
      WithoutNulsAppend(c, [NUL] + rest);
      assert ([NUL] + rest)[1..] == rest;
      WithoutNulsShape(c);
    }
  }

  /** For any output, embedded NULs included: deleting the NULs leaves of each line what precedes
      its first NUL. */
  lemma WhatIsSent(output: string)
    ensures WithoutNuls(Encode(output)) == Flatten(CStrings(Lines(output)))
  {
    WithoutNulsOfLines(Lines(output));
  }

  /** The framing is reversible exactly for output that has no NUL of its own. */
  lemma EncodeReversibleIff(output: string)
    ensures WithoutNuls(Encode(output)) == output <==> NulFree(output)
  {
    WithoutNulsShape(Encode(output));
    if NulFree(output) {
      NulFreeLines(output);
      WithoutNulsOfEncoding(Lines(output));
    }
  }
}
