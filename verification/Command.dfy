/** The text of a request through its three buffers: the client's line, the shared slot, and the
    listener's copy, which the worker extends in place before it runs the command. */
module Command {
  import opened Wire
  import opened LineSplit

  const REDIRECT := " 2>&1\n"

  /** The fields of a request record that carry the command. */
  class RequestRecord {
    var clientId: int
    var textlen: nat
    const text: array<char>

    constructor ()
      ensures fresh(text) && text.Length == MAXLINE
    {
      text := new char[MAXLINE];
    }
  }

  /** The destination of `strncpy(dst, src, n)` after a `memset` to NUL. */
  function Copied(src: string, n: nat, size: nat): (dst: string)
    requires n <= size
    ensures |dst| == size
  {
    var c := CStr(src);
    seq(size, i requires 0 <= i < size => if i < |c| && i < n then c[i] else NUL)
  }

  /** Clear the array, then copy at most `n` bytes of a C string into it. */
  method ClearAndCopy(dst: array<char>, src: string, n: nat)
    requires n <= dst.Length
    modifies dst
    ensures dst[..] == Copied(src, n, dst.Length)
  {
    forall i | 0 <= i < dst.Length {
      dst[i] := NUL;
    }
    var len := Strlen(src);
    forall i | 0 <= i < n {
      dst[i] := if i < len then src[i] else NUL;
    }
  }

  /** A copy with room to spare for a terminator keeps the C string, cut to `n` bytes. */
  lemma CopiedString(src: string, n: nat, size: nat)
    requires n < size
    ensures var c := CStr(src);
            CStr(Copied(src, n, size)) == if |c| <= n then c else c[..n]
  {
    var c := CStr(src);
    var m := if |c| <= n then |c| else n;
    StrlenIs(Copied(src, n, size), m);
  }

  /** The client's load: `textlen` is the length of the whole line, whatever fits the slot. */
  method LoadRequest(slot: RequestRecord, pid: int, msg: string)
    requires slot.text.Length == MAXLINE
    modifies slot, slot.text
    ensures slot.clientId == pid && slot.textlen == |CStr(msg)|
    ensures slot.text[..] == Copied(msg, MAXLINE - 1, MAXLINE)
  {
    slot.clientId := pid;
    ClearAndCopy(slot.text, msg, MAXLINE - 1);
    slot.textlen := Strlen(msg);
  }

  /** The listener's copy of the slot. */
  method UnloadRequest(slot: RequestRecord, held: RequestRecord)
    requires slot.text.Length == held.text.Length == MAXLINE && slot.text != held.text && slot != held
    modifies held, held.text
    ensures held.clientId == slot.clientId && held.textlen == slot.textlen
    ensures held.text[..] == Copied(slot.text[..], MAXLINE - 1, MAXLINE)
  {
    held.clientId := slot.clientId;
    held.textlen := slot.textlen;
    ClearAndCopy(held.text, slot.text[..], MAXLINE - 1);
  }

  /** Where the worker's two writes would land: the terminator at `textlen - 1`, and then the
      redirection with its own terminator behind the string that is left. */
  predicate RedirectFits(text: string, textlen: nat) {
    && 1 <= textlen <= |text|
    && Strlen(text[textlen - 1 := NUL]) + |REDIRECT| < |text|
  }

  /** Cut the text at `textlen - 1` and append the redirection.  `fits` is false when a write
      would fall outside the array, and then nothing is written at all: what C does from there
      on is undefined. */
  method AppendRedirect(held: RequestRecord) returns (fits: bool)
    modifies held.text
    ensures fits <==> RedirectFits(old(held.text[..]), held.textlen)
    ensures !fits ==> held.text[..] == old(held.text[..])
    ensures fits ==>
      CStr(held.text[..]) == CStr(old(held.text[..])[held.textlen - 1 := NUL]) + REDIRECT
  {
    if held.textlen < 1 || held.textlen > held.text.Length {
      return false;
    }
    var cut := held.text[..][held.textlen - 1 := NUL];
    var end := Strlen(cut);
    if end + |REDIRECT| >= held.text.Length {
      return false;
    }
    held.text[held.textlen - 1] := NUL;
    assert held.text[..] == cut;
    Strcat(held.text, end);
    return true;
  }

  /** `strcat` with the redirection, where it fits. */
  method Strcat(text: array<char>, end: nat)
    requires end == Strlen(text[..]) && end + |REDIRECT| < text.Length
    modifies text
    ensures CStr(text[..]) == CStr(old(text[..])) + REDIRECT
  {
    ghost var before := text[..];
    forall i | 0 <= i < |REDIRECT| {
      text[end + i] := REDIRECT[i];
    }
    text[end + |REDIRECT|] := NUL;
    assert text[..end] == before[..end];
    assert text[end..end + |REDIRECT|] == REDIRECT;
    AppendedString(text[..], before[..end]);
  }

  lemma AppendedString(text: string, front: string)
    requires NulFree(front) && |front| + |REDIRECT| < |text| && text[|front| + |REDIRECT|] == NUL
    requires text[..|front|] == front && text[|front|..|front| + |REDIRECT|] == REDIRECT
    ensures CStr(text) == front + REDIRECT
  {
    var n := |front| + |REDIRECT|;
    assert text[..n] == front + REDIRECT;
    assert NulFree(REDIRECT);
    assert forall i :: 0 <= i < n ==> text[i] == text[..n][i] != NUL;
    StrlenIs(text, n);
  }

  /** The text field after load and copy, for any typed line. */
  function HeldText(msg: string): string {
    Copied(Copied(msg, MAXLINE - 1, MAXLINE), MAXLINE - 1, MAXLINE)
  }

  lemma HeldTextString(msg: string)
    ensures |HeldText(msg)| == MAXLINE
    ensures CStr(HeldText(msg)) == if |CStr(msg)| <= MAXLINE - 1 then CStr(msg) else CStr(msg)[..MAXLINE - 1]
  {
    CopiedString(msg, MAXLINE - 1, MAXLINE);
    CopiedString(Copied(msg, MAXLINE - 1, MAXLINE), MAXLINE - 1, MAXLINE);
  }

  /** Cutting a copied line at its own length drops its last byte. */
  lemma CutHeldText(msg: string)
    requires 1 <= |CStr(msg)| <= MAXLINE
    ensures CStr(HeldText(msg)[|CStr(msg)| - 1 := NUL]) == CStr(msg)[..|CStr(msg)| - 1]
  {
    HeldTextString(msg);
    var c, t := CStr(msg), HeldText(msg);
    var k := |c| - 1;
    assert forall i :: 0 <= i < k ==> t[i] == CStr(t)[i] == c[i];
    StrlenIs(t[k := NUL], k);
  }

  /** Every write of the three steps stays inside its array exactly for lines of 1 to
      MAXLINE - 6 bytes. */
  lemma FitsIff(msg: string)
    ensures RedirectFits(HeldText(msg), |CStr(msg)|) <==> 1 <= |CStr(msg)| <= MAXLINE - |REDIRECT|
  {
    HeldTextString(msg);
    if 1 <= |CStr(msg)| <= MAXLINE {
      CutHeldText(msg);
    }
  }

  /** The command a typed line stands for: the line without its newline. */
  function Typed(line: string): string {
    if Terminated(line) then line[..|line| - 1] else line
  }

  /** What reaches `popen` when one load is followed by one copy and no other load.  The byte that
      is dropped is the last one, whatever it is: the command is run as typed exactly when the
      line ends in its newline. */
  method CommandText(pid: int, msg: string) returns (fits: bool, command: string)
    ensures fits <==> 1 <= |CStr(msg)| <= MAXLINE - |REDIRECT|
    ensures fits ==> command == CStr(msg)[..|CStr(msg)| - 1] + REDIRECT
    ensures fits ==> (command == Typed(CStr(msg)) + REDIRECT <==> Terminated(CStr(msg)))
  {
    var slot := new RequestRecord();
    var held := new RequestRecord();
    LoadRequest(slot, pid, msg);
    UnloadRequest(slot, held);
    fits := AppendRedirect(held);
    FitsIff(msg);
    if fits {
      CutHeldText(msg);
      command := CStr(held.text[..]);
    } else {
      command := "";
    }
  }
}
