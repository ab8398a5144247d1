/** Splitting a byte stream at its newlines: what `getline` does to a command's output and
    what repeated `readLine` does to a FIFO. */
module LineSplit {
  import opened Wire

  /** How many bytes there are through the first newline, or in all when there is none. */
  function LineEnd(s: string): (n: nat)
    ensures n <= |s|
    ensures s != "" ==> n > 0
    ensures forall i :: 0 <= i < n - 1 ==> s[i] != NL
    ensures n < |s| ==> s[n - 1] == NL
  {
    if s == "" then 0
    else if s[0] == NL then 1
    else
      var n := LineEnd(s[1..]);
      assert forall i :: 1 <= i < n ==> s[i] == s[1..][i - 1];
      1 + n
  }

  function Lines(s: string): (ls: seq<string>)
    ensures Flatten(ls) == s
  {
    if s == "" then [] else [s[..LineEnd(s)]] + Lines(s[LineEnd(s)..])
  }

  function Flatten(ls: seq<string>): string {
    if ls == [] then "" else ls[0] + Flatten(ls[1..])
  }

  predicate IsLine(l: string) {
    l != "" && forall i :: 0 <= i < |l| - 1 ==> l[i] != NL
  }

  predicate Terminated(l: string) {
    l != "" && l[|l| - 1] == NL
  }

  /** `ls` cuts `s` into lines: a newline ends a line, and only the last line may lack one. */
  predicate IsPartition(ls: seq<string>, s: string) {
    && Flatten(ls) == s
    && (forall i :: 0 <= i < |ls| ==> IsLine(ls[i]))
    && (forall i :: 0 <= i < |ls| - 1 ==> Terminated(ls[i]))
  }

  lemma {:induction false} LinesPartition(s: string)
    ensures IsPartition(Lines(s), s)
  {
    if s != "" {
      var n := LineEnd(s);
      LinesPartition(s[n..]);
      PartitionCons(s[..n], Lines(s[n..]), s[n..]);
    }
  }

  lemma PartitionCons(l: string, ls: seq<string>, s: string)
    requires IsLine(l) && IsPartition(ls, s)
    requires ls != [] ==> Terminated(l)
    ensures IsPartition([l] + ls, l + s)
  {
    assert ([l] + ls)[1..] == ls;
  }

  /** There is only one way to cut a stream into lines. */
  lemma {:induction false} LinesUnique(ls: seq<string>, s: string)
    requires IsPartition(ls, s)
    ensures ls == Lines(s)
  {
    if ls != [] {
      var l, rest := ls[0], Flatten(ls[1..]);
      assert s == l + rest;
      if |ls| == 1 {
        assert rest == "";
      }
      var n := LineEnd(s);
      assert forall i :: 0 <= i < |l| ==> s[i] == l[i];
      assert n <= |l| by {
        assert forall i :: 0 <= i < |l| - 1 ==> s[i] != NL;
      }
      assert |l| <= n by {
        assert |ls| > 1 ==> s[|l| - 1] == NL;
      }
      assert s[..n] == l && s[n..] == rest;
      LinesUnique(ls[1..], rest);
    }
  }

  lemma {:induction false} FlattenAppend(a: seq<string>, b: seq<string>)
    ensures Flatten(a + b) == Flatten(a) + Flatten(b)
  {
    if a == [] {
      assert a + b == b;
    } else {
      assert (a + b)[1..] == a[1..] + b;
      FlattenAppend(a[1..], b);
    }
  }

  /** A stream that has just seen a newline (or nothing) can be continued independently. */
  lemma LinesAppend(p: string, q: string)
    requires p == "" || Terminated(p)
    ensures Lines(p + q) == Lines(p) + Lines(q)
  {
    LinesPartition(p);
    LinesPartition(q);
    if p != "" {
      LastLineTerminated(p);
    }
    PartitionAppend(Lines(p), p, Lines(q), q);
    LinesUnique(Lines(p) + Lines(q), p + q);
  }

  lemma PartitionAppend(ls: seq<string>, p: string, ms: seq<string>, q: string)
    requires IsPartition(ls, p) && IsPartition(ms, q)
    requires ls != [] ==> Terminated(ls[|ls| - 1])
    ensures IsPartition(ls + ms, p + q)
  {
    FlattenAppend(ls, ms);
  }

  lemma {:induction false} LastLineTerminated(p: string)
    requires p != ""
    ensures Lines(p) != [] && (Terminated(Lines(p)[|Lines(p)| - 1]) <==> Terminated(p))
  {
    var n := LineEnd(p);
    if n < |p| {
      LastLineTerminated(p[n..]);
      assert Lines(p)[|Lines(p)| - 1] == Lines(p[n..])[|Lines(p[n..])| - 1];
    }
  }

  /** One line is its own partition. */
  lemma OneLine(l: string)
    requires IsLine(l)
    ensures Lines(l) == [l]
  {
    assert Flatten([l]) == l + Flatten([]);
    LinesUnique([l], l);
  }

  /** A stream is its last line behind the stream of the lines before it. */
  lemma LastLine(s: string, front: seq<string>, last: string)
    requires Lines(s) == front + [last]
    ensures s == Flatten(front) + last && IsLine(last)
    ensures Lines(Flatten(front)) == front
    ensures Flatten(front) == "" || Terminated(Flatten(front))
  {
    LinesPartition(s);
    assert forall i :: 0 <= i < |front| ==> front[i] == Lines(s)[i];
    assert Lines(s)[|front|] == last;
    LinesUnique(front, Flatten(front));
    if Flatten(front) != "" {
      LastLineTerminated(Flatten(front));
    }
    FlattenAppend(front, [last]);
    assert Flatten([last]) == last + "" == last;
  }

  /** A newline put behind an open last line closes that line. */
  lemma CloseLastLine(s: string, front: seq<string>, last: string)
    requires Lines(s) == front + [last] && !Terminated(last)
    ensures Lines(s + [NL]) == front + [last + [NL]]
  {
    var p := Flatten(front);
    LastLine(s, front, last);
    Assoc(p, last, [NL]);
    ClosedIsLine(last);
    OneLine(last + [NL]);
    LinesAppend(p, last + [NL]);
  }

  lemma ClosedIsLine(l: string)
    requires IsLine(l) && !Terminated(l)
    ensures IsLine(l + [NL])
  {
  }

  /** The complete lines of a prefix of a stream are lines of the stream itself. */
  lemma {:induction false} LinesOfPrefix(t: string, s: string, i: nat)
    requires t <= s
    requires i < |Lines(t)| && Terminated(Lines(t)[i])
    ensures i < |Lines(s)| && Lines(s)[i] == Lines(t)[i]
  {
    LinesPartition(t);
    var n := LineEnd(t);
    assert Lines(t)[0] == t[..n] && Terminated(t[..n]);
    SameFirstLine(t, s);
    if i > 0 {
      LinesOfPrefix(t[n..], s[n..], i - 1);
    }
  }

  lemma SameFirstLine(t: string, s: string)
    requires t <= s && t != "" && Terminated(t[..LineEnd(t)])
    ensures LineEnd(s) == LineEnd(t) && s[..LineEnd(s)] == t[..LineEnd(t)]
    ensures t[LineEnd(t)..] <= s[LineEnd(s)..]
  {
    var n := LineEnd(t);
    assert t[..n][n - 1] == t[n - 1] == s[n - 1];
    assert forall i :: 0 <= i < n ==> s[i] == t[i];
  }

  // ----- what a bounded buffer keeps of a line

  function Min(a: nat, b: nat): nat {
    if a < b then a else b
  }

  /** The part of a line that a buffer of `n` bytes keeps (one byte is for the terminator). */
  function Kept(l: string, n: nat): (k: string)
    requires n >= 1
    ensures k <= l && |k| == if |l| <= n - 1 then |l| else n - 1
  {
    l[..Min(|l|, n - 1)]
  }

  function KeptAll(ls: seq<string>, n: nat): (ks: seq<string>)
    requires n >= 1
    ensures |ks| == |ls|
    ensures forall i :: 0 <= i < |ls| ==> ks[i] == Kept(ls[i], n)
  {
    seq(|ls|, i requires 0 <= i < |ls| => Kept(ls[i], n))
  }

  lemma KeptAllCons(l: string, ls: seq<string>, n: nat)
    requires n >= 1
    ensures KeptAll([l] + ls, n) == [Kept(l, n)] + KeptAll(ls, n)
  {
    assert forall i :: 1 <= i < |ls| + 1 ==> ([l] + ls)[i] == ls[i - 1];
  }

  lemma KeptAllOfFitting(ls: seq<string>, n: nat)
    requires n >= 1 && forall i :: 0 <= i < |ls| ==> |ls[i]| <= n - 1
    ensures KeptAll(ls, n) == ls
  {
    forall i | 0 <= i < |ls|
      ensures Kept(ls[i], n) == ls[i]
    {
    }
  }

  /** Nothing is lost exactly when every line fits. */
  lemma {:induction false} KeptAllIffFits(ls: seq<string>, n: nat)
    requires n >= 1
    ensures |Flatten(KeptAll(ls, n))| <= |Flatten(ls)|
    ensures Flatten(KeptAll(ls, n)) == Flatten(ls) <==> forall i :: 0 <= i < |ls| ==> |ls[i]| <= n - 1
    ensures (exists i :: 0 <= i < |ls| && |ls[i]| > n - 1) ==> |Flatten(KeptAll(ls, n))| < |Flatten(ls)|
  {
    if ls != [] {
      KeptAllIffFits(ls[1..], n);
      assert KeptAll(ls, n)[1..] == KeptAll(ls[1..], n);
      assert forall i :: 1 <= i < |ls| ==> ls[i] == ls[1..][i - 1];
      if forall i :: 0 <= i < |ls| ==> |ls[i]| <= n - 1 {
        assert Kept(ls[0], n) == ls[0];
        assert forall i :: 0 <= i < |ls[1..]| ==> |ls[1..][i]| == |ls[i + 1]|;
      } else {
        var i :| 0 <= i < |ls| && |ls[i]| > n - 1;
        if i > 0 {
          assert |ls[1..][i - 1]| > n - 1;
        }
      }
    }
  }
}
