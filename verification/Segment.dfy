/** The name of the shared-memory segment, which is all that keeps a second server out.  A server
    creates the name exclusively and unlinks it at exit.  A client that creates it instead of
    finding it knows that no server is up, and takes it away again: once in its clean-up, and once
    more at exit if it had been attached to an earlier server. */
module Segment {

  datatype Client = Outside | Attached | Created(before: bool) | Unlinked(before: bool) | Exited

  datatype State = State(name: bool, servers: nat, clients: seq<Client>)

  datatype Step = StartServer | StopServer | Connect(c: nat) | CleanUp(c: nat) | Leave(c: nat)

  function Start(clients: nat): State {
    State(false, 0, seq(clients, _ => Outside))
  }

  predicate Enabled(s: State, a: Step) {
    match a
    case StartServer => true
    case StopServer => s.servers > 0
    case Connect(c) => c < |s.clients| && (s.clients[c].Outside? || s.clients[c].Attached?)
    case CleanUp(c) => c < |s.clients| && s.clients[c].Created?
    case Leave(c) => c < |s.clients| && (s.clients[c].Attached? || s.clients[c].Unlinked?)
  }

  function Next(s: State, a: Step): State
    requires Enabled(s, a)
  {
    match a
    case StartServer => if s.name then s else s.(name := true, servers := s.servers + 1)
    case StopServer => s.(name := false, servers := s.servers - 1)
    case Connect(c) =>
      if s.name then s.(clients := s.clients[c := Attached])
      else s.(name := true, clients := s.clients[c := Created(s.clients[c].Attached?)])
    case CleanUp(c) => s.(name := false, clients := s.clients[c := Unlinked(s.clients[c].before)])
    case Leave(c) =>
      var last := s.clients[c] == Unlinked(true);
      s.(name := s.name && !last, clients := s.clients[c := Exited])
  }

  predicate IsRun(s: State, run: seq<Step>)
    decreases |run|
  {
    run == [] || (Enabled(s, run[0]) && IsRun(Next(s, run[0]), run[1..]))
  }

  function After(s: State, run: seq<Step>): State
    requires IsRun(s, run)
    decreases |run|
  {
    if run == [] then s else After(Next(s, run[0]), run[1..])
  }

  /** A client that will still unlink the name. */
  predicate WillUnlink(c: Client) {
    c.Created? || c == Unlinked(true)
  }

  predicate NoneWillUnlink(s: State) {
    forall c :: 0 <= c < |s.clients| ==> !WillUnlink(s.clients[c])
  }

  /** At most one server, the name exists while it is up, and otherwise only while some client
      has created it by mistake. */
  predicate SingleServer(s: State) {
    && s.servers <= 1
    && (s.servers == 1 ==> s.name && NoneWillUnlink(s))
    && (s.name ==> s.servers == 1 || exists c :: 0 <= c < |s.clients| && s.clients[c].Created?)
  }

  /** No server gets the name while a client is still about to unlink it. */
  predicate Orderly(s: State, run: seq<Step>)
    requires IsRun(s, run)
    decreases |run|
  {
    run == [] ||
    ((run[0].StartServer? && !s.name ==> NoneWillUnlink(s)) && Orderly(Next(s, run[0]), run[1..]))
  }

  lemma StepKeeps(s: State, a: Step)
    requires SingleServer(s) && Enabled(s, a)
    requires a.StartServer? && !s.name ==> NoneWillUnlink(s)
    ensures SingleServer(Next(s, a))
  {
    var t := Next(s, a);
    if a.Connect? && !s.name {
      assert t.clients[a.c].Created?;
    } else if t.name && t.servers == 0 {
      var c :| 0 <= c < |s.clients| && s.clients[c].Created?;
      assert t.clients[c].Created?;
    }
  }

  lemma {:induction false} RunKeeps(s: State, run: seq<Step>)
    requires SingleServer(s) && IsRun(s, run) && Orderly(s, run)
    ensures SingleServer(After(s, run))
    decreases |run|
  {
    if run != [] {
      StepKeeps(s, run[0]);
      RunKeeps(Next(s, run[0]), run[1..]);
    }
  }

  /** In every orderly run at most one server is up, and whenever no client is in the middle of
      a failed connection the name exists if and only if a server is up. */
  lemma EveryOrderlyRun(clients: nat, run: seq<Step>)
    requires IsRun(Start(clients), run) && Orderly(Start(clients), run)
    ensures var s := After(Start(clients), run);
            s.servers <= 1 && (NoneWillUnlink(s) ==> (s.name <==> s.servers == 1))
  {
    RunKeeps(Start(clients), run);
  }

  /** A client whose connection has failed, until it has exited. */
  predicate Failing(c: Client) {
    c.Created? || c.Unlinked?
  }

  /** Every failed connection is at once followed by that client's clean-up and exit. */
  predicate Prompt(s: State, run: seq<Step>)
    requires IsRun(s, run)
    decreases |run|
  {
    run == [] ||
    ((forall c :: 0 <= c < |s.clients| && Failing(s.clients[c]) ==> run[0] == CleanUp(c) || run[0] == Leave(c))
     && Prompt(Next(s, run[0]), run[1..]))
  }

  lemma {:induction false} PromptIsOrderly(s: State, run: seq<Step>)
    requires IsRun(s, run) && Prompt(s, run)
    ensures Orderly(s, run)
    decreases |run|
  {
    if run != [] {
      PromptIsOrderly(Next(s, run[0]), run[1..]);
    }
  }

  /** When every failed connection is over at once, at most one server is up in every run, and
      between connections the name exists if and only if a server is up. */
  lemma EveryPromptRun(clients: nat, run: seq<Step>)
    requires IsRun(Start(clients), run) && Prompt(Start(clients), run)
    ensures var s := After(Start(clients), run);
            && s.servers <= 1
            && ((forall c :: 0 <= c < |s.clients| ==> !Failing(s.clients[c])) ==> (s.name <==> s.servers == 1))
  {
    PromptIsOrderly(Start(clients), run);
    EveryOrderlyRun(clients, run);
  }

  /** A failed connection taken as a whole changes nothing, and so does a refused server. */
  lemma FailureLeavesNoTrace(s: State, c: nat)
    requires !s.name && Enabled(s, Connect(c))
    ensures var run := [Connect(c), CleanUp(c), Leave(c)];
            IsRun(s, run) && After(s, run) == s.(clients := s.clients[c := Exited])
    ensures s.(name := true) == Next(s.(name := true), StartServer)
  {
    var run := [Connect(c), CleanUp(c), Leave(c)];
    assert run[1..] == [CleanUp(c), Leave(c)] && run[2..] == [Leave(c)];
    assert run[1..][1..] == run[2..];
    var s1 := Next(s, Connect(c));
    var s2 := Next(s1, CleanUp(c));
    var s3 := Next(s2, Leave(c));
    assert IsRun(s3, []) && After(s3, []) == s3;
    assert IsRun(s2, run[2..]) && After(s2, run[2..]) == s3;
    assert IsRun(s1, run[1..]) && After(s1, run[1..]) == s3;
    assert s3.clients == s.clients[c := Exited];
  }

  /** A client that finds a server and leaves again while it is up leaves the name to it. */
  lemma VisitLeavesNoTrace(s: State, c: nat)
    requires s.name && Enabled(s, Connect(c))
    ensures IsRun(s, [Connect(c), Leave(c)])
    ensures After(s, [Connect(c), Leave(c)]) == s.(clients := s.clients[c := Exited])
  {
    var s1 := Next(s, Connect(c));
    var s2 := Next(s1, Leave(c));
    assert s2.clients == s.clients[c := Exited];
    Steps(s1, Leave(c), [], s2);
    Steps(s, Connect(c), [Leave(c)] + [], s2);
    assert [Connect(c)] + ([Leave(c)] + []) == [Connect(c), Leave(c)];
  }

  predicate KeepsRunning(run: seq<Step>) {
    forall i :: 0 <= i < |run| ==> !run[i].StopServer?
  }

  lemma {:induction false} AloneWhileUp(s: State, run: seq<Step>)
    requires s.servers == 1 && s.name && NoneWillUnlink(s) && IsRun(s, run) && KeepsRunning(run)
    ensures After(s, run).servers == 1 && After(s, run).name
    decreases |run|
  {
    if run != [] {
      AloneWhileUp(Next(s, run[0]), run[1..]);
    }
  }

  /** The client's unlink removes the name under the server, and another server starts. */
  lemma SecondServer(s: State, c: nat) returns (run: seq<Step>)
    requires s.servers == 1 && s.name && c < |s.clients| && WillUnlink(s.clients[c])
    ensures IsRun(s, run) && KeepsRunning(run) && After(s, run).servers == 2
  {
    var a := if s.clients[c].Created? then CleanUp(c) else Leave(c);
    run := [a, StartServer];
    assert run[1..] == [StartServer] && run[1..][1..] == [];
    var s1 := Next(s, a);
    var s2 := Next(s1, StartServer);
    assert !s1.name && s2.servers == 2;
    assert IsRun(s2, []) && After(s2, []) == s2;
    assert IsRun(s1, run[1..]) && After(s1, run[1..]) == s2;
  }

  /** However things go on, the one server up is the only one until it stops. */
  ghost predicate StaysAlone(s: State) {
    forall run :: IsRun(s, run) && KeepsRunning(run) ==> After(s, run).servers == 1
  }

  /** A server that is up stays the only one, as long as it runs, exactly when no client was
      still about to unlink the name: the orderliness above cannot be weakened. */
  lemma AloneIff(s: State)
    requires s.servers == 1 && s.name
    ensures StaysAlone(s) <==> NoneWillUnlink(s)
  {
    if NoneWillUnlink(s) {
      forall run | IsRun(s, run) && KeepsRunning(run)
        ensures After(s, run).servers == 1
      {
        AloneWhileUp(s, run);
      }
    } else {
      var c :| 0 <= c < |s.clients| && WillUnlink(s.clients[c]);
      var run := SecondServer(s, c);
      assert After(s, run).servers == 2;
    }
  }

  /** Whenever a server is up in the run, it is alone and stays so. */
  ghost predicate AlwaysAlone(s: State, run: seq<Step>)
    requires IsRun(s, run)
    decreases |run|
  {
    && (s.servers > 0 ==> s.servers == 1 && StaysAlone(s))
    && (run == [] || AlwaysAlone(Next(s, run[0]), run[1..]))
  }

  lemma {:induction false} AlwaysAloneIff(s: State, run: seq<Step>)
    requires SingleServer(s) && IsRun(s, run)
    ensures AlwaysAlone(s, run) <==> Orderly(s, run)
    decreases |run|
  {
    if s.servers == 1 {
      AloneIff(s);
    }
    if run != [] {
      var a, t := run[0], Next(s, run[0]);
      if a.StartServer? && !s.name && !NoneWillUnlink(s) {
        assert t.servers == 1 && t.name && !NoneWillUnlink(t);
        AloneIff(t);
      } else {
        StepKeeps(s, a);
        AlwaysAloneIff(t, run[1..]);
      }
    }
  }

  /** The orderliness of a run is exactly what it takes: every server that comes up in it is, and
      stays, the only one if and only if none gets the name while a client will still unlink it. */
  lemma AlwaysAloneIffOrderly(clients: nat, run: seq<Step>)
    requires IsRun(Start(clients), run)
    ensures AlwaysAlone(Start(clients), run) <==> Orderly(Start(clients), run)
  {
    AlwaysAloneIff(Start(clients), run);
  }

  /** A client joins a server that stops, fails to find another, and cleans up; a server starts; the
      client's exit unlinks the name a second time, and another server starts. */
  function TwoServerRun(): seq<Step> {
    [StartServer, Connect(0), StopServer] + ([Connect(0), CleanUp(0), StartServer] + [Leave(0), StartServer])
  }

  lemma Steps(s: State, a: Step, rest: seq<Step>, t: State)
    requires Enabled(s, a) && IsRun(Next(s, a), rest) && After(Next(s, a), rest) == t
    ensures IsRun(s, [a] + rest) && After(s, [a] + rest) == t
  {
    assert ([a] + rest)[1..] == rest;
  }

  lemma ThreeSteps(s: State, a: Step, b: Step, c: Step, t: State, rest: seq<Step>, u: State)
    requires Enabled(s, a) && Enabled(Next(s, a), b) && Enabled(Next(Next(s, a), b), c)
    requires Next(Next(Next(s, a), b), c) == t && IsRun(t, rest) && After(t, rest) == u
    ensures IsRun(s, [a, b, c] + rest) && After(s, [a, b, c] + rest) == u
  {
    Steps(Next(Next(s, a), b), c, rest, u);
    Steps(Next(s, a), b, [c] + rest, u);
    Steps(s, a, [b] + ([c] + rest), u);
    assert [a, b, c] + rest == [a] + ([b] + ([c] + rest));
  }

  /** So two servers at once are within reach of a single client. */
  lemma TwoServersAtOnce()
    ensures IsRun(Start(1), TwoServerRun()) && After(Start(1), TwoServerRun()).servers == 2
    ensures !Orderly(Start(1), TwoServerRun())
  {
    var s3, s6 := State(false, 0, [Attached]), State(true, 1, [Unlinked(true)]);
    var s8 := State(true, 2, [Exited]);
    var s7 := State(false, 1, [Exited]);
    assert Start(1).clients == [Outside];
    assert IsRun(s8, []) && After(s8, []) == s8;
    Steps(s7, StartServer, [], s8);
    Steps(s6, Leave(0), [StartServer] + [], s8);
    assert [Leave(0)] + ([StartServer] + []) == [Leave(0), StartServer];
    ThreeSteps(s3, Connect(0), CleanUp(0), StartServer, s6, [Leave(0), StartServer], s8);
    ThreeSteps(Start(1), StartServer, Connect(0), StopServer, s3,
               [Connect(0), CleanUp(0), StartServer] + [Leave(0), StartServer], s8);
    if Orderly(Start(1), TwoServerRun()) {
      EveryOrderlyRun(1, TwoServerRun());
    }
  }
}
