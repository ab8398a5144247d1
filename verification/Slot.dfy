/** The shared request slot and its semaphore, for any number of clients and one listener.
    A client writes the slot, tries to decrement the semaphore and ignores the outcome, and posts;
    the listener waits and then copies the slot.  Each of these is one step, and the steps of
    different processes interleave freely. */
module Slot {

  datatype Phase = Idle | Written | Tried    // after the slot write; after the `sem_trywait`
  datatype Request = Request(client: nat, text: string)

  datatype State = State(
    slot: Request,
    pending: bool,                  // written since the last copy
    sem: nat,
    phase: seq<Phase>,            // one entry per client
    copying: bool,                // the listener is between `sem_wait` and the copy
    loaded: seq<Request>,         // every request written, in order
    dispatched: seq<Request>,     // every request copied out, in order
    posts: nat,
    taken: nat)                   // `sem_trywait` calls that found the semaphore positive

  datatype Step = Write(client: nat, text: string) | TryWait(client: nat) | Post(client: nat) | Wait | Copy

  function Start(clients: nat): State {
    State(Request(0, ""), false, 0, seq(clients, _ => Idle), false, [], [], 0, 0)
  }

  predicate Enabled(s: State, a: Step) {
    match a
    case Write(c, _) => c < |s.phase| && s.phase[c] == Idle
    case TryWait(c) => c < |s.phase| && s.phase[c] == Written
    case Post(c) => c < |s.phase| && s.phase[c] == Tried
    case Wait => !s.copying && s.sem > 0
    case Copy => s.copying
  }

  function Next(s: State, a: Step): State
    requires Enabled(s, a)
  {
    match a
    case Write(c, text) =>
      s.(slot := Request(c, text), pending := true, phase := s.phase[c := Written],
         loaded := s.loaded + [Request(c, text)])
    case TryWait(c) =>
      if s.sem > 0 then s.(sem := s.sem - 1, taken := s.taken + 1, phase := s.phase[c := Tried])
      else s.(phase := s.phase[c := Tried])
    case Post(c) => s.(sem := s.sem + 1, posts := s.posts + 1, phase := s.phase[c := Idle])
    case Wait => s.(sem := s.sem - 1, copying := true)
    case Copy => s.(copying := false, pending := false, dispatched := s.dispatched + [s.slot])
  }

  predicate IsRun(s: State, run: seq<Step>)
    decreases |run|
  {
    run == [] || (Enabled(s, run[0]) && IsRun(Next(s, run[0]), run[1..]))
  }

  function After(s: State, run: seq<Step>): State
    requires IsRun(s, run)
    decreases |run|
  {
    if run == [] then s else After(Next(s, run[0]), run[1..])
  }

  // ----- counting clients

  function Count(ps: seq<Phase>, p: Phase): (n: nat)
    ensures n <= |ps|
  {
    if ps == [] then 0 else (if ps[0] == p then 1 else 0) + Count(ps[1..], p)
  }

  lemma {:induction false} CountUpdate(ps: seq<Phase>, i: nat, q: Phase, p: Phase)
    requires i < |ps|
    ensures Count(ps[i := q], p) == Count(ps, p) - (if ps[i] == p then 1 else 0) + (if q == p then 1 else 0)
    ensures ps[i] == p ==> Count(ps, p) > 0
    ensures ps[i] != p ==> Count(ps, p) < |ps|
  {
    if i == 0 {
      assert ps[i := q][1..] == ps[1..];
    } else {
      assert ps[i := q][1..] == ps[1..][i - 1 := q];
      CountUpdate(ps[1..], i - 1, q, p);
    }
  }

  lemma {:induction false} CountZero(ps: seq<Phase>, p: Phase)
    ensures Count(ps, p) == 0 <==> forall i :: 0 <= i < |ps| ==> ps[i] != p
  {
    if ps != [] {
      CountZero(ps[1..], p);
      assert forall i :: 1 <= i < |ps| ==> ps[i] == ps[1..][i - 1];
      assert forall i :: 0 <= i < |ps[1..]| ==> ps[1..][i] == ps[i + 1];
    }
  }

  /** Clients that have written and not yet posted. */
  function InFlight(s: State): nat {
    Count(s.phase, Written) + Count(s.phase, Tried)
  }

  /** Everything that can still lead to a copy. */
  function Tokens(s: State): nat {
    InFlight(s) + s.sem + (if s.copying then 1 else 0)
  }

  // ----- what holds in every reachable state

  /** A request not yet copied always has something on its way to wake the listener. */
  predicate NoLostWakeup(s: State) {
    s.pending ==> Tokens(s) >= 1
  }

  predicate SemaphoreBounded(s: State) {
    s.sem + Count(s.phase, Tried) <= |s.phase|
  }

  /** Where every load and every post has gone. */
  predicate Conserved(s: State) {
    && |s.loaded| == s.posts + InFlight(s)
    && s.posts == |s.dispatched| + s.sem + (if s.copying then 1 else 0) + s.taken
  }

  /** The slot holds the latest load, and once that is copied it is also the latest dispatch. */
  predicate LatestKept(s: State) {
    if s.loaded == [] then !s.pending
    else
      && s.slot == s.loaded[|s.loaded| - 1]
      && (!s.pending ==> s.dispatched != [] && s.dispatched[|s.dispatched| - 1] == s.slot)
  }

  predicate OnlyLoaded(s: State) {
    forall r :: r in s.dispatched ==> r in s.loaded
  }

  predicate Inv(s: State) {
    NoLostWakeup(s) && SemaphoreBounded(s) && Conserved(s) && LatestKept(s) && OnlyLoaded(s)
  }

  lemma CountsAfter(s: State, a: Step)
    requires Enabled(s, a)
    ensures var t := Next(s, a);
            && |t.phase| == |s.phase|
            && Count(t.phase, Written) ==
               Count(s.phase, Written) + (if a.Write? then 1 else if a.TryWait? then -1 else 0)
            && Count(t.phase, Tried) ==
               Count(s.phase, Tried) + (if a.TryWait? then 1 else if a.Post? then -1 else 0)
    ensures a.TryWait? ==> Count(s.phase, Tried) < |s.phase|
  {
    if !a.Wait? && !a.Copy? {
      var q := if a.Write? then Written else if a.TryWait? then Tried else Idle;
      CountUpdate(s.phase, a.client, q, Written);
      CountUpdate(s.phase, a.client, q, Tried);
    }
  }

  lemma StepKeeps(s: State, a: Step)
    requires Inv(s) && Enabled(s, a)
    ensures Inv(Next(s, a))
  {
    CountsAfter(s, a);
    var t := Next(s, a);
    assert |s.loaded| == 0 ==> s.sem == 0 && !s.copying;
    if a.Copy? {
      assert s.slot in s.loaded;
    }
  }

  lemma StartHolds(clients: nat)
    ensures Inv(Start(clients)) && Tight(Start(clients))
  {
    CountZero(Start(clients).phase, Written);
    CountZero(Start(clients).phase, Tried);
  }

  lemma {:induction false} RunKeeps(s: State, run: seq<Step>)
    requires Inv(s) && IsRun(s, run)
    ensures Inv(After(s, run)) && |After(s, run).phase| == |s.phase|
    decreases |run|
  {
    if run != [] {
      StepKeeps(s, run[0]);
      CountsAfter(s, run[0]);
      RunKeeps(Next(s, run[0]), run[1..]);
    }
  }

  // ----- the protocol as a reader of its trace sees it

  /** The requests written, in order. */
  function Loads(h: seq<Step>): seq<Request> {
    if h == [] then []
    else Loads(h[..|h| - 1]) + if h[|h| - 1].Write? then [Request(h[|h| - 1].client, h[|h| - 1].text)] else []
  }

  /** What stands in the slot: the latest of them. */
  function Latest(h: seq<Step>): Request {
    if Loads(h) == [] then Request(0, "") else Loads(h)[|Loads(h)| - 1]
  }

  /** The requests copied out, in order. */
  function Dispatches(h: seq<Step>): seq<Request> {
    if h == [] then [] else Dispatches(h[..|h| - 1]) + if h[|h| - 1].Copy? then [Latest(h[..|h| - 1])] else []
  }

  /** A semaphore that starts at 0: a post adds one, a wait takes one, a trywait takes one if there
      is one. */
  function Value(h: seq<Step>): nat {
    if h == [] then 0
    else
      var v := Value(h[..|h| - 1]);
      match h[|h| - 1]
      case Post(_) => v + 1
      case Wait => if v > 0 then v - 1 else 0
      case TryWait(_) => if v > 0 then v - 1 else 0
      case _ => v
  }

  /** The calls of `sem_trywait` that found the semaphore positive. */
  function Takes(h: seq<Step>): nat {
    if h == [] then 0
    else Takes(h[..|h| - 1]) + if h[|h| - 1].TryWait? && Value(h[..|h| - 1]) > 0 then 1 else 0
  }

  function Posts(h: seq<Step>): nat {
    if h == [] then 0 else Posts(h[..|h| - 1]) + if h[|h| - 1].Post? then 1 else 0
  }

  /** The step of a client that came last, if any. */
  function LastOf(h: seq<Step>, c: nat): (last: seq<Step>)
    ensures last != [] ==> last[0].Write? || last[0].TryWait? || last[0].Post?
  {
    if h == [] then []
    else
      var a := h[|h| - 1];
      if (a.Write? || a.TryWait? || a.Post?) && a.client == c then [a] else LastOf(h[..|h| - 1], c)
  }

  /** Whether the listener has waited and not copied since. */
  predicate HasWaited(h: seq<Step>) {
    h != [] && (h[|h| - 1].Wait? || (!h[|h| - 1].Copy? && HasWaited(h[..|h| - 1])))
  }

  /** Whether a request has been written and not copied since. */
  predicate Uncopied(h: seq<Step>) {
    h != [] && (h[|h| - 1].Write? || (!h[|h| - 1].Copy? && Uncopied(h[..|h| - 1])))
  }

  /** What may follow a trace: each client goes round write, trywait, post, never blocking; the
      listener alternates a wait, which blocks while the semaphore is 0, and a copy. */
  predicate MayFollow(clients: nat, h: seq<Step>, a: Step) {
    match a
    case Write(c, _) => c < clients && (LastOf(h, c) == [] || LastOf(h, c)[0].Post?)
    case TryWait(c) => c < clients && LastOf(h, c) != [] && LastOf(h, c)[0].Write?
    case Post(c) => c < clients && LastOf(h, c) != [] && LastOf(h, c)[0].TryWait?
    case Wait => !HasWaited(h) && Value(h) > 0
    case Copy => HasWaited(h)
  }

  predicate IsTrace(clients: nat, h: seq<Step>) {
    h == [] || (IsTrace(clients, h[..|h| - 1]) && MayFollow(clients, h[..|h| - 1], h[|h| - 1]))
  }

  /** A state holds nothing but what the trace tells. */
  predicate Tells(clients: nat, h: seq<Step>, s: State) {
    && s.loaded == Loads(h) && s.slot == Latest(h) && s.dispatched == Dispatches(h)
    && s.sem == Value(h) && s.taken == Takes(h) && s.posts == Posts(h)
    && s.copying == HasWaited(h) && s.pending == Uncopied(h)
    && |s.phase| == clients
    && forall c :: 0 <= c < clients ==> s.phase[c] == PhaseAfter(LastOf(h, c))
  }

  function PhaseAfter(last: seq<Step>): Phase {
    if last == [] || last[0].Post? then Idle else if last[0].Write? then Written else Tried
  }

  lemma {:induction false} LastStep(s: State, h: seq<Step>, a: Step)
    ensures IsRun(s, h + [a]) <==> IsRun(s, h) && Enabled(After(s, h), a)
    ensures IsRun(s, h + [a]) ==> After(s, h + [a]) == Next(After(s, h), a)
    decreases |h|
  {
    if h == [] {
      assert h + [a] == [a] && [a][1..] == [];
    } else {
      assert (h + [a])[0] == h[0] && (h + [a])[1..] == h[1..] + [a];
      if Enabled(s, h[0]) {
        LastStep(Next(s, h[0]), h[1..], a);
      }
    }
  }

  lemma GuardsAgree(clients: nat, h: seq<Step>, s: State, a: Step)
    requires Tells(clients, h, s)
    ensures Enabled(s, a) <==> MayFollow(clients, h, a)
  {
    match a
    case Write(c, _) => assert c < clients ==> s.phase[c] == PhaseAfter(LastOf(h, c));
    case TryWait(c) => assert c < clients ==> s.phase[c] == PhaseAfter(LastOf(h, c));
    case Post(c) => assert c < clients ==> s.phase[c] == PhaseAfter(LastOf(h, c));
    case _ =>
  }

  lemma TellsPhases(clients: nat, h: seq<Step>, s: State, a: Step)
    requires |s.phase| == clients && forall c :: 0 <= c < clients ==> s.phase[c] == PhaseAfter(LastOf(h, c))
    requires Enabled(s, a)
    ensures |Next(s, a).phase| == clients
    ensures forall c :: 0 <= c < clients ==> Next(s, a).phase[c] == PhaseAfter(LastOf(h + [a], c))
  {
    assert (h + [a])[..|h|] == h;
  }

  lemma TellsSlot(h: seq<Step>, s: State, a: Step)
    requires s.loaded == Loads(h) && s.slot == Latest(h) && s.dispatched == Dispatches(h) && Enabled(s, a)
    ensures var t := Next(s, a);
            t.loaded == Loads(h + [a]) && t.slot == Latest(h + [a]) && t.dispatched == Dispatches(h + [a])
  {
    assert (h + [a])[..|h|] == h;
  }

  lemma TellsOneMore(clients: nat, h: seq<Step>, s: State, a: Step)
    requires Tells(clients, h, s) && Enabled(s, a)
    ensures Tells(clients, h + [a], Next(s, a))
  {
    assert (h + [a])[..|h|] == h;
    TellsPhases(clients, h, s, a);
    TellsSlot(h, s, a);
  }

  /** The transition system is the trace description: the same runs are possible, and after each
      every part of the state is what the trace says. */
  lemma {:induction false} RunsAreTraces(clients: nat, run: seq<Step>)
    ensures IsRun(Start(clients), run) <==> IsTrace(clients, run)
    ensures IsRun(Start(clients), run) ==> Tells(clients, run, After(Start(clients), run))
  {
    if run != [] {
      var h, a := run[..|run| - 1], run[|run| - 1];
      assert run == h + [a];
      RunsAreTraces(clients, h);
      LastStep(Start(clients), h, a);
      if IsTrace(clients, h) {
        GuardsAgree(clients, h, After(Start(clients), h), a);
        if MayFollow(clients, h, a) {
          TellsOneMore(clients, h, After(Start(clients), h), a);
        }
      }
    }
  }

  /** Safety of the slot protocol over all interleavings of any number of clients. */
  lemma EveryRunIsSafe(clients: nat, run: seq<Step>)
    requires IsRun(Start(clients), run)
    ensures var s := After(Start(clients), run);
            && NoLostWakeup(s)
            && s.sem + Count(s.phase, Tried) <= clients
            && s.loaded == Loads(run)
            && |Loads(run)| == |s.dispatched| + s.sem + (if s.copying then 1 else 0) + Takes(run) + InFlight(s)
            && (forall r :: r in s.dispatched ==> r in Loads(run))
  {
    StartHolds(clients);
    RunKeeps(Start(clients), run);
    RunsAreTraces(clients, run);
  }

  // ----- the latest request is delivered

  /** How many steps other than slot writes can follow at most. */
  function Weight(s: State): nat {
    4 * Count(s.phase, Written) + 3 * Count(s.phase, Tried) + 2 * s.sem + (if s.copying then 1 else 0)
  }

  predicate WriteFree(run: seq<Step>) {
    forall i :: 0 <= i < |run| ==> !run[i].Write?
  }

  /** No process can do anything but write another request. */
  predicate Settled(s: State) {
    && !Enabled(s, Wait) && !Enabled(s, Copy)
    && forall c :: 0 <= c < |s.phase| ==> !Enabled(s, TryWait(c)) && !Enabled(s, Post(c))
  }

  lemma {:induction false} WriteFreeRunsEnd(s: State, run: seq<Step>)
    requires IsRun(s, run) && WriteFree(run)
    ensures |run| + Weight(After(s, run)) <= Weight(s)
    ensures After(s, run).loaded == s.loaded
    decreases |run|
  {
    if run != [] {
      CountsAfter(s, run[0]);
      WriteFreeRunsEnd(Next(s, run[0]), run[1..]);
    }
  }

  /** From any reachable state, once clients stop writing, every way of going on comes to rest
      within a bounded number of steps, and at rest the latest request has been dispatched. */
  lemma LatestRequestDelivered(clients: nat, before: seq<Step>, after: seq<Step>)
    requires IsRun(Start(clients), before)
    requires IsRun(After(Start(clients), before), after) && WriteFree(after)
    ensures var s := After(Start(clients), before);
            var t := After(s, after);
            && |after| <= Weight(s)
            && (Settled(t) && s.loaded != [] ==>
                  t.dispatched != [] && t.dispatched[|t.dispatched| - 1] == s.loaded[|s.loaded| - 1])
  {
    StartHolds(clients);
    RunKeeps(Start(clients), before);
    var s := After(Start(clients), before);
    RunKeeps(s, after);
    WriteFreeRunsEnd(s, after);
    var t := After(s, after);
    if Settled(t) {
      forall c | 0 <= c < |t.phase|
        ensures t.phase[c] != Written && t.phase[c] != Tried
      {
        assert !Enabled(t, TryWait(c)) && !Enabled(t, Post(c));
      }
      CountZero(t.phase, Written);
      CountZero(t.phase, Tried);
      assert Tokens(t) == 0;
    }
  }

  // ----- exactly-once delivery

  /** Every request is written only after the one before it has been copied. */
  predicate Serialised(s: State, run: seq<Step>)
    requires IsRun(s, run)
    decreases |run|
  {
    run == [] || ((run[0].Write? ==> !s.pending) && Serialised(Next(s, run[0]), run[1..]))
  }

  /** All loads but a last one not yet copied have been dispatched, once each and in order. */
  predicate Delivered(s: State) {
    s.loaded == s.dispatched + (if s.pending then [s.slot] else [])
  }

  predicate AlwaysDelivered(s: State, run: seq<Step>)
    requires IsRun(s, run)
    decreases |run|
  {
    Delivered(s) && (run == [] || AlwaysDelivered(Next(s, run[0]), run[1..]))
  }

  /** What serialised loads keep: exactly one token while a request waits, none otherwise. */
  predicate Tight(s: State) {
    Tokens(s) == (if s.pending then 1 else 0) && Delivered(s)
  }

  lemma TightStep(s: State, a: Step)
    requires Inv(s) && Tight(s) && Enabled(s, a)
    requires a.Write? ==> !s.pending
    ensures Tight(Next(s, a))
  {
    CountsAfter(s, a);
    if a.TryWait? {
      CountUpdate(s.phase, a.client, Tried, Written);
    }
  }

  /** A write over a request that is still waiting breaks delivery at once. */
  lemma OverwriteLoses(s: State, a: Step)
    requires Delivered(s) && Enabled(s, a) && a.Write? && s.pending
    ensures !Delivered(Next(s, a))
  {
    assert |s.loaded| == |s.dispatched| + 1;
  }

  lemma {:induction false} DeliveredIff(s: State, run: seq<Step>)
    requires Inv(s) && Tight(s) && IsRun(s, run)
    ensures AlwaysDelivered(s, run) <==> Serialised(s, run)
    ensures Serialised(s, run) ==> Tight(After(s, run))
    decreases |run|
  {
    if run != [] {
      var a := run[0];
      if a.Write? && s.pending {
        OverwriteLoses(s, a);
      } else {
        StepKeeps(s, a);
        TightStep(s, a);
        DeliveredIff(Next(s, a), run[1..]);
      }
    }
  }

  /** The semaphore does not protect the slot: delivery is exactly-once and in order throughout a
      run if and only if the run never writes over a waiting request. */
  lemma ExactlyOnceIffSerialised(clients: nat, run: seq<Step>)
    requires IsRun(Start(clients), run)
    ensures AlwaysDelivered(Start(clients), run) <==> Serialised(Start(clients), run)
  {
    StartHolds(clients);
    DeliveredIff(Start(clients), run);
  }

  /** Two clients, one after the other, before the listener runs: the first request is never
      dispatched and the second is dispatched twice. */
  function CollidingRun(): seq<Step> {
    [Write(0, "a"), Write(1, "b"), TryWait(0), TryWait(1), Post(0), Post(1), Wait, Copy, Wait, Copy]
  }

  lemma CollisionLosesAndDuplicates()
    ensures IsRun(Start(2), CollidingRun())
    ensures After(Start(2), CollidingRun()).loaded == [Request(0, "a"), Request(1, "b")]
    ensures After(Start(2), CollidingRun()).dispatched == [Request(1, "b"), Request(1, "b")]
  {
    assert Start(2).phase == [Idle, Idle];
    CollisionEnds();
    TwoSteps(BothAt(Tried, 0), CollidingRun()[4..], BothAt(Idle, 2));
    TwoSteps(BothAt(Written, 0), CollidingRun()[2..], BothAt(Tried, 0));
    TwoSteps(Start(2), CollidingRun(), BothAt(Written, 0));
  }

  /** Both clients have loaded, the second over the first, and are at the same phase. */
  function BothAt(phase: Phase, posts: nat): State {
    State(Request(1, "b"), true, posts, [phase, phase], false, [Request(0, "a"), Request(1, "b")], [], posts, 0)
  }

  /** The listener then copies the second request twice. */
  lemma CollisionEnds()
    ensures var run := CollidingRun()[6..];
            && IsRun(BothAt(Idle, 2), run)
            && After(BothAt(Idle, 2), run) ==
               BothAt(Idle, 2).(sem := 0, pending := false, dispatched := [Request(1, "b"), Request(1, "b")])
  {
    var run, s6 := CollidingRun(), BothAt(Idle, 2);
    var s8 := s6.(sem := 1, pending := false, dispatched := [Request(1, "b")]);
    TwoSteps(s8, run[8..], s8.(sem := 0, dispatched := [Request(1, "b"), Request(1, "b")]));
    TwoSteps(s6, run[6..], s8);
  }

  lemma TwoSteps(s: State, run: seq<Step>, t: State)
    requires |run| >= 2 && Enabled(s, run[0]) && Enabled(Next(s, run[0]), run[1])
    requires Next(Next(s, run[0]), run[1]) == t && IsRun(t, run[2..])
    ensures IsRun(s, run) && After(s, run) == After(t, run[2..])
  {
    assert run[1..][1..] == run[2..];
  }
}
