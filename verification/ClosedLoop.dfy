// One client that writes a request, polls until it is ready and reads the response, again and
// again, while the worker, the handler and the DSP run at any pace beside it, and with it
// whatever calls of others are admitted.
module ClosedLoop {
  import opened Words
  import opened Protocol
  import opened Invariant
  import L = Liveness

  datatype Client =
    | Resting
    | Writing(id: U32)    // inside write, before the entry is linked
    | Written(id: U32)    // inside write, before the wake call
    | Polling(id: U32)    // polling until ready
    | Ready(id: U32)      // about to read

  // `rounds` lists what was written and what was read back.
  datatype Loop = Loop(s: State, client: Client, rounds: seq<(U32, U32)>)

  const ME: nat := 0

  ghost predicate LoopInit(l: Loop) {
    Init(l.s) && l.client == Resting && l.rounds == []
  }

  // The calls others make meanwhile.
  datatype Guests = Guests(poll: bool, write: bool, terminate: bool, open: bool, identify: bool)

  predicate ByClient(a: Action) {
    match a
    case WriteBegin(t, _) => t == ME
    case Append(t) => t == ME
    case WakeWorker(t) => t == ME
    case PollRegister(t) => t == ME
    case PollTest(t) => t == ME
    case PollResume(t) => t == ME
    case PollLeave(t) => t == ME
    case ReadResponse(t) => t == ME
    case _ => false
  }

  // The driver's steps, the guests' calls, and reading, which disturbs nobody.
  predicate Admitted(g: Guests, a: Action) {
    match a
    case WorkerAct => true
    case HandlerAct => true
    case DspRaise(_, _) => true
    case ReadResponse(_) => true
    case WriteBegin(_, _) => g.write
    case Append(_) => g.write
    case WakeWorker(_) => g.write
    case TerminateSet(_) => g.terminate
    case TerminateWake(_) => g.terminate
    case Open => g.open
    case Identify => g.identify
    case _ => g.poll
  }

  // The client makes its system calls in this order only.
  predicate ClientCall(l: Loop, a: Action, l': Loop) {
    match a
    case WriteBegin(_, req) => l.client == Resting && ClientTurns(l, l', Writing(req.reqId))
    case Append(_) => l.client.Writing? && ClientTurns(l, l', Written(l.client.id))
    case WakeWorker(_) => l.client.Written? && ClientTurns(l, l', Polling(l.client.id))
    case PollTest(_) =>
      l.client.Polling? && ClientTurns(l, l', if l.s.sh.irqEvent then Ready(l.client.id) else l.client)
    case ReadResponse(_) =>
      l.client.Ready? && l'.client == Resting && l'.rounds == l.rounds + [(l.client.id, l.s.sh.response)]
    case _ => l.client.Polling? && ClientStays(l, l')
  }

  predicate LoopStep(g: Guests, l: Loop, a: Action, l': Loop) {
    && Enabled(l.s, a) && l'.s == Next(l.s, a)
    && if ByClient(a) then ClientCall(l, a, l') else Admitted(g, a) && ClientStays(l, l')
  }

  // However stuck everyone may be, time goes on.
  lemma CanIdle(g: Guests, l: Loop)
    ensures LoopStep(g, l, ReadResponse(ME + 1), l)
  {
  }

  predicate ClientStays(l: Loop, l': Loop) {
    l'.client == l.client && l'.rounds == l.rounds
  }

  predicate ClientTurns(l: Loop, l': Loop, client': Client) {
    l'.client == client' && l'.rounds == l.rounds
  }

  ghost predicate LoopStepIn(g: Guests, loops: seq<Loop>, acts: seq<Action>, i: nat)
    requires i < |acts| && i + 1 < |loops|
  {
    LoopStep(g, loops[i], acts[i], loops[i + 1])
  }

  ghost predicate IsLoopRun(g: Guests, loops: seq<Loop>, acts: seq<Action>) {
    && |loops| == |acts| + 1
    && LoopInit(loops[0])
    && forall i :: 0 <= i < |acts| ==> LoopStepIn(g, loops, acts, i)
  }

  // ---- the invariant ----

  // The request is linked and its event has not been consumed.
  predicate Waiting(l: Loop) {
    l.client.Written? || l.client.Polling?
  }

  // Where the one answer still owed is: not published, being handled, or flagged.
  predicate Unpublished(s: State) {
    |s.published| < |s.enqueued|
  }

  predicate BeingHandled(s: State) {
    s.handler.Serving? && 1 <= s.handler.k <= 4
  }

  ghost predicate OneOwed(s: State) {
    && |s.enqueued| <= |s.published| + 1
    && (Unpublished(s) ==> !BeingHandled(s) && !s.sh.irqEvent)
    && (BeingHandled(s) ==> !s.sh.irqEvent)
    && (Unpublished(s) || BeingHandled(s) || s.sh.irqEvent)
  }

  ghost predicate NoneOwed(s: State) {
    !Unpublished(s) && !BeingHandled(s) && !s.sh.irqEvent
  }

  ghost predicate ResponseInv(s: State) {
    s.published != [] ==> s.sh.response == s.published[|s.published| - 1]
  }

  ghost predicate ClientInv(l: Loop) {
    && (l.client.Writing? ==> ME in l.s.writers && l.s.writers[ME].Appending? && l.s.writers[ME].req.reqId == l.client.id)
    && (Waiting(l) || l.client.Ready? ==>
          l.s.enqueued != [] && l.s.enqueued[|l.s.enqueued| - 1].req.reqId == l.client.id)
  }

  // Every finished round has read back the id it wrote.
  predicate Matches(l: Loop) {
    forall i :: 0 <= i < |l.rounds| ==> l.rounds[i].1 == l.rounds[i].0
  }

  // Another poller may take the answer's event away; nobody else adds to what is owed.
  ghost predicate MatchInv(g: Guests, l: Loop) {
    && ResponseInv(l.s)
    && ClientInv(l)
    && (if Waiting(l) then OneOwed(l.s) || (g.poll && NoneOwed(l.s)) else NoneOwed(l.s))
    && l.s.terminators == {}
    && Matches(l)
  }

  ghost predicate LoopInv(g: Guests, l: Loop) {
    Inv(l.s) && MatchInv(g, l)
  }

  // Nobody else writes, terminates, opens or identifies.
  predicate Undisturbed(g: Guests) {
    !g.write && !g.terminate && !g.open && !g.identify
  }

  // When nothing is owed the response register holds the id written last.
  lemma ResponseIsLast(s: State)
    requires Inv(s) && ResponseInv(s) && NoneOwed(s) && s.enqueued != []
    ensures s.sh.response == s.enqueued[|s.enqueued| - 1].req.reqId
  {
    DispatchedPrefix(s);
  }

  lemma DispatchedPrefix(s: State)
    requires QueueInv(s)
    ensures |s.dispatched| <= |s.enqueued| && s.dispatched == s.enqueued[..|s.dispatched|]
  {
    if Marked(s.worker) {
      assert s.queue == [s.worker.e] + s.queue[1..];
      assert s.enqueued == s.dispatched + s.queue[1..];
    } else {
      assert s.enqueued == s.dispatched + s.queue;
    }
  }

  lemma HandlerKeepsOwed(s: State, s': State)
    requires QueueInv(s) && CountInv(s) && ResponseInv(s) && HandlerStep(s, s')
    ensures ResponseInv(s')
    ensures OneOwed(s) ==> OneOwed(s')
    ensures NoneOwed(s) ==> NoneOwed(s')
    ensures s'.enqueued == s.enqueued && s'.writers == s.writers
  {
    DispatchedPrefix(s);
  }

  // The worker and the DSP publish nothing and set no flag.
  lemma OthersKeepOwed(s: State, a: Action)
    requires Inv(s) && Enabled(s, a) && (a.WorkerAct? || a.DspRaise?)
    ensures var s' := Next(s, a);
            && s'.enqueued == s.enqueued && s'.published == s.published && s'.handler == s.handler
            && s'.sh.irqEvent == s.sh.irqEvent && s'.sh.response == s.sh.response && s'.writers == s.writers
            && s'.terminators == s.terminators
  {
    if a == WorkerAct {
      if s.worker.Running? {
        RunNextIsRunStep(s);
      } else {
        WorkerStepIsQuiet(s);
      }
    }
  }

  lemma MatchFramed(g: Guests, l: Loop, l': Loop)
    requires MatchInv(g, l) && ClientStays(l, l')
    requires ResponseInv(l'.s) && l'.s.enqueued == l.s.enqueued && l'.s.writers == l.s.writers
    requires l'.s.terminators == l.s.terminators
    requires OneOwed(l.s) ==> OneOwed(l'.s)
    requires NoneOwed(l.s) ==> NoneOwed(l'.s)
    ensures MatchInv(g, l')
  {
  }

  lemma HandlerMoveKept(g: Guests, l: Loop, l': Loop)
    requires LoopInv(g, l) && LoopStep(g, l, HandlerAct, l')
    ensures MatchInv(g, l')
  {
    HandlerNextIsHandlerStep(l.s);
    HandlerKeepsOwed(l.s, l'.s);
    MatchFramed(g, l, l');
  }

  lemma OtherMoveKept(g: Guests, l: Loop, a: Action, l': Loop)
    requires LoopInv(g, l) && LoopStep(g, l, a, l') && (a.WorkerAct? || a.DspRaise?)
    ensures MatchInv(g, l')
  {
    OthersKeepOwed(l.s, a);
    MatchFramed(g, l, l');
  }

  predicate IsPoll(a: Action) {
    a.PollTest? || a.PollRegister? || a.PollResume? || a.PollLeave?
  }

  lemma GuestKept(g: Guests, l: Loop, a: Action, l': Loop)
    requires MatchInv(g, l) && LoopStep(g, l, a, l') && !ByClient(a) && (IsPoll(a) || a.ReadResponse?)
    ensures MatchInv(g, l')
  {
  }

  lemma AppendOwesOne(s: State, s': State, e: Entry)
    requires NoneOwed(s) && |s.published| <= |s.enqueued| && AppendStep(s, s', e)
    ensures OneOwed(s')
  {
  }

  lemma PublishedBound(s: State)
    requires Inv(s)
    ensures |s.published| <= |s.enqueued|
  {
    DispatchedPrefix(s);
    assert |s.published| <= |s.dispatched|;
  }

  // The client's request is now the last one linked, and it waits for the answer.
  lemma AppendedIsLast(g: Guests, l: Loop, l': Loop)
    requires ClientInv(l) && LoopStep(g, l, Append(ME), l')
    ensures ClientInv(l') && Waiting(l') && !Waiting(l)
    ensures l'.rounds == l.rounds && l'.s.terminators == l.s.terminators
    ensures l'.s.published == l.s.published && l'.s.sh == l.s.sh
    ensures AppendStep(l.s, l'.s, Entry(|l.s.enqueued|, l.s.writers[ME].req))
  {
  }

  lemma AppendKept(g: Guests, l: Loop, l': Loop)
    requires LoopInv(g, l) && LoopStep(g, l, Append(ME), l')
    ensures MatchInv(g, l')
  {
    PublishedBound(l.s);
    AppendedIsLast(g, l, l');
    AppendOwesOne(l.s, l'.s, Entry(|l.s.enqueued|, l.s.writers[ME].req));
  }

  lemma CallKept(g: Guests, l: Loop, a: Action, l': Loop)
    requires MatchInv(g, l) && LoopStep(g, l, a, l') && ByClient(a) && (a.WriteBegin? || a.WakeWorker?)
    ensures MatchInv(g, l')
  {
  }

  lemma PollKept(g: Guests, l: Loop, a: Action, l': Loop)
    requires MatchInv(g, l) && LoopStep(g, l, a, l') && ByClient(a) && IsPoll(a)
    ensures MatchInv(g, l')
  {
  }

  lemma LoopKept(g: Guests, l: Loop, a: Action, l': Loop)
    requires Undisturbed(g) && LoopInv(g, l) && LoopStep(g, l, a, l')
    ensures LoopInv(g, l')
  {
    InvKept(l.s, a);
    MatchKept(g, l, a, l');
  }

  lemma MatchKept(g: Guests, l: Loop, a: Action, l': Loop)
    requires Undisturbed(g) && LoopInv(g, l) && LoopStep(g, l, a, l')
    ensures MatchInv(g, l')
  {
    if a.HandlerAct? {
      HandlerMoveKept(g, l, l');
    } else if a.WorkerAct? || a.DspRaise? {
      OtherMoveKept(g, l, a, l');
    } else if !ByClient(a) {
      GuestKept(g, l, a, l');
    } else if a.Append? {
      AppendKept(g, l, l');
    } else if a.WriteBegin? || a.WakeWorker? {
      CallKept(g, l, a, l');
    } else if a.ReadResponse? {
      ResponseIsLast(l.s);
    } else {
      PollKept(g, l, a, l');
    }
  }

  // Closed-loop matching: every round reads back the id it wrote, however the other actors
  // are interleaved, also when the worker has not unlinked the previous entry yet or the
  // handler of the previous round is still before its wake-up, and although others poll and read.
  lemma {:induction false} EveryRoundMatches(g: Guests, loops: seq<Loop>, acts: seq<Action>, i: nat)
    requires Undisturbed(g) && IsLoopRun(g, loops, acts) && i < |loops|
    ensures LoopInv(g, loops[i]) && Matches(loops[i])
  {
    if i == 0 {
      InitInv(loops[0].s);
    } else {
      EveryRoundMatches(g, loops, acts, i - 1);
      LoopStepKept(g, loops, acts, i - 1);
    }
  }

  lemma LoopStepKept(g: Guests, loops: seq<Loop>, acts: seq<Action>, i: nat)
    requires Undisturbed(g) && IsLoopRun(g, loops, acts) && i < |acts| && LoopInv(g, loops[i])
    ensures LoopInv(g, loops[i + 1])
  {
    assert LoopStepIn(g, loops, acts, i);
    LoopKept(g, loops[i], acts[i], loops[i + 1]);
  }

  // ---- every round ends ----

  // Others at most read.
  predicate Alone(g: Guests) {
    Undisturbed(g) && !g.poll
  }

  ghost predicate LoopStepAt(g: Guests, loop: nat -> Loop, act: nat -> Action, i: nat) {
    LoopStep(g, loop(i), act(i), loop(i + 1))
  }

  ghost predicate IsInfiniteLoop(g: Guests, loop: nat -> Loop, act: nat -> Action) {
    LoopInv(g, loop(0)) && forall i: nat :: LoopStepAt(g, loop, act, i)
  }

  function Driver(loop: nat -> Loop): nat -> State {
    (i: nat) => loop(i).s
  }

  // What a polling client can do by itself. While it sleeps and nobody has woken it, nothing.
  predicate ClientCanAct(l: Loop) {
    && l.client.Polling?
    && (Enabled(l.s, PollRegister(ME)) || Enabled(l.s, PollTest(ME)) || Enabled(l.s, PollResume(ME)))
  }

  predicate ClientActs(a: Action) {
    a == PollRegister(ME) || a == PollTest(ME) || a == PollResume(ME)
  }

  // Whatever of these the transition system allows, the client may do.
  lemma ClientMayAct(g: Guests, l: Loop, a: Action)
    requires l.client.Polling? && ClientActs(a) && Enabled(l.s, a)
    ensures exists l' :: LoopStep(g, l, a, l')
  {
    var s' := Next(l.s, a);
    var told := a == PollTest(ME) && l.s.sh.irqEvent;
    assert LoopStep(g, l, a, Loop(s', if told then Ready(l.client.id) else l.client, l.rounds));
  }

  // At step j the client moves, or is unable to.
  ghost predicate ClientServed(loop: nat -> Loop, act: nat -> Action, j: nat) {
    ClientActs(act(j)) || !ClientCanAct(loop(j))
  }

  ghost predicate ClientServedAfter(loop: nat -> Loop, act: nat -> Action, i: nat) {
    exists j: nat :: i <= j && ClientServed(loop, act, j)
  }

  // Weak fairness for the client's own steps, as for the driver's actors.
  ghost predicate ClientFair(loop: nat -> Loop, act: nat -> Action) {
    forall i: nat :: ClientServedAfter(loop, act, i)
  }

  ghost predicate NeverGivesUp(act: nat -> Action) {
    forall i: nat :: act(i) != PollLeave(ME)
  }

  ghost predicate PollsFrom(loop: nat -> Loop, i: nat) {
    forall j: nat :: i <= j ==> loop(j).client.Polling?
  }

  predicate Inherits(good: nat -> bool, k: nat) {
    good(k) ==> good(k + 1)
  }

  lemma {:induction false} AlwaysGood(good: nat -> bool, i: nat)
    requires good(0) && forall k: nat :: Inherits(good, k)
    ensures good(i)
  {
    if i > 0 {
      AlwaysGood(good, i - 1);
      assert Inherits(good, i - 1);
    }
  }

  lemma InfiniteLoopInv(g: Guests, loop: nat -> Loop, act: nat -> Action, i: nat)
    requires Undisturbed(g) && IsInfiniteLoop(g, loop, act)
    ensures LoopInv(g, loop(i))
  {
    var good := (k: nat) => LoopInv(g, loop(k));
    forall k: nat
      ensures Inherits(good, k)
    {
      if LoopInv(g, loop(k)) {
        InfiniteStepKept(g, loop, act, k);
      }
    }
    AlwaysGood(good, i);
  }

  lemma InfiniteStepKept(g: Guests, loop: nat -> Loop, act: nat -> Action, i: nat)
    requires Undisturbed(g) && IsInfiniteLoop(g, loop, act) && LoopInv(g, loop(i))
    ensures LoopInv(g, loop(i + 1))
  {
    assert LoopStepAt(g, loop, act, i);
    LoopKept(g, loop(i), act(i), loop(i + 1));
  }

  lemma DriverRuns(g: Guests, loop: nat -> Loop, act: nat -> Action)
    requires IsInfiniteLoop(g, loop, act)
    ensures L.IsInfiniteRun(Driver(loop), act)
  {
    forall i: nat
      ensures L.StepOf(Driver(loop), act, i)
    {
      assert LoopStepAt(g, loop, act, i);
    }
  }

  // The client polls from i up to j, or has been told to read on the way.
  lemma {:induction false} PollsOn(g: Guests, loop: nat -> Loop, act: nat -> Action, i: nat, j: nat) returns (m: nat)
    requires IsInfiniteLoop(g, loop, act) && loop(i).client.Polling? && i <= j
    ensures i <= m <= j
    ensures loop(m).client == Ready(loop(i).client.id) || (m == j && loop(j).client == loop(i).client)
    decreases j
  {
    if i == j {
      return j;
    }
    m := PollsOn(g, loop, act, i, j - 1);
    if loop(m).client != Ready(loop(i).client.id) {
      assert LoopStepAt(g, loop, act, j - 1);
      m := j;
    }
  }

  predicate Testing(s: State) {
    ME in s.pollers && s.pollers[ME].Testing?
  }

  // Once the driver is drained the flag is set and the client has been woken, if it slept.
  lemma DrainedWakesClient(g: Guests, l: Loop)
    requires !g.poll && LoopInv(g, l) && L.Drained(l.s) && l.client.Polling?
    ensures l.s.sh.irqEvent && ClientCanAct(l)
  {
  }

  // From then on a step of the client makes it test the flag, or ends the wait if it was
  // about to test it; the other actors leave it where it is.
  lemma DrainedClientStep(g: Guests, l: Loop, a: Action, l': Loop)
    requires Alone(g) && LoopInv(g, l) && LoopStep(g, l, a, l')
    requires L.Drained(l.s) && l.client.Polling? && a != PollLeave(ME)
    ensures ClientActs(a) && Testing(l.s) ==> l'.client == Ready(l.client.id)
    ensures l'.client.Polling? && (ClientActs(a) || Testing(l.s)) ==> Testing(l'.s)
  {
    if a == WorkerAct {
      WorkerStepIsQuiet(l.s);
    } else if ClientActs(a) {
      DrainedWakesClient(g, l);
    }
  }

  ghost predicate DrainedWait(g: Guests, loop: nat -> Loop, act: nat -> Action, d: nat) {
    Alone(g) && IsInfiniteLoop(g, loop, act) && NeverGivesUp(act) && PollsFrom(loop, d) && L.Drained(loop(d).s)
  }

  lemma DrainedWaitGoesOn(g: Guests, loop: nat -> Loop, act: nat -> Action, d: nat, j: nat)
    requires DrainedWait(g, loop, act, d) && d <= j
    ensures DrainedWait(g, loop, act, j) && LoopInv(g, loop(j)) && LoopStepAt(g, loop, act, j)
  {
    DriverRuns(g, loop, act);
    PollingWritesNothing(g, loop, act, d);
    L.StaysDrained(Driver(loop), act, d, j);
    InfiniteLoopInv(g, loop, act, j);
  }

  lemma DrainedWaitStep(g: Guests, loop: nat -> Loop, act: nat -> Action, j: nat)
    requires DrainedWait(g, loop, act, j)
    ensures !(ClientActs(act(j)) && Testing(loop(j).s))
    ensures ClientActs(act(j)) || Testing(loop(j).s) ==> Testing(loop(j + 1).s)
    ensures DrainedWait(g, loop, act, j + 1)
  {
    DrainedWaitGoesOn(g, loop, act, j, j);
    DrainedWaitGoesOn(g, loop, act, j, j + 1);
    assert act(j) != PollLeave(ME);
    DrainedClientStep(g, loop(j), act(j), loop(j + 1));
    assert loop(j + 1).client.Polling?;
  }

  lemma {:induction false} TestingStays(g: Guests, loop: nat -> Loop, act: nat -> Action, d: nat, j: nat)
    requires DrainedWait(g, loop, act, d) && Testing(loop(d).s) && d <= j
    ensures Testing(loop(j).s)
    decreases j - d
  {
    if d < j {
      DrainedWaitStep(g, loop, act, d);
      TestingStays(g, loop, act, d + 1, j);
    }
  }

  lemma ClientMoves(g: Guests, loop: nat -> Loop, act: nat -> Action, d: nat) returns (j: nat)
    requires DrainedWait(g, loop, act, d) && ClientFair(loop, act)
    ensures d <= j && DrainedWait(g, loop, act, j + 1)
    ensures Testing(loop(j + 1).s) && !Testing(loop(j).s)
  {
    assert ClientServedAfter(loop, act, d);
    j :| d <= j && ClientServed(loop, act, j);
    DrainedWaitGoesOn(g, loop, act, d, j);
    DrainedWakesClient(g, loop(j));
    DrainedWaitStep(g, loop, act, j);
  }

  // The client's first step after the drained state brings it to the test, its second step
  // is a test that succeeds.
  lemma DrainedWaitEnds(g: Guests, loop: nat -> Loop, act: nat -> Action, d: nat)
    requires Alone(g) && IsInfiniteLoop(g, loop, act) && ClientFair(loop, act) && NeverGivesUp(act)
    requires L.Drained(loop(d).s)
    ensures !PollsFrom(loop, d)
  {
    if PollsFrom(loop, d) {
      var j := ClientMoves(g, loop, act, d);
      var k := ClientMoves(g, loop, act, j + 1);
      TestingStays(g, loop, act, j + 1, k);
      assert false;
    }
  }

  // With a fair driver and a fair client that does not give up, every wait ends with the
  // client told to read; EveryRoundMatches says what it reads.
  lemma EveryWaitEnds(g: Guests, loop: nat -> Loop, act: nat -> Action, i: nat) returns (r: nat)
    requires Alone(g) && IsInfiniteLoop(g, loop, act) && L.Fair(Driver(loop), act)
    requires ClientFair(loop, act) && NeverGivesUp(act)
    requires loop(i).client.Polling?
    ensures i <= r && loop(r).client == Ready(loop(i).client.id)
  {
    if PollsFrom(loop, i) {
      PollingWritesNothing(g, loop, act, i);
      DriverRuns(g, loop, act);
      var d := L.EventuallyDrained(Driver(loop), act, i);
      DrainedWaitEnds(g, loop, act, d);
      assert false;
    }
    var j: nat :| i <= j && !loop(j).client.Polling?;
    r := PollsOn(g, loop, act, i, j);
  }

  lemma PollingWritesNothing(g: Guests, loop: nat -> Loop, act: nat -> Action, i: nat)
    requires Undisturbed(g) && IsInfiniteLoop(g, loop, act) && PollsFrom(loop, i)
    ensures L.NoWritesFrom(act, i)
  {
    forall j: nat | i <= j
      ensures !act(j).Append?
    {
      assert LoopStepAt(g, loop, act, j);
    }
  }
}
