// What the closed loop depends on: every kind of call by others that is not admitted there
// breaks it, by a run that begins with initialisation.
module Disturbed {
  import opened Words
  import opened Message
  import opened Registers
  import opened Slots
  import opened Protocol
  import opened Uninterrupted
  import opened ClosedLoop
  import L = Liveness

  // ---- reaching a state ----

  ghost predicate LeadsTo(g: Guests, loops: seq<Loop>, acts: seq<Action>, l: Loop) {
    && IsLoopRun(g, loops, acts) && loops[|acts|] == l
    && forall i :: 0 <= i < |acts| ==> acts[i] != PollLeave(ME)
  }

  // Some run in which the client does not give up ends in l.
  ghost predicate Reaches(g: Guests, l: Loop) {
    exists loops, acts :: LeadsTo(g, loops, acts, l)
  }

  lemma ReachInit(g: Guests, l: Loop)
    requires LoopInit(l)
    ensures Reaches(g, l)
  {
    assert LeadsTo(g, [l], [], l);
  }

  lemma ReachStep(g: Guests, l: Loop, a: Action, l': Loop)
    requires Reaches(g, l) && LoopStep(g, l, a, l') && a != PollLeave(ME)
    ensures Reaches(g, l')
  {
    var loops, acts :| LeadsTo(g, loops, acts, l);
    var loops', acts' := loops + [l'], acts + [a];
    forall i | 0 <= i < |acts'|
      ensures LoopStepIn(g, loops', acts', i)
    {
      if i < |acts| {
        assert LoopStepIn(g, loops, acts, i);
      }
    }
    assert LeadsTo(g, loops', acts', l');
  }

  // A step of the driver or of a guest.
  lemma ReachOther(g: Guests, l: Loop, a: Action)
    requires Reaches(g, l) && Enabled(l.s, a) && !ByClient(a) && Admitted(g, a)
    ensures Reaches(g, l.(s := Next(l.s, a)))
  {
    ReachStep(g, l, a, l.(s := Next(l.s, a)));
  }

  lemma {:induction false} ReachRepeat(g: Guests, l: Loop, a: Action, n: nat)
    requires Reaches(g, l) && (a == WorkerAct || a == HandlerAct)
    ensures Reaches(g, l.(s := Repeat(l.s, a, n)))
  {
    if n == 0 {
      assert l.(s := Repeat(l.s, a, n)) == l;
    } else {
      ReachRepeat(g, l, a, n - 1);
      ReachTick(g, l.(s := Repeat(l.s, a, n - 1)), a);
    }
  }

  lemma ReachTick(g: Guests, l: Loop, a: Action)
    requires Reaches(g, l) && (a == WorkerAct || a == HandlerAct)
    ensures Reaches(g, l.(s := Tick(a)(l.s)))
  {
    if Enabled(l.s, a) {
      ReachOther(g, l, a);
    } else {
      assert l.(s := Tick(a)(l.s)) == l;
    }
  }

  // ---- whole calls ----

  function Linked(s: State, req: Request): State {
    var e := Entry(|s.enqueued|, req);
    s.(queue := s.queue + [e], enqueued := s.enqueued + [e])
  }

  // A write while the worker is not waiting.
  lemma ReachWrite(g: Guests, l: Loop, t: nat, req: Request) returns (l': Loop)
    requires Reaches(g, l) && t !in l.s.writers && l.s.worker == Check
    requires if t == ME then l.client == Resting else g.write
    ensures l' == Loop(Linked(l.s, req), if t == ME then Polling(req.reqId) else l.client, l.rounds)
    ensures Reaches(g, l')
  {
    var s1 := Next(l.s, WriteBegin(t, req));
    var s2 := Next(s1, Append(t));
    var s3 := Next(s2, WakeWorker(t));
    var l1 := Loop(s1, if t == ME then Writing(req.reqId) else l.client, l.rounds);
    var l2 := Loop(s2, if t == ME then Written(req.reqId) else l.client, l.rounds);
    l' := Loop(s3, if t == ME then Polling(req.reqId) else l.client, l.rounds);
    ReachStep(g, l, WriteBegin(t, req), l1);
    ReachStep(g, l1, Append(t), l2);
    ReachStep(g, l2, WakeWorker(t), l');
    assert s3.writers == l.s.writers;
  }

  predicate AtRest(s: State) {
    && s.worker == Check && s.handler == Quiet && s.sh.status != BUSY && !s.sh.ch0 && !s.sh.ch1
    && s.raised == s.started && |s.sh.sram| == SRAM_WORDS
  }

  // Dispatched and completed, before the interrupt.
  function Raised(s: State): State
    requires s.queue != []
  {
    var s' := AfterTurn(s, s.queue[0]);
    s'.(raised := s'.raised + 1, sh := s'.sh.(ch0 := true, ch1 := true))
  }

  // The first request dispatched, answered and handled, its entry unlinked.
  function Served(s: State): State
    requires s.queue != []
  {
    MidInterrupt(Raised(s), HANDLER_LEN)
  }

  lemma RaisedIsNext(s: State)
    requires s.queue != [] && s.raised == s.started
    ensures var sent := AfterTurn(s, s.queue[0]);
            Enabled(sent, DspRaise(true, true)) && Next(sent, DspRaise(true, true)) == Raised(s)
  {
  }

  lemma ReachRaised(g: Guests, l: Loop)
    requires Reaches(g, l) && AtRest(l.s) && l.s.queue != []
    ensures Reaches(g, l.(s := Raised(l.s)))
  {
    ReachSent(g, l, RunLen(l.s.queue[0].req) + 4);
    RaisedIsNext(l.s);
    ReachOther(g, l.(s := AfterTurn(l.s, l.s.queue[0])), DspRaise(true, true));
  }

  lemma ReachSent(g: Guests, l: Loop, n: nat)
    requires Reaches(g, l) && AtRest(l.s) && l.s.queue != [] && n == RunLen(l.s.queue[0].req) + 4
    ensures Reaches(g, l.(s := AfterTurn(l.s, l.s.queue[0])))
  {
    TurnAlone(l.s);
    ReachRepeat(g, l, WorkerAct, n);
  }

  lemma ReachServed(g: Guests, l: Loop)
    requires Reaches(g, l) && AtRest(l.s) && l.s.queue != []
    ensures Reaches(g, l.(s := Served(l.s)))
  {
    ReachRaised(g, l);
    InterruptAlone(Raised(l.s), HANDLER_LEN);
    ReachRepeat(g, l.(s := Raised(l.s)), HandlerAct, HANDLER_LEN + 1);
  }

  lemma ServedEffect(s: State)
    requires AtRest(s) && s.queue != [] && FitsSlot(s.queue[0].req)
    ensures var req, s' := s.queue[0].req, Served(s);
            && s'.sh.response == req.reqId && s'.sh.irqEvent && AtRest(s')
            && (s.pollers == map[] ==> s'.pollers == map[])
  {
    var req := s.queue[0].req;
    RunWritesSlot(s.sh, req);
    InterruptEffect(ExecRun(s.sh, req, RunLen(req)).(ch0 := true, ch1 := true));
  }

  function Tested(s: State): State {
    s.(sh := s.sh.(irqEvent := false), readyPolls := s.readyPolls + 1)
  }

  // A poll that finds the flag set.
  lemma ReachReadyPoll(g: Guests, l: Loop, t: nat) returns (l': Loop)
    requires Reaches(g, l) && t !in l.s.pollers && l.s.sh.irqEvent
    requires if t == ME then l.client.Polling? else g.poll
    ensures l' == Loop(Tested(l.s), if t == ME then Ready(l.client.id) else l.client, l.rounds)
    ensures Reaches(g, l')
  {
    var l1 := l.(s := Next(l.s, PollRegister(t)));
    ReachStep(g, l, PollRegister(t), l1);
    l' := Loop(Next(l1.s, PollTest(t)), if t == ME then Ready(l.client.id) else l.client, l.rounds);
    ReachStep(g, l1, PollTest(t), l');
    assert l'.s.pollers == l.s.pollers;
  }

  // A read whose answer is not the request's ends a round that does not match.
  lemma ReadBreaks(g: Guests, l: Loop) returns (bad: Loop)
    requires Reaches(g, l) && l.client.Ready? && l.s.sh.response != l.client.id
    ensures Reaches(g, bad) && !Matches(bad) && bad.s == l.s
  {
    bad := Loop(l.s, Resting, l.rounds + [(l.client.id, l.s.sh.response)]);
    ReachStep(g, l, ReadResponse(ME), bad);
    assert bad.rounds[|l.rounds|] == (l.client.id, l.s.sh.response);
  }

  // ---- one run per kind of guest ----

  function Plain(id: U32): Request {
    RawRequest(id, Header(0, 0, 0, 0, 0), seq(LOADABLE_WORDS, _ => 0))
  }

  function Started(): State {
    State(Shared(0, seq(SRAM_WORDS, _ => 0), [], 0, 0, false, false, false),
          [], Check, Quiet, map[], map[], {}, [], [], [], [], 0, 0, 0, 0, 0, 0)
  }

  // The client polls for its first request, which the driver has not begun.
  lemma ReachAsked(g: Guests, s: State, req: Request) returns (l: Loop)
    requires Init(s)
    ensures Reaches(g, l) && l == Loop(Linked(s, req), Polling(req.reqId), [])
  {
    ReachInit(g, Loop(s, Resting, []));
    l := ReachWrite(g, Loop(s, Resting, []), ME, req);
  }

  // The client has been told to read the answer to request 1.
  lemma ReachReady(g: Guests) returns (l: Loop)
    ensures Reaches(g, l) && l.client == Ready(1)
  {
    l := ReachAsked(g, Started(), Plain(1));
    ReachServed(g, l);
    ServedEffect(l.s);
    l := ReachReadyPoll(g, l.(s := Served(l.s)), ME);
  }

  // Another writer's answer is taken for one's own.
  lemma WriteBreaks(g: Guests) returns (bad: Loop)
    requires g.write
    ensures Reaches(g, bad) && !Matches(bad)
  {
    ReachInit(g, Loop(Started(), Resting, []));
    var l := ReachWrite(g, Loop(Started(), Resting, []), ME + 1, Plain(2));
    l := ReachWrite(g, l, ME, Plain(1));
    assert l.s.queue[0].req == Plain(2);
    ReachServed(g, l);
    ServedEffect(l.s);
    l := ReachReadyPoll(g, l.(s := Served(l.s)), ME);
    bad := ReadBreaks(g, l);
  }

  // A terminate call makes the poll ready before anything has been dispatched.
  lemma TerminateBreaks(g: Guests, s: State, req: Request) returns (bad: Loop)
    requires g.terminate && Init(s) && s.sh.response != req.reqId
    ensures Reaches(g, bad) && !Matches(bad) && bad.s.dispatched == []
  {
    var l := ReachAsked(g, s, req);
    ReachOther(g, l, TerminateSet(1));
    l := ReachReadyPoll(g, l.(s := Next(l.s, TerminateSet(1))), ME);
    bad := ReadBreaks(g, l);
  }

  // Opening and identifying clear the response before it is read.
  lemma ClearingBreaks(g: Guests) returns (bad: Loop)
    requires g.open || g.identify
    ensures Reaches(g, bad) && !Matches(bad)
  {
    var l := ReachReady(g);
    var a := if g.open then Open else Identify;
    ReachOther(g, l, a);
    bad := ReadBreaks(g, l.(s := Next(l.s, a)));
  }

  lemma GuestBreaks(g: Guests) returns (bad: Loop)
    requires !Undisturbed(g)
    ensures Reaches(g, bad) && !Matches(bad)
  {
    if g.write {
      bad := WriteBreaks(g);
    } else if g.terminate {
      bad := TerminateBreaks(g, Started(), Plain(1));
    } else {
      bad := ClearingBreaks(g);
    }
  }

  ghost predicate MatchesAtEnd(loops: seq<Loop>, acts: seq<Action>)
    requires |loops| == |acts| + 1
  {
    Matches(loops[|acts|])
  }

  // All rounds of all runs match if and only if nobody else writes, terminates, opens or
  // identifies. Others may poll.
  lemma MatchingExactly(g: Guests)
    ensures (forall loops, acts :: IsLoopRun(g, loops, acts) ==> MatchesAtEnd(loops, acts)) <==> Undisturbed(g)
  {
    if Undisturbed(g) {
      forall loops, acts | IsLoopRun(g, loops, acts)
        ensures MatchesAtEnd(loops, acts)
      {
        EveryRoundMatches(g, loops, acts, |acts|);
      }
    } else {
      var bad := GuestBreaks(g);
      var loops, acts :| LeadsTo(g, loops, acts, bad);
      assert !MatchesAtEnd(loops, acts);
    }
  }

  // ---- another poller ----

  // Nothing but time can go on: the client sleeps, everyone else has nothing to do.
  ghost predicate Starved(l: Loop) {
    && l.client.Polling? && ME in l.s.pollers && l.s.pollers[ME] == Sleeping(false)
    && l.s.worker == Parked(false) && l.s.handler == Quiet && !l.s.sh.ch0 && !l.s.sh.ch1
    && l.s.raised == l.s.started && l.s.writers == map[]
  }

  // Another poller takes the event away.
  lemma ReachStolen(g: Guests) returns (l: Loop)
    requires g.poll
    ensures Reaches(g, l) && l.client.Polling? && !l.s.sh.irqEvent
    ensures AtRest(l.s) && l.s.queue == [] && l.s.writers == map[] && l.s.pollers == map[]
  {
    l := ReachAsked(g, Started(), Plain(1));
    ReachServed(g, l);
    ServedEffect(l.s);
    l := ReachReadyPoll(g, l.(s := Served(l.s)), ME + 1);
  }

  // The worker finds nothing to do and the client sleeps on a clear flag.
  lemma ReachStarved(g: Guests) returns (l: Loop)
    requires g.poll
    ensures Reaches(g, l) && Starved(l)
  {
    l := ReachStolen(g);
    WaitAlone(l.s, 2);
    ReachRepeat(g, l, WorkerAct, 2);
    l := ReachAsleep(g, l.(s := l.s.(worker := Parked(false))));
  }

  lemma ReachAsleep(g: Guests, l: Loop) returns (l': Loop)
    requires Reaches(g, l) && l.client.Polling? && ME !in l.s.pollers && !l.s.sh.irqEvent
    ensures Reaches(g, l') && l' == l.(s := l.s.(pollers := l.s.pollers[ME := Sleeping(false)]))
  {
    var l1 := l.(s := Next(l.s, PollRegister(ME)));
    ReachStep(g, l, PollRegister(ME), l1);
    l' := l1.(s := Next(l1.s, PollTest(ME)));
    ReachStep(g, l1, PollTest(ME), l');
    assert l'.s.pollers == l.s.pollers[ME := Sleeping(false)];
  }

  // The client polls at step i of a fair execution and does not give up.
  ghost predicate WaitsAt(g: Guests, loop: nat -> Loop, act: nat -> Action, i: nat) {
    && IsInfiniteLoop(g, loop, act) && L.Fair(Driver(loop), act)
    && ClientFair(loop, act) && NeverGivesUp(act) && loop(i).client.Polling?
  }

  ghost predicate WaitEnds(loop: nat -> Loop, i: nat)
    requires loop(i).client.Polling?
  {
    exists r: nat :: i <= r && loop(r).client == Ready(loop(i).client.id)
  }

  // The run, and after it nothing but time.
  function Stretched<T>(row: seq<T>, rest: T): nat -> T {
    (k: nat) => if k < |row| then row[k] else rest
  }

  lemma StretchedSteps(g: Guests, loops: seq<Loop>, acts: seq<Action>, l: Loop, k: nat)
    requires LeadsTo(g, loops, acts, l)
    ensures LoopStepAt(g, Stretched(loops, l), Stretched(acts, ReadResponse(ME + 1)), k)
  {
    if k < |acts| {
      assert LoopStepIn(g, loops, acts, k);
    } else {
      CanIdle(g, l);
    }
  }

  // Starved is for ever, in an execution that is fair to everyone.
  lemma GuestPollStarves(g: Guests) returns (loop: nat -> Loop, act: nat -> Action, i: nat)
    requires Undisturbed(g) && g.poll
    ensures LoopInit(loop(0)) && WaitsAt(g, loop, act, i) && PollsFrom(loop, i) && !WaitEnds(loop, i)
  {
    var l := ReachStarved(g);
    var loops, acts :| LeadsTo(g, loops, acts, l);
    loop, act, i := Stretched(loops, l), Stretched(acts, ReadResponse(ME + 1)), |acts|;
    EveryRoundMatches(g, loops, acts, 0);
    forall k: nat
      ensures LoopStepAt(g, loop, act, k)
    {
      StretchedSteps(g, loops, acts, l, k);
    }
    StarvedIsFair(loop, act, l, i);
  }

  lemma StarvedIsFair(loop: nat -> Loop, act: nat -> Action, l: Loop, i: nat)
    requires Starved(l) && forall k: nat :: i <= k ==> loop(k) == l
    ensures L.Fair(Driver(loop), act) && ClientFair(loop, act)
  {
    forall p: L.Actor, k: nat
      ensures L.ServedAfter(Driver(loop), act, p, k)
    {
      assert L.Served(Driver(loop), act, p, i + k);
    }
    forall k: nat
      ensures ClientServedAfter(loop, act, k)
    {
      assert ClientServed(loop, act, i + k);
    }
  }

  // With nobody else writing, terminating, opening or identifying, every wait of every fair
  // execution ends if and only if nobody else polls.
  lemma WaitsEndExactly(g: Guests)
    requires Undisturbed(g)
    ensures (forall loop, act, i :: WaitsAt(g, loop, act, i) ==> WaitEnds(loop, i)) <==> !g.poll
  {
    if g.poll {
      var loop, act, i := GuestPollStarves(g);
    } else {
      forall loop, act, i | WaitsAt(g, loop, act, i)
        ensures WaitEnds(loop, i)
      {
        var r := EveryWaitEnds(g, loop, act, i);
      }
    }
  }
}
