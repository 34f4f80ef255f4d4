// Safety over whole runs, for every interleaving of the actors.
module Theorems {
  import opened Words
  import opened Message
  import opened Registers
  import opened Slots
  import opened Protocol
  import opened Invariant

  // Responses come back in the order the requests were written.
  lemma ResponseOrder(states: seq<State>, acts: seq<Action>, i: nat)
    requires IsRun(states, acts) && i < |states|
    ensures states[i].published <= Ids(states[i].dispatched) <= Ids(states[i].enqueued)
  {
    RunInv(states, acts, i);
    var s := states[i];
    if Marked(s.worker) {
      assert s.queue == [s.worker.e] + s.queue[1..];
      assert s.enqueued == s.dispatched + s.queue[1..];
    } else {
      assert s.enqueued == s.dispatched + s.queue;
    }
    assert s.dispatched == s.enqueued[..|s.dispatched|];
  }

  // The status register reads busy exactly from the worker's mark to the handler's idle
  // store, and never more than one message is started and unanswered.
  lemma OneOutstanding(states: seq<State>, acts: seq<Action>, i: nat)
    requires IsRun(states, acts) && i < |states|
    ensures var s := states[i];
            && s.started - s.handled <= 1 && s.raised <= s.started
            && (s.sh.status == BUSY <==> |s.dispatched| == s.handled + 1)
            && (s.sh.status != BUSY <==> |s.dispatched| == s.handled)
            && (s.worker.Running? ==> !Outstanding(s))
  {
    RunInv(states, acts, i);
  }

  // The request each thread has passed to its last write call.
  function Offered(acts: seq<Action>): map<nat, Request> {
    if acts == [] then map[]
    else
      var before := Offered(acts[..|acts| - 1]);
      match acts[|acts| - 1]
      case WriteBegin(t, req) => before[t := req]
      case _ => before
  }

  // The requests linked into the list, in the order of the append steps.
  function Accepted(acts: seq<Action>): seq<Request> {
    if acts == [] then []
    else
      var before, offered := Accepted(acts[..|acts| - 1]), Offered(acts[..|acts| - 1]);
      match acts[|acts| - 1]
      case Append(t) => if t in offered then before + [offered[t]] else before
      case _ => before
  }

  ghost predicate Tracked(s: State, acts: seq<Action>) {
    && Requests(s.enqueued) == Accepted(acts)
    && forall t :: t in s.writers && s.writers[t].Appending? ==> t in Offered(acts) && Offered(acts)[t] == s.writers[t].req
  }

  predicate IsWrite(a: Action) {
    a.WriteBegin? || a.Append? || a.WakeWorker?
  }

  lemma OthersWriteNothing(s: State, a: Action)
    requires Inv(s) && Enabled(s, a) && !IsWrite(a)
    ensures Next(s, a).enqueued == s.enqueued && Next(s, a).writers == s.writers
  {
    if a == HandlerAct {
      HandlerNextIsHandlerStep(s);
    } else if a == WorkerAct {
      if s.worker.Running? {
        RunNextIsRunStep(s);
      } else {
        WorkerStepIsQuiet(s);
      }
    }
  }

  lemma TrackedStep(s: State, acts: seq<Action>, a: Action)
    requires Inv(s) && Enabled(s, a) && Tracked(s, acts)
    ensures Tracked(Next(s, a), acts + [a])
  {
    assert (acts + [a])[..|acts|] == acts;
    if !IsWrite(a) {
      OthersWriteNothing(s, a);
    } else if a.Append? {
      assert Requests(Next(s, a).enqueued) == Requests(s.enqueued) + [s.writers[a.t].req];
    }
  }

  lemma {:induction false} AcceptedInOrder(states: seq<State>, acts: seq<Action>, i: nat)
    requires IsRun(states, acts) && i < |states|
    ensures Tracked(states[i], acts[..i])
  {
    if i == 0 {
      assert acts[..0] == [];
    } else {
      AcceptedInOrder(states, acts, i - 1);
      RunInv(states, acts, i - 1);
      assert StepAt(states, acts, i - 1);
      TrackedStep(states[i - 1], acts[..i - 1], acts[i - 1]);
      assert acts[..i] == acts[..i - 1] + [acts[i - 1]];
    }
  }

  // The list receives exactly the requests passed to write, in the order of the appends;
  // each is dispatched at most once and none is skipped, although writers append while the
  // worker uses the head without the lock.
  lemma ExactlyOnce(states: seq<State>, acts: seq<Action>, i: nat)
    requires IsRun(states, acts) && i < |states|
    ensures var s := states[i];
            && Requests(s.enqueued) == Accepted(acts[..i])
            && s.enqueued == s.removed + s.queue
            && s.dispatched <= s.enqueued
            && |s.removed| <= |s.dispatched| <= |s.removed| + 1
            && (forall x, y :: 0 <= x < y < |s.dispatched| ==> s.dispatched[x] != s.dispatched[y])
            && (Holding(s.worker) ==> s.queue != [] && s.queue[0] == s.worker.e)
            && s.worker != Wild
  {
    AcceptedInOrder(states, acts, i);
    RunInv(states, acts, i);
    var s := states[i];
    if Marked(s.worker) {
      assert s.queue == [s.worker.e] + s.queue[1..];
      assert s.enqueued == s.dispatched + s.queue[1..];
    }
  }

  lemma HandledGrows(s: State, a: Action)
    requires Inv(s) && Enabled(s, a)
    ensures Next(s, a).handled >= s.handled
  {
    if a == HandlerAct {
      HandlerNextIsHandlerStep(s);
    } else if a == WorkerAct && !s.worker.Running? {
      WorkerStepIsQuiet(s);
    }
  }

  // While a message is outstanding no step stores anything into the SRAM.
  lemma OutstandingStepStoresNothing(s: State, a: Action)
    requires Inv(s) && Enabled(s, a) && Outstanding(s)
    ensures SameStores(s, Next(s, a))
  {
    if a == HandlerAct {
      HandlerNextIsHandlerStep(s);
    } else if IsEnvironment(a) {
      EnvironmentKeepsCore(s, a);
    }
  }

  ghost predicate SameStores(s: State, s': State) {
    && s'.sh.sram == s.sh.sram && s'.sh.stray == s.sh.stray
    && s'.dispatched == s.dispatched && s'.started == s.started
  }

  lemma RunStepFacts(states: seq<State>, acts: seq<Action>, i: nat)
    requires IsRun(states, acts) && i < |acts|
    ensures states[i].handled <= states[i + 1].handled
    ensures Outstanding(states[i]) ==> SameStores(states[i], states[i + 1])
  {
    RunInv(states, acts, i);
    assert StepAt(states, acts, i);
    HandledGrows(states[i], acts[i]);
    if Outstanding(states[i]) {
      OutstandingStepStoresNothing(states[i], acts[i]);
    }
  }

  // Ownership: from the start store until its completion is handled, the outstanding message
  // is not touched, however many requests are written meanwhile.
  lemma {:induction false} Ownership(states: seq<State>, acts: seq<Action>, i: nat, j: nat)
    requires IsRun(states, acts) && i <= j < |states|
    requires Outstanding(states[i]) && states[j].handled == states[i].handled
    ensures Outstanding(states[j]) && SameStores(states[i], states[j])
    decreases j
  {
    if i < j {
      HandledMonotone(states, acts, i, j - 1);
      RunStepFacts(states, acts, j - 1);
      Ownership(states, acts, i, j - 1);
    }
  }

  lemma {:induction false} HandledMonotone(states: seq<State>, acts: seq<Action>, i: nat, j: nat)
    requires IsRun(states, acts) && i <= j < |states|
    ensures states[i].handled <= states[j].handled
    decreases j
  {
    if i < j {
      HandledMonotone(states, acts, i, j - 1);
      RunStepFacts(states, acts, j - 1);
    }
  }

  // The DSP never sees part of a message: as long as a message is outstanding, its slot
  // decodes to the request that was dispatched last.
  lemma DspSeesWholeMessage(states: seq<State>, acts: seq<Action>, i: nat)
    requires IsRun(states, acts) && i < |states|
    requires Outstanding(states[i])
    ensures states[i].dispatched != []
    ensures var req := states[i].dispatched[|states[i].dispatched| - 1].req;
            && Landed(states[i].sh, req, RunLen(req))
            && |states[i].sh.sram| == SRAM_WORDS
            && (FitsSlot(req) ==> ReadSlot(states[i].sh.sram, req.reqId) == MessageOf(req))
  {
    RunInv(states, acts, i);
    var req := states[i].dispatched[|states[i].dispatched| - 1].req;
    if FitsSlot(req) {
      LandedReadsBack(states[i].sh, req);
    }
  }

  // At the very step that starts the DSP every other word of the message is already stored.
  lemma PublicationOrder(states: seq<State>, acts: seq<Action>, i: nat)
    requires IsRun(states, acts) && i < |acts|
    requires states[i + 1].started != states[i].started
    ensures acts[i] == WorkerAct && states[i].worker.Running?
    ensures var req := states[i].worker.e.req;
            && states[i].worker.k == RunLen(req) - 1
            && Landed(states[i].sh, req, RunLen(req) - 1)
            && states[i + 1].sh == Exec(StoreSram(HeadAddr(req.reqId, 1), HeadWord(req.header, 1)), states[i].sh)
            && states[i + 1].started == states[i].started + 1
  {
    RunInv(states, acts, i);
    assert StepAt(states, acts, i);
    if acts[i] == HandlerAct {
      HandlerNextIsHandlerStep(states[i]);
    }
    StartIsLast(states[i].sh, states[i].worker.e.req);
  }

  // No completion interrupt is lost: an unhandled completion either still holds a mailbox
  // channel that no running handler will clear, or its handler is before the idle store.
  lemma NoInterruptLost(states: seq<State>, acts: seq<Action>, i: nat)
    requires IsRun(states, acts) && i < |states|
    ensures var s := states[i];
            && s.handled <= s.raised <= s.handled + 1
            && (s.raised == s.handled + 1 <==>
                  BeforeIdle(s.handler) || ((s.sh.ch0 || s.sh.ch1) && (s.handler == Quiet || s.handler.k >= 4)))
            && s.handled <= s.entered <= s.raised
  {
    RunInv(states, acts, i);
  }

  // Only the handler's idle store counts a completion as handled, once per interrupt.
  lemma OneIdleStorePerInterrupt(states: seq<State>, acts: seq<Action>, i: nat)
    requires IsRun(states, acts) && i < |acts|
    ensures states[i + 1].handled != states[i].handled <==> acts[i] == HandlerAct && states[i].handler == Serving(3)
    ensures states[i + 1].handled != states[i].handled ==>
              && states[i + 1].handled == states[i].handled + 1 == states[i].raised
              && states[i].sh.status == BUSY && states[i + 1].sh.status == IDLE
              && !states[i].sh.ch0 && !states[i].sh.ch1
  {
    RunInv(states, acts, i);
    assert StepAt(states, acts, i);
  }

  // The worker never sleeps on work: with a request queued, a parked worker has a wake-up
  // pending or some writer has yet to make its wake call.
  lemma NoLostWorkerWakeup(states: seq<State>, acts: seq<Action>, i: nat)
    requires IsRun(states, acts) && i < |states|
    requires states[i].worker == Parked(false)
    ensures states[i].queue == [] || exists t :: t in states[i].writers && states[i].writers[t].Waking?
  {
    RunInv(states, acts, i);
  }

  // A poller sleeps beside a set event flag only while the setter has yet to wake it.
  lemma NoLostPollWakeup(states: seq<State>, acts: seq<Action>, i: nat, t: nat)
    requires IsRun(states, acts) && i < |states|
    requires t in states[i].pollers && states[i].pollers[t] == Sleeping(false) && states[i].sh.irqEvent
    ensures states[i].handler == Serving(5) || states[i].terminators != {}
  {
    RunInv(states, acts, i);
  }

  // No more polls are ready than interrupts and terminate calls have set the flag.
  lemma ReadyPollsAccounted(states: seq<State>, acts: seq<Action>, i: nat)
    requires IsRun(states, acts) && i < |states|
    ensures var s := states[i];
            s.readyPolls + (if s.sh.irqEvent then 1 else 0) <= s.handled + s.terminations
            && s.readyPolls <= s.entered + s.terminations
  {
    RunInv(states, acts, i);
  }

  // The two steps that set the event flag.
  predicate SetsEvent(s: State, a: Action) {
    (a == HandlerAct && s.handler == Serving(4)) || a.TerminateSet?
  }

  predicate IsReadyPoll(s: State, a: Action) {
    a.PollTest? && s.sh.irqEvent
  }

  lemma OnlySettersSet(s: State, a: Action)
    requires Inv(s) && Enabled(s, a) && !s.sh.irqEvent && Next(s, a).sh.irqEvent
    ensures SetsEvent(s, a)
  {
    if a == HandlerAct {
      HandlerNextIsHandlerStep(s);
    } else if a == WorkerAct {
      if s.worker.Running? {
        RunNextIsRunStep(s);
      } else {
        WorkerStepIsQuiet(s);
      }
    }
  }

  lemma {:induction false} SetBetween(states: seq<State>, acts: seq<Action>, i: nat, j: nat) returns (k: nat)
    requires IsRun(states, acts) && i <= j < |states|
    requires !states[i].sh.irqEvent && states[j].sh.irqEvent
    ensures i <= k < j && SetsEvent(states[k], acts[k])
    decreases j
  {
    if states[j - 1].sh.irqEvent {
      k := SetBetween(states, acts, i, j - 1);
    } else {
      RunInv(states, acts, j - 1);
      assert StepAt(states, acts, j - 1);
      OnlySettersSet(states[j - 1], acts[j - 1]);
      k := j - 1;
    }
  }

  // A ready poll consumes the flag: strictly between two of them an interrupt or a terminate
  // call has set it anew.
  lemma ReadyPollsSeparated(states: seq<State>, acts: seq<Action>, i: nat, j: nat) returns (k: nat)
    requires IsRun(states, acts) && i < j < |acts|
    requires IsReadyPoll(states[i], acts[i]) && IsReadyPoll(states[j], acts[j])
    ensures i < k < j && SetsEvent(states[k], acts[k])
  {
    assert StepAt(states, acts, i);
    k := SetBetween(states, acts, i + 1, j);
  }

  // ---- the driver implements a first-in first-out server ----

  datatype Server = Server(waiting: seq<Request>, serving: seq<Request>, answered: seq<U32>)

  datatype Label = Submit(req: Request) | Begin | Finish | Silent

  // `c'` is the state the server is in after doing `l` in `c`.
  predicate ServerDoes(c: Server, l: Label, c': Server) {
    match l
    case Submit(req) => c' == c.(waiting := c.waiting + [req])
    case Begin => c.serving == [] && c.waiting != [] && c' == Server(c.waiting[1..], [c.waiting[0]], c.answered)
    case Finish => |c.serving| == 1 && c' == Server(c.waiting, [], c.answered + [c.serving[0].reqId])
    case Silent => c' == c
  }

  // What a step of the driver is to the server.
  function LabelOf(s: State, a: Action): Label
    requires Enabled(s, a)
  {
    match a
    case Append(t) => Submit(s.writers[t].req)
    case WorkerAct => if s.worker.Running? && s.worker.k == 0 then Begin else Silent
    case HandlerAct => if s.handler == Serving(0) then Finish else Silent
    case _ => Silent
  }

  function ServerOf(s: State): Server
    requires |s.published| <= |s.dispatched| <= |s.enqueued|
  {
    Server(Requests(s.enqueued[|s.dispatched|..]), Requests(s.dispatched[|s.published|..]), s.published)
  }

  lemma Ordered(s: State)
    requires Inv(s)
    ensures |s.published| <= |s.dispatched| <= |s.enqueued|
    ensures |s.dispatched| <= |s.published| + 1
  {
    if Marked(s.worker) {
      assert s.queue == [s.worker.e] + s.queue[1..];
      assert s.enqueued == s.dispatched + s.queue[1..];
    } else {
      assert s.enqueued == s.dispatched + s.queue;
    }
  }

  lemma AppendSubmits(s: State, t: nat)
    requires Inv(s) && Enabled(s, Append(t))
    requires |s.published| <= |s.dispatched| <= |s.enqueued|
    ensures var s' := Next(s, Append(t));
            ServerOf(s') == ServerOf(s).(waiting := ServerOf(s).waiting + [s.writers[t].req])
  {
    var s' := Next(s, Append(t));
    assert ServerOf(s').waiting == ServerOf(s).waiting + [s.writers[t].req];
  }

  lemma MarkBegins(s: State, s': State, e: Entry)
    requires Inv(s) && RunStep(s, s', e, 0)
    requires |s.published| <= |s.dispatched| < |s.enqueued|
    ensures ServerOf(s).serving == [] && ServerOf(s).waiting != [] && ServerOf(s).waiting[0] == e.req
    ensures ServerOf(s') == Server(ServerOf(s).waiting[1..], [e.req], s.published)
  {
    assert s.enqueued == s.dispatched + s.queue && s.queue[0] == e;
    assert |s.published| == |s.dispatched|;
    FirstBegins(s, s', e);
  }

  lemma FirstBegins(s: State, s': State, e: Entry)
    requires |s.published| == |s.dispatched| < |s.enqueued| && s.enqueued[|s.dispatched|] == e
    requires s'.enqueued == s.enqueued && s'.dispatched == s.dispatched + [e] && s'.published == s.published
    ensures ServerOf(s).serving == [] && ServerOf(s).waiting != [] && ServerOf(s).waiting[0] == e.req
    ensures ServerOf(s') == Server(ServerOf(s).waiting[1..], [e.req], s.published)
  {
    assert ServerOf(s').waiting == ServerOf(s).waiting[1..];
    assert ServerOf(s').serving == [e.req];
  }

  lemma PublishFinishes(s: State, s': State)
    requires Inv(s) && HandlerStep(s, s') && s.handler == Serving(0)
    requires |s'.published| <= |s.dispatched| <= |s.enqueued|
    ensures |ServerOf(s).serving| == 1
    ensures ServerOf(s') == Server(ServerOf(s).waiting, [], s.published + [ServerOf(s).serving[0].reqId])
  {
    var d := |s.dispatched|;
    assert |s.published| == d - 1;
    assert s.dispatched[d - 1..] == [s.dispatched[d - 1]];
    assert ServerOf(s).serving == [s.dispatched[d - 1].req];
    assert ServerOf(s').serving == [];
  }

  lemma SilentStutters(s: State, a: Action)
    requires Inv(s) && Enabled(s, a) && LabelOf(s, a) == Silent
    ensures var s' := Next(s, a);
            s'.enqueued == s.enqueued && s'.dispatched == s.dispatched && s'.published == s.published
  {
    if a == HandlerAct {
      HandlerNextIsHandlerStep(s);
    } else if a == WorkerAct {
      if s.worker.Running? {
        RunNextIsRunStep(s);
      } else {
        WorkerStepIsQuiet(s);
      }
    } else if IsEnvironment(a) {
      EnvironmentKeepsCore(s, a);
    }
  }

  lemma NextOrdered(s: State, a: Action)
    requires Inv(s) && Enabled(s, a)
    ensures var s' := Next(s, a);
            |s'.published| <= |s'.dispatched| <= |s'.enqueued|
  {
    InvKept(s, a);
    Ordered(Next(s, a));
  }

  lemma StepRefinesServer(s: State, a: Action)
    requires Inv(s) && Enabled(s, a)
    ensures var s' := Next(s, a);
            && |s.published| <= |s.dispatched| <= |s.enqueued|
            && |s'.published| <= |s'.dispatched| <= |s'.enqueued|
            && ServerDoes(ServerOf(s), LabelOf(s, a), ServerOf(s'))
  {
    var s' := Next(s, a);
    Ordered(s);
    NextOrdered(s, a);
    match LabelOf(s, a)
    case Submit(_) => AppendSubmits(s, a.t);
    case Begin =>
      RunNextIsRunStep(s);
      MarkBegins(s, s', s.worker.e);
    case Finish =>
      HandlerNextIsHandlerStep(s);
      PublishFinishes(s, s');
    case Silent => SilentStutters(s, a);
  }

  // Every step of every interleaving is the step of the server its label names: linking an
  // entry submits that writer's request, the busy mark begins the first one waiting,
  // publishing finishes the one in service, and every other step leaves the server as it is.
  lemma DriverRefinesServer(states: seq<State>, acts: seq<Action>, i: nat)
    requires IsRun(states, acts) && i < |acts|
    ensures |states[i].published| <= |states[i].dispatched| <= |states[i].enqueued|
    ensures |states[i + 1].published| <= |states[i + 1].dispatched| <= |states[i + 1].enqueued|
    ensures Enabled(states[i], acts[i])
    ensures ServerDoes(ServerOf(states[i]), LabelOf(states[i], acts[i]), ServerOf(states[i + 1]))
  {
    RunInv(states, acts, i);
    assert StepAt(states, acts, i);
    StepRefinesServer(states[i], acts[i]);
  }

  // ---- the alias of the status register and the reset vector ----

  ghost predicate Stuck(s: State) {
    && s.sh.status == BUSY && !s.sh.ch0 && !s.sh.ch1
    && s.started == s.raised == 0 && s.handler == Quiet && s.dispatched == []
    && (s.worker.Check? || s.worker.Armed? || s.worker.Parked? || s.worker.Peek? || s.worker.Spin? || s.worker.Wild?)
  }

  lemma StuckStays(s: State, a: Action)
    requires Stuck(s) && Enabled(s, a)
    ensures Stuck(Next(s, a))
  {
  }

  // If the DSP's code lay at the address 0xFFAA, the register would read busy from the start
  // and no request would ever be dispatched; so `Init` has to exclude that address.
  lemma {:induction false} BusyAliasNeverDispatches(states: seq<State>, acts: seq<Action>, rom: U32, i: nat)
    requires IsExecution(states, acts) && i < |states|
    requires states[0].sh.status == BUSY && Init(states[0].(sh := states[0].sh.(status := rom)))
    ensures Stuck(states[i]) && states[i].dispatched == []
  {
    if i > 0 {
      BusyAliasNeverDispatches(states, acts, rom, i - 1);
      assert StepAt(states, acts, i - 1);
      StuckStays(states[i - 1], acts[i - 1]);
    }
  }
}
