// What every interleaving of the driver's actors keeps.
module Invariant {
  import opened Message
  import opened Registers
  import opened Slots
  import opened Protocol

  predicate Holding(w: Worker) {
    w.Spin? || w.Running? || w.Unlink?
  }

  // The worker has marked the DSP busy for its entry and not yet unlinked it.
  predicate Marked(w: Worker) {
    w.Unlink? || (w.Running? && w.k >= 1)
  }

  // The worker has marked the DSP busy and not yet made the starting store.
  predicate Loading(w: Worker) {
    w.Running? && w.k >= 1
  }

  function MarkedEntry(w: Worker): seq<Entry> {
    if Marked(w) then [w.e] else []
  }

  // The handler has published the response of the interrupt it serves but not yet freed the DSP.
  predicate Publishing(h: Handler) {
    h.Serving? && 1 <= h.k <= 3
  }

  predicate BeforeIdle(h: Handler) {
    h.Serving? && h.k <= 3
  }

  // A message has been started and its completion is not yet handled.
  predicate Outstanding(s: State) {
    s.started > s.handled
  }

  ghost predicate QueueInv(s: State) {
    && s.enqueued == s.removed + s.queue
    && (forall i :: 0 <= i < |s.enqueued| ==> s.enqueued[i].ticket == i)
    && (Holding(s.worker) ==> s.queue != [] && s.queue[0] == s.worker.e)
    && (s.worker == Peek ==> s.queue != [])
    && (s.worker.Running? ==> s.worker.k < RunLen(s.worker.e.req))
    && s.worker != Wild
    && s.dispatched == s.removed + MarkedEntry(s.worker)
  }

  ghost predicate CountInv(s: State) {
    && |s.dispatched| == s.started + (if Loading(s.worker) then 1 else 0)
    && s.handled <= s.raised <= s.started <= s.handled + 1
    && (s.worker.Running? ==> s.started == s.handled)
    && (s.sh.status == BUSY <==> Loading(s.worker) || Outstanding(s))
    && (s.handler.Serving? ==> s.handler.k < HANDLER_LEN)
    && (BeforeIdle(s.handler) ==> s.raised == s.handled + 1)
    && s.entered == s.handled + (if BeforeIdle(s.handler) then 1 else 0)
    && |s.published| == s.handled + (if Publishing(s.handler) then 1 else 0)
  }

  ghost predicate LineInv(s: State) {
    && (s.raised > s.entered ==> s.sh.ch0 || s.sh.ch1)
    && (s.sh.ch0 ==> s.raised > s.entered || (s.handler.Serving? && s.handler.k <= 1))
    && (s.sh.ch1 ==> s.raised > s.entered || (s.handler.Serving? && s.handler.k <= 2))
  }

  ghost predicate IdInv(s: State) {
    && |s.published| <= |s.dispatched|
    && (forall i :: 0 <= i < |s.published| ==> s.published[i] == s.dispatched[i].req.reqId)
    && (s.worker.Running? && s.worker.k >= 2 ==> s.sh.reqId == s.worker.e.req.reqId)
    && (Outstanding(s) ==> s.dispatched != [] && s.sh.reqId == s.dispatched[|s.dispatched| - 1].req.reqId)
  }

  ghost predicate LandInv(s: State) {
    && |s.sh.sram| == SRAM_WORDS
    && (s.worker.Running? && s.worker.k <= RunLen(s.worker.e.req) ==> Landed(s.sh, s.worker.e.req, s.worker.k))
    && (Outstanding(s) && s.dispatched != [] ==>
          var req := s.dispatched[|s.dispatched| - 1].req;
          Landed(s.sh, req, RunLen(req)))
  }

  ghost predicate SleepInv(s: State) {
    s.worker == Parked(false) && s.queue != [] ==>
      exists t :: t in s.writers && s.writers[t].Waking?
  }

  ghost predicate EventInv(s: State) {
    && s.readyPolls + (if s.sh.irqEvent then 1 else 0)
       <= s.handled - (if s.handler == Serving(4) then 1 else 0) + s.terminations
    && (s.handler == Serving(4) ==> s.handled >= 1)
    && (s.sh.irqEvent && s.handler != Serving(5) && s.terminators == {} ==>
          forall t :: t in s.pollers ==> s.pollers[t] != Sleeping(false))
  }

  ghost predicate Inv(s: State) {
    && QueueInv(s)
    && CountInv(s)
    && LineInv(s)
    && IdInv(s)
    && LandInv(s)
    && SleepInv(s)
    && EventInv(s)
  }

  lemma InitInv(s: State)
    requires Init(s)
    ensures Inv(s)
  {
  }

  lemma WithoutHead(q: seq<Entry>, e: Entry)
    requires q != [] && q[0] == e
    ensures Without(q, e) == q[1..]
  {
  }

  // ---- actions that touch none of the protocol's core ----

  ghost predicate SameCore(s: State, s': State) {
    && s'.queue == s.queue && s'.worker == s.worker && s'.handler == s.handler
    && s'.enqueued == s.enqueued && s'.removed == s.removed
    && s'.dispatched == s.dispatched && s'.published == s.published
    && s'.started == s.started && s'.raised == s.raised
    && s'.entered == s.entered && s'.handled == s.handled
    && s'.sh == s.sh.(response := s'.sh.response, irqEvent := s'.sh.irqEvent)
  }

  predicate IsEnvironment(a: Action) {
    !(a.WorkerAct? || a.HandlerAct? || a.DspRaise? || a.Append? || a.WakeWorker?)
  }

  lemma EnvironmentKeepsCore(s: State, a: Action)
    requires Enabled(s, a) && IsEnvironment(a)
    ensures SameCore(s, Next(s, a))
  {
  }

  ghost predicate CoreInv(s: State) {
    QueueInv(s) && CountInv(s) && LineInv(s) && IdInv(s) && LandInv(s)
  }

  lemma SameCoreKept(s: State, s': State)
    requires CoreInv(s) && SameCore(s, s')
    ensures CoreInv(s')
  {
  }

  // ---- one store of dx_v3_dsp_run ----

  // The step as a relation that does not mention the program of the run.
  ghost predicate RunStep(s: State, s': State, e: Entry, k: nat) {
    && s.worker == Running(e, k) && k < RunLen(e.req)
    && s' == s.(sh := s'.sh,
                dispatched := if k == 0 then s.dispatched + [e] else s.dispatched,
                started := if k == RunLen(e.req) - 1 then s.started + 1 else s.started,
                worker := if k == RunLen(e.req) - 1 then Unlink(e) else Running(e, k + 1))
    && s'.sh == s.sh.(status := if k == 0 then BUSY else s.sh.status,
                      reqId := if k == 1 then e.req.reqId else s.sh.reqId,
                      sram := s'.sh.sram, stray := s'.sh.stray)
    && |s'.sh.sram| == |s.sh.sram|
    && (Landed(s.sh, e.req, k) ==> Landed(s'.sh, e.req, k + 1))
  }

  lemma RunNextIsRunStep(s: State)
    requires s.worker.Running? && s.worker.k < RunLen(s.worker.e.req)
    ensures RunStep(s, Next(s, WorkerAct), s.worker.e, s.worker.k)
  {
    if Landed(s.sh, s.worker.e.req, s.worker.k) {
      StoreLands(s.sh, s.worker.e.req, s.worker.k);
    }
  }

  lemma RunStepKeepsQueue(s: State, s': State, e: Entry, k: nat)
    requires QueueInv(s) && RunStep(s, s', e, k)
    ensures QueueInv(s')
  {
  }

  lemma RunStepKeepsCounts(s: State, s': State, e: Entry, k: nat)
    requires CountInv(s) && LineInv(s) && RunStep(s, s', e, k)
    ensures CountInv(s') && LineInv(s')
  {
  }

  lemma RunStepKeepsIds(s: State, s': State, e: Entry, k: nat)
    requires QueueInv(s) && CountInv(s) && IdInv(s) && RunStep(s, s', e, k)
    ensures IdInv(s')
  {
  }

  lemma RunStepKeepsLanding(s: State, s': State, e: Entry, k: nat)
    requires QueueInv(s) && CountInv(s) && LandInv(s) && RunStep(s, s', e, k)
    ensures LandInv(s')
  {
    if k == RunLen(e.req) - 1 {
      assert s'.dispatched[|s'.dispatched| - 1] == e;
    }
  }

  // ---- the worker's other steps ----

  // Between two calls of run the worker changes only its own place and, when it unlinks, the list.
  ghost predicate QuietStep(s: State, s': State) {
    && s' == s.(worker := s'.worker, queue := s'.queue, removed := s'.removed)
    && !Loading(s.worker) && !Loading(s'.worker) && !s.worker.Running?
    && (s'.worker.Running? ==> s'.worker.k == 0 && s.sh.status != BUSY)
  }

  lemma WorkerStepIsQuiet(s: State)
    requires Enabled(s, WorkerAct) && !s.worker.Running?
    ensures QuietStep(s, Next(s, WorkerAct))
  {
  }

  lemma WorkerKeepsQueue(s: State)
    requires QueueInv(s) && Enabled(s, WorkerAct) && !s.worker.Running?
    ensures QueueInv(Next(s, WorkerAct))
  {
    if s.worker.Unlink? {
      WithoutHead(s.queue, s.worker.e);
      assert s.queue == [s.worker.e] + s.queue[1..];
    }
  }

  lemma QuietStepKeepsRest(s: State, s': State)
    requires CountInv(s) && LineInv(s) && IdInv(s) && LandInv(s) && QuietStep(s, s')
    ensures CountInv(s') && LineInv(s') && IdInv(s') && LandInv(s')
  {
  }

  // ---- the interrupt handler and the DSP ----

  // One step of the handler as a relation, case by case.
  ghost predicate HandlerStep(s: State, s': State) {
    var h := s.handler;
    && s' == s.(sh := s'.sh,
                published := if h == Serving(0) then s.published + [s.sh.reqId] else s.published,
                handled := if h == Serving(3) then s.handled + 1 else s.handled,
                entered := if h == Quiet then s.entered + 1 else s.entered,
                pollers := if h == Serving(5) then Triggered(s.pollers) else s.pollers,
                handler := if h == Quiet then Serving(0) else if h.k < 5 then Serving(h.k + 1) else Quiet)
    && s'.sh == s.sh.(response := if h == Serving(0) then s.sh.reqId else s.sh.response,
                      ch0 := if h == Serving(1) then false else s.sh.ch0,
                      ch1 := if h == Serving(2) then false else s.sh.ch1,
                      status := if h == Serving(3) then IDLE else s.sh.status,
                      irqEvent := if h == Serving(4) then true else s.sh.irqEvent)
    && (h == Quiet ==> s.sh.ch0 || s.sh.ch1)
  }

  lemma HandlerNextIsHandlerStep(s: State)
    requires Enabled(s, HandlerAct)
    requires s.handler.Serving? ==> s.handler.k < HANDLER_LEN
    ensures HandlerStep(s, Next(s, HandlerAct))
  {
  }

  lemma HandlerStepKeepsCounts(s: State, s': State)
    requires CountInv(s) && LineInv(s) && HandlerStep(s, s')
    ensures CountInv(s') && LineInv(s')
  {
  }

  lemma HandlerStepKeepsIds(s: State, s': State)
    requires QueueInv(s) && CountInv(s) && IdInv(s) && HandlerStep(s, s')
    ensures IdInv(s')
  {
  }

  lemma HandlerStepKeepsRest(s: State, s': State)
    requires QueueInv(s) && CountInv(s) && LandInv(s) && HandlerStep(s, s')
    ensures QueueInv(s') && LandInv(s')
  {
  }

  lemma RaiseKeepsCore(s: State, c0: bool, c1: bool)
    requires CoreInv(s) && Enabled(s, DspRaise(c0, c1))
    ensures CoreInv(Next(s, DspRaise(c0, c1)))
  {
  }

  // ---- writers ----

  // An append changes the list and its history at the end, and the writer.
  ghost predicate AppendStep(s: State, s': State, e: Entry) {
    && s' == s.(queue := s.queue + [e], enqueued := s.enqueued + [e], writers := s'.writers)
    && e.ticket == |s.enqueued|
  }

  lemma AppendStepKeepsQueue(s: State, s': State, e: Entry)
    requires QueueInv(s) && AppendStep(s, s', e)
    ensures QueueInv(s')
  {
  }

  lemma AppendStepKeepsRest(s: State, s': State, e: Entry)
    requires CountInv(s) && LineInv(s) && IdInv(s) && LandInv(s) && AppendStep(s, s', e)
    ensures CountInv(s') && LineInv(s') && IdInv(s') && LandInv(s')
  {
  }

  lemma AppendKeepsCore(s: State, t: nat)
    requires CoreInv(s) && Enabled(s, Append(t))
    ensures CoreInv(Next(s, Append(t)))
  {
    var s', e := Next(s, Append(t)), Entry(|s.enqueued|, s.writers[t].req);
    AppendStepKeepsQueue(s, s', e);
    AppendStepKeepsRest(s, s', e);
  }

  lemma WakeKeepsCore(s: State, t: nat)
    requires CoreInv(s) && Enabled(s, WakeWorker(t))
    ensures CoreInv(Next(s, WakeWorker(t)))
  {
  }

  lemma CoreKept(s: State, a: Action)
    requires CoreInv(s) && Enabled(s, a)
    ensures CoreInv(Next(s, a))
  {
    match a
    case WorkerAct =>
      if s.worker.Running? {
        var s', e, k := Next(s, a), s.worker.e, s.worker.k;
        RunNextIsRunStep(s);
        RunStepKeepsQueue(s, s', e, k);
        RunStepKeepsCounts(s, s', e, k);
        RunStepKeepsIds(s, s', e, k);
        RunStepKeepsLanding(s, s', e, k);
      } else {
        WorkerStepIsQuiet(s);
        WorkerKeepsQueue(s);
        QuietStepKeepsRest(s, Next(s, a));
      }
    case HandlerAct =>
      HandlerNextIsHandlerStep(s);
      HandlerStepKeepsCounts(s, Next(s, a));
      HandlerStepKeepsIds(s, Next(s, a));
      HandlerStepKeepsRest(s, Next(s, a));
    case DspRaise(c0, c1) => RaiseKeepsCore(s, c0, c1);
    case Append(t) => AppendKeepsCore(s, t);
    case WakeWorker(t) => WakeKeepsCore(s, t);
    case _ =>
      EnvironmentKeepsCore(s, a);
      SameCoreKept(s, Next(s, a));
  }

  // ---- wake-ups ----

  lemma SleepKept(s: State, a: Action)
    requires SleepInv(s) && Enabled(s, a)
    ensures SleepInv(Next(s, a))
  {
    var s' := Next(s, a);
    if a.Append? {
      assert s'.writers[a.t].Waking?;
    } else if s'.worker == Parked(false) && s'.queue != [] && s.worker == Parked(false) {
      var t :| t in s.writers && s.writers[t].Waking?;
      assert t in s'.writers && s'.writers[t].Waking?;
    }
  }

  lemma HandlerStepKeepsEvents(s: State, s': State)
    requires CountInv(s) && EventInv(s) && HandlerStep(s, s')
    ensures EventInv(s')
  {
  }

  lemma SameEventsKept(s: State, s': State)
    requires EventInv(s)
    requires s'.handler == s.handler && s'.handled == s.handled && s'.sh.irqEvent == s.sh.irqEvent
    requires s'.pollers == s.pollers && s'.readyPolls == s.readyPolls
    requires s'.terminators == s.terminators && s'.terminations == s.terminations
    ensures EventInv(s')
  {
  }

  lemma PollKeepsEvents(s: State, a: Action)
    requires EventInv(s) && Enabled(s, a)
    requires a.PollRegister? || a.PollTest? || a.PollResume? || a.PollLeave?
    ensures EventInv(Next(s, a))
  {
  }

  lemma TerminateKeepsEvents(s: State, a: Action)
    requires EventInv(s) && Enabled(s, a) && (a.TerminateSet? || a.TerminateWake?)
    ensures EventInv(Next(s, a))
  {
  }

  lemma OpenKeepsEvents(s: State)
    requires EventInv(s)
    ensures EventInv(Next(s, Open))
  {
  }

  lemma WorkerKeepsEvents(s: State)
    requires EventInv(s) && Enabled(s, WorkerAct)
    requires s.worker.Running? ==> s.worker.k < RunLen(s.worker.e.req)
    ensures EventInv(Next(s, WorkerAct))
  {
    if s.worker.Running? {
      RunNextIsRunStep(s);
    } else {
      WorkerStepIsQuiet(s);
    }
    SameEventsKept(s, Next(s, WorkerAct));
  }

  lemma EventKept(s: State, a: Action)
    requires CountInv(s) && EventInv(s) && Enabled(s, a)
    requires a == WorkerAct && s.worker.Running? ==> s.worker.k < RunLen(s.worker.e.req)
    ensures EventInv(Next(s, a))
  {
    match a
    case HandlerAct =>
      HandlerNextIsHandlerStep(s);
      HandlerStepKeepsEvents(s, Next(s, a));
    case WorkerAct => WorkerKeepsEvents(s);
    case PollRegister(_) => PollKeepsEvents(s, a);
    case PollTest(_) => PollKeepsEvents(s, a);
    case PollResume(_) => PollKeepsEvents(s, a);
    case PollLeave(_) => PollKeepsEvents(s, a);
    case TerminateSet(_) => TerminateKeepsEvents(s, a);
    case TerminateWake(_) => TerminateKeepsEvents(s, a);
    case Open => OpenKeepsEvents(s);
    case _ => SameEventsKept(s, Next(s, a));
  }

  lemma InvKept(s: State, a: Action)
    requires Inv(s) && Enabled(s, a)
    ensures Inv(Next(s, a))
  {
    CoreKept(s, a);
    SleepKept(s, a);
    EventKept(s, a);
  }

  lemma {:induction false} RunInv(states: seq<State>, acts: seq<Action>, i: nat)
    requires IsRun(states, acts) && i < |states|
    ensures Inv(states[i])
  {
    if i == 0 {
      InitInv(states[0]);
    } else {
      RunInv(states, acts, i - 1);
      assert StepAt(states, acts, i - 1);
      InvKept(states[i - 1], acts[i - 1]);
    }
  }
}
