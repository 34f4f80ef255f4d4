// The driver as a transition system: any number of writers, the worker thread, the DSP, the
// interrupt handler and any number of pollers, interleaved at every store, every critical
// section and every wake-up.
module Protocol {
  import opened Words
  import opened Message
  import opened Registers

  // A queued request with the identity of its list node.
  datatype Entry = Entry(ticket: nat, req: Request)

  // dxrt_request_handler. `woken` is the wake-up pending for a registered waiter.
  datatype Worker =
    | Check                       // evaluating the wait condition for the first time
    | Armed(woken: bool)          // registered on request_wq, about to evaluate it again
    | Parked(woken: bool)         // found the list empty; runs again only when woken
    | Peek                        // about to read the first entry under the lock
    | Spin(e: Entry)              // waiting for the status register
    | Running(e: Entry, k: nat)   // about to make the k-th store of dx_v3_dsp_run
    | Unlink(e: Entry)            // run has returned; the entry is still linked
    | Wild                        // has taken the bare list head for an entry

  datatype Handler = Quiet | Serving(k: nat)

  datatype Writer = Appending(req: Request) | Waking

  datatype Poller = Testing(triggered: bool) | Sleeping(triggered: bool)

  // The last line of fields records the history of the run.
  datatype State = State(
    sh: Shared,
    queue: seq<Entry>, worker: Worker, handler: Handler,
    writers: map<nat, Writer>, pollers: map<nat, Poller>, terminators: set<nat>,
    enqueued: seq<Entry>, removed: seq<Entry>, dispatched: seq<Entry>, published: seq<U32>,
    started: nat, raised: nat, entered: nat, handled: nat, terminations: nat, readyPolls: nat)

  datatype Action =
    | WorkerAct
    | HandlerAct
    | DspRaise(ch0: bool, ch1: bool)
    | WriteBegin(t: nat, req: Request)
    | Append(t: nat)
    | WakeWorker(t: nat)
    | PollRegister(t: nat)
    | PollTest(t: nat)
    | PollResume(t: nat)
    | PollLeave(t: nat)
    | TerminateSet(t: nat)
    | TerminateWake(t: nat)
    | ReadResponse(t: nat)
    | Open
    | Identify

  // After dx_v3_dsp_init: the status register shares its address with the reset-vector
  // register, so it holds the address of the DSP's code; nothing is queued or started.
  ghost predicate Init(s: State) {
    && s.sh.status != BUSY
    && |s.sh.sram| == SRAM_WORDS
    && !s.sh.ch0 && !s.sh.ch1 && !s.sh.irqEvent
    && s.queue == [] && s.worker == Check && s.handler == Quiet
    && s.writers == map[] && s.pollers == map[] && s.terminators == {}
    && s.enqueued == [] && s.removed == [] && s.dispatched == [] && s.published == []
    && s.started == s.raised == s.entered == s.handled == s.terminations == s.readyPolls == 0
  }

  predicate Enabled(s: State, a: Action) {
    match a
    case WorkerAct => s.worker != Parked(false) && s.worker != Wild
    case HandlerAct => s.handler != Quiet || s.sh.ch0 || s.sh.ch1
    case DspRaise(c0, c1) => s.raised < s.started && (c0 || c1)
    case WriteBegin(t, _) => t !in s.writers
    case Append(t) => t in s.writers && s.writers[t].Appending?
    case WakeWorker(t) => t in s.writers && s.writers[t].Waking?
    case PollRegister(t) => t !in s.pollers
    case PollTest(t) => t in s.pollers && s.pollers[t].Testing?
    case PollResume(t) => t in s.pollers && s.pollers[t] == Sleeping(true)
    case PollLeave(t) => t in s.pollers
    case TerminateSet(t) => t !in s.terminators
    case TerminateWake(t) => t in s.terminators
    case ReadResponse(_) => true
    case Open => true
    case Identify => true
  }

  function Next(s: State, a: Action): State
    requires Enabled(s, a)
  {
    match a
    case WorkerAct => WorkerNext(s)
    case HandlerAct => HandlerNext(s)
    case DspRaise(c0, c1) =>
      s.(raised := s.raised + 1, sh := s.sh.(ch0 := s.sh.ch0 || c0, ch1 := s.sh.ch1 || c1))
    case WriteBegin(t, req) => s.(writers := s.writers[t := Appending(req)])
    case Append(t) =>
      var e := Entry(|s.enqueued|, s.writers[t].req);
      s.(queue := s.queue + [e], enqueued := s.enqueued + [e], writers := s.writers[t := Waking])
    case WakeWorker(t) => s.(worker := Woken(s.worker), writers := s.writers - {t})
    case PollRegister(t) => s.(pollers := s.pollers[t := Testing(false)])
    case PollTest(t) =>
      if s.sh.irqEvent then
        s.(sh := s.sh.(irqEvent := false), pollers := s.pollers - {t}, readyPolls := s.readyPolls + 1)
      else
        s.(pollers := s.pollers[t := Sleeping(s.pollers[t].triggered)])
    case PollResume(t) => s.(pollers := s.pollers[t := Testing(false)])
    case PollLeave(t) => s.(pollers := s.pollers - {t})
    case TerminateSet(t) =>
      s.(sh := s.sh.(irqEvent := true), terminators := s.terminators + {t}, terminations := s.terminations + 1)
    case TerminateWake(t) => s.(terminators := s.terminators - {t}, pollers := Triggered(s.pollers))
    case ReadResponse(_) => s
    case Open => s.(sh := s.sh.(response := 0, irqEvent := false))
    case Identify => s.(sh := s.sh.(response := 0))
  }

  function Woken(w: Worker): Worker {
    match w
    case Armed(_) => Armed(true)
    case Parked(_) => Parked(true)
    case _ => w
  }

  function Triggered(pollers: map<nat, Poller>): map<nat, Poller> {
    map t | t in pollers :: if pollers[t].Testing? then Testing(true) else Sleeping(true)
  }

  function WorkerNext(s: State): State
    requires Enabled(s, WorkerAct)
  {
    match s.worker
    case Check => s.(worker := if s.queue == [] then Armed(false) else Peek)
    case Armed(woken) => s.(worker := if s.queue == [] then Parked(woken) else Peek)
    case Parked(_) => s.(worker := Armed(false))
    case Peek => s.(worker := if s.queue == [] then Wild else Spin(s.queue[0]))
    case Spin(e) => if s.sh.status == BUSY then s else s.(worker := Running(e, 0))
    case Running(e, k) => if k < RunLen(e.req) then RunNext(s, e, k) else s.(worker := Unlink(e))
    case Unlink(e) => s.(queue := Without(s.queue, e), removed := s.removed + [e], worker := Check)
  }

  // One store of dx_v3_dsp_run. The entry counts as dispatched with the busy mark, and the
  // DSP starts on the last header word.
  function RunNext(s: State, e: Entry, k: nat): State
    requires k < RunLen(e.req)
  {
    s.(sh := Exec(RunOp(e.req, k), s.sh),
       dispatched := if k == 0 then s.dispatched + [e] else s.dispatched,
       started := if k == RunLen(e.req) - 1 then s.started + 1 else s.started,
       worker := if k == RunLen(e.req) - 1 then Unlink(e) else Running(e, k + 1))
  }

  // list_del of one node, wherever it is linked.
  function Without(q: seq<Entry>, e: Entry): seq<Entry> {
    if q == [] then [] else if q[0] == e then q[1..] else [q[0]] + Without(q[1..], e)
  }

  // One store of dsp_irq_handler; the handler is entered while a mailbox channel is pending.
  function HandlerNext(s: State): State
    requires Enabled(s, HandlerAct)
  {
    match s.handler
    case Quiet => s.(handler := Serving(0), entered := s.entered + 1)
    case Serving(k) =>
      if k >= HANDLER_LEN then s.(handler := Quiet) else
      var op := HandlerOp(k);
      s.(sh := Exec(op, s.sh),
         published := if op.Publish? then s.published + [s.sh.reqId] else s.published,
         handled := if op.StoreStatus? then s.handled + 1 else s.handled,
         pollers := if op.WakeReaders? then Triggered(s.pollers) else s.pollers,
         handler := if k == HANDLER_LEN - 1 then Quiet else Serving(k + 1))
  }

  // ---- runs ----

  ghost predicate StepAt(states: seq<State>, acts: seq<Action>, i: nat)
    requires i < |acts| && i + 1 < |states|
  {
    Enabled(states[i], acts[i]) && states[i + 1] == Next(states[i], acts[i])
  }

  ghost predicate IsExecution(states: seq<State>, acts: seq<Action>) {
    && |states| == |acts| + 1
    && forall i :: 0 <= i < |acts| ==> StepAt(states, acts, i)
  }

  ghost predicate IsRun(states: seq<State>, acts: seq<Action>) {
    IsExecution(states, acts) && Init(states[0])
  }

  function Ids(entries: seq<Entry>): seq<U32> {
    seq(|entries|, i requires 0 <= i < |entries| => entries[i].req.reqId)
  }

  function Requests(entries: seq<Entry>): (r: seq<Request>)
    ensures |r| == |entries|
  {
    seq(|entries|, i requires 0 <= i < |entries| => entries[i].req)
  }
}
