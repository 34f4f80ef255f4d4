// The link between the imperative driver and the transition system: a call that nobody
// interrupts is a run of the transition system, with the same effect on the shared memory.
module Uninterrupted {
  import opened Words
  import opened Message
  import opened Registers
  import opened Slots
  import opened Protocol
  import opened Invariant
  import opened Theorems

  function Iterate<S>(f: S -> S, s: S, n: nat): S {
    if n == 0 then s else f(Iterate(f, s, n - 1))
  }

  lemma {:induction false} IterateAdd<S>(f: S -> S, s: S, m: nat, n: nat)
    ensures Iterate(f, Iterate(f, s, m), n) == Iterate(f, s, m + n)
  {
    if n > 0 {
      IterateAdd(f, s, m, n - 1);
    }
  }

  predicate Keeps<S>(f: S -> S, good: S -> bool, s: S) {
    good(s) ==> good(f(s))
  }

  lemma {:induction false} IterateKeeps<S>(f: S -> S, good: S -> bool, s: S, n: nat)
    requires good(s) && forall p: S :: Keeps(f, good, p)
    ensures good(Iterate(f, s, n))
  {
    if n > 0 {
      IterateKeeps(f, good, s, n - 1);
      assert Keeps(f, good, Iterate(f, s, n - 1));
    }
  }

  ghost predicate Follows<S>(f: S -> S, mid: nat -> S, k: nat) {
    f(mid(k)) == mid(k + 1)
  }

  // If each step leads from one of a row of states to the next, n steps lead to the n-th.
  lemma {:induction false} IterateFollows<S>(f: S -> S, mid: nat -> S, n: nat)
    requires forall k: nat | k < n :: Follows(f, mid, k)
    ensures Iterate(f, mid(0), n) == mid(n)
  {
    if n > 0 {
      IterateFollows(f, mid, n - 1);
      assert Follows(f, mid, n - 1);
    }
  }

  // One step of an action if it is enabled.
  function Tick(a: Action): State -> State {
    s => if Enabled(s, a) then Next(s, a) else s
  }

  // n consecutive steps of one action.
  function Repeat(s: State, a: Action, n: nat): State {
    Iterate(Tick(a), s, n)
  }

  // The state k stores into an uninterrupted call of dx_v3_dsp_run.
  function MidRun(s: State, e: Entry, k: nat): State
    requires k <= RunLen(e.req)
  {
    s.(sh := ExecRun(s.sh, e.req, k),
       dispatched := if k == 0 then s.dispatched else s.dispatched + [e],
       started := if k == RunLen(e.req) then s.started + 1 else s.started,
       worker := if k == RunLen(e.req) then Unlink(e) else Running(e, k))
  }

  lemma RunAlone(s: State, e: Entry, k: nat)
    requires s.worker == Running(e, 0) && k <= RunLen(e.req)
    ensures Repeat(s, WorkerAct, k) == MidRun(s, e, k)
  {
    var mid := (i: nat) => if i <= RunLen(e.req) then MidRun(s, e, i) else s;
    forall i: nat | i < k
      ensures Follows(Tick(WorkerAct), mid, i)
    {
      RunNextAdvances(s, e, i);
    }
    IterateFollows(Tick(WorkerAct), mid, k);
    assert mid(0) == s;
  }

  lemma RunNextAdvances(s: State, e: Entry, k: nat)
    requires k < RunLen(e.req)
    ensures Enabled(MidRun(s, e, k), WorkerAct)
    ensures Next(MidRun(s, e, k), WorkerAct) == MidRun(s, e, k + 1)
  {
    assert ExecRun(s.sh, e.req, k + 1) == Exec(RunOp(e.req, k), ExecRun(s.sh, e.req, k));
  }

  lemma TurnBegins(s: State, b: nat)
    requires s.worker == Check && s.queue != [] && s.sh.status != BUSY && b == 3
    ensures Repeat(s, WorkerAct, b) == s.(worker := Running(s.queue[0], 0))
  {
    assert Repeat(s, WorkerAct, b - 3) == s;
    assert Repeat(s, WorkerAct, b - 2) == s.(worker := Peek);
    assert Repeat(s, WorkerAct, b - 1) == s.(worker := Spin(s.queue[0]));
  }

  lemma TurnEnds(p: State, e: Entry)
    requires p.worker == Unlink(e) && p.queue != [] && p.queue[0] == e
    ensures Tick(WorkerAct)(p) == p.(queue := p.queue[1..], removed := p.removed + [e], worker := Check)
  {
    WithoutHead(p.queue, e);
  }

  // What one turn of the worker's loop leaves: the first entry is sent and unlinked.
  function AfterTurn(s: State, e: Entry): State
    requires s.queue != []
  {
    s.(sh := ExecRun(s.sh, e.req, RunLen(e.req)),
       queue := s.queue[1..], removed := s.removed + [e],
       dispatched := s.dispatched + [e], started := s.started + 1,
       worker := Check)
  }

  lemma IterateJoins<S>(f: S -> S, s: S, b: nat, n: nat, p: S)
    requires Iterate(f, Iterate(f, s, b), n) == p
    ensures Iterate(f, s, b + n + 1) == f(p)
  {
    IterateAdd(f, s, b, n);
  }

  lemma MidRunEnds(s: State, e: Entry, p: State)
    requires s.queue != [] && s.queue[0] == e
    requires p == MidRun(s.(worker := Running(e, 0)), e, RunLen(e.req))
    ensures p.worker == Unlink(e) && p.queue == s.queue
    ensures AfterTurn(s, e) == p.(queue := p.queue[1..], removed := p.removed + [e], worker := Check)
  {
  }

  // One turn with the DSP idle.
  lemma TurnAlone(s: State)
    requires s.worker == Check && s.queue != [] && s.sh.status != BUSY
    ensures Repeat(s, WorkerAct, RunLen(s.queue[0].req) + 4) == AfterTurn(s, s.queue[0])
  {
    var b: nat :| b == 3;
    TurnFrom(s, s.queue[0], b, RunLen(s.queue[0].req));
  }

  lemma TurnFrom(s: State, e: Entry, b: nat, n: nat)
    requires s.worker == Check && s.queue != [] && s.sh.status != BUSY
    requires s.queue[0] == e && n == RunLen(e.req) && b == 3
    ensures Repeat(s, WorkerAct, b + n + 1) == AfterTurn(s, e)
  {
    TurnBegins(s, b);
    var begun := Repeat(s, WorkerAct, b);
    RunAlone(begun, e, n);
    var p := Repeat(begun, WorkerAct, n);
    MidRunEnds(s, e, p);
    IterateJoins(Tick(WorkerAct), s, b, n, p);
    TurnEnds(p, e);
  }

  // A turn that cannot send: the worker parks on an empty list and spins on a busy DSP, for as
  // long as nobody else moves, and changes nothing.
  lemma {:induction false} WaitAlone(s: State, n: nat)
    requires s.worker == Check && n >= 2 && (s.queue == [] || s.sh.status == BUSY)
    ensures Repeat(s, WorkerAct, n) == s.(worker := if s.queue == [] then Parked(false) else Spin(s.queue[0]))
  {
    if n == 2 {
      assert Repeat(s, WorkerAct, n - 2) == s;
      assert Repeat(s, WorkerAct, n - 1) == s.(worker := if s.queue == [] then Armed(false) else Peek);
    } else {
      WaitAlone(s, n - 1);
    }
  }

  // One uninterrupted write call of thread t, up to its wake call.
  function WriteAlone(s: State, t: nat, req: Request): State
    requires t !in s.writers
  {
    Next(Next(Next(s, WriteBegin(t, req)), Append(t)), WakeWorker(t))
  }

  lemma StuckTicks(s: State)
    requires Stuck(s)
    ensures Stuck(Tick(WorkerAct)(s))
  {
    if Enabled(s, WorkerAct) {
      StuckStays(s, WorkerAct);
    }
  }

  lemma StuckRepeats(s: State, n: nat)
    requires Stuck(s)
    ensures Stuck(Repeat(s, WorkerAct, n))
  {
    var stuck := (p: State) => Stuck(p);
    forall p: State
      ensures Keeps(Tick(WorkerAct), stuck, p)
    {
      if Stuck(p) {
        StuckTicks(p);
      }
    }
    IterateKeeps(Tick(WorkerAct), stuck, s, n);
  }

  // The status register shares its address with the reset-vector register. The first request
  // is sent exactly when the code address left there does not read as busy.
  lemma FirstRequestSentExactly(s: State, rom: U32, req: Request)
    requires Init(s.(sh := s.sh.(status := rom)))
    ensures Repeat(WriteAlone(s, 0, req), WorkerAct, RunLen(req) + 4).started == 1 <==> s.sh.status != BUSY
  {
    var w := WriteAlone(s, 0, req);
    FirstWriteQueues(s, rom, req, w);
    FirstTurn(w, req, RunLen(req) + 4);
  }

  lemma FirstTurn(w: State, req: Request, n: nat)
    requires w.queue == [Entry(0, req)] && w.worker == Check && w.started == 0 && n == RunLen(req) + 4
    requires w.sh.status == BUSY ==> Stuck(w)
    ensures Repeat(w, WorkerAct, n).started == 1 <==> w.sh.status != BUSY
  {
    if w.sh.status == BUSY {
      StuckRepeats(w, n);
    } else {
      TurnAlone(w);
    }
  }

  lemma FirstWriteQueues(s: State, rom: U32, req: Request, w: State)
    requires Init(s.(sh := s.sh.(status := rom))) && w == WriteAlone(s, 0, req)
    ensures w.queue == [Entry(0, req)] && w.worker == Check && w.sh == s.sh && w.started == 0
    ensures s.sh.status == BUSY ==> Stuck(w)
  {
  }

  // The state k stores into an uninterrupted interrupt.
  function MidInterrupt(s: State, k: nat): State
    requires k <= HANDLER_LEN
  {
    s.(sh := ExecHandler(s.sh, k),
       entered := s.entered + 1,
       published := if k == 0 then s.published else s.published + [s.sh.reqId],
       handled := if k >= 4 then s.handled + 1 else s.handled,
       pollers := if k == HANDLER_LEN then Triggered(s.pollers) else s.pollers,
       handler := if k == HANDLER_LEN then Quiet else Serving(k))
  }

  lemma {:induction false} InterruptAlone(s: State, k: nat)
    requires s.handler == Quiet && (s.sh.ch0 || s.sh.ch1) && k <= HANDLER_LEN
    ensures Repeat(s, HandlerAct, k + 1) == MidInterrupt(s, k)
  {
    if k == 0 {
      assert Repeat(s, HandlerAct, 0) == s;
    } else {
      InterruptAlone(s, k - 1);
      InterruptAdvances(s, k - 1);
    }
  }

  lemma InterruptAdvances(s: State, k: nat)
    requires k < HANDLER_LEN
    ensures Enabled(MidInterrupt(s, k), HandlerAct)
    ensures Next(MidInterrupt(s, k), HandlerAct) == MidInterrupt(s, k + 1)
  {
    assert ExecHandler(s.sh, k + 1) == Exec(HandlerOp(k), ExecHandler(s.sh, k));
  }

  // Its effect on the shared memory, all six stores together.
  lemma InterruptEffect(sh: Shared)
    ensures ExecHandler(sh, HANDLER_LEN) ==
            sh.(response := sh.reqId, ch0 := false, ch1 := false, status := IDLE, irqEvent := true)
  {
    assert ExecHandler(sh, 1) == sh.(response := sh.reqId);
    assert ExecHandler(sh, 3) == sh.(response := sh.reqId, ch0 := false, ch1 := false);
    assert ExecHandler(sh, 4) == sh.(response := sh.reqId, ch0 := false, ch1 := false, status := IDLE);
    assert ExecHandler(sh, 5) ==
           sh.(response := sh.reqId, ch0 := false, ch1 := false, status := IDLE, irqEvent := true);
  }

  // A request sent and completed without interruption comes back as its own response.
  lemma EchoAlone(sh: Shared, req: Request)
    requires |sh.sram| == SRAM_WORDS && FitsSlot(req)
    ensures var after := ExecHandler(ExecRun(sh, req, RunLen(req)), HANDLER_LEN);
            after == sh.(response := req.reqId, reqId := req.reqId, ch0 := false, ch1 := false,
                         status := IDLE, irqEvent := true, sram := WriteSlot(sh.sram, req))
  {
    RunWritesSlot(sh, req);
    InterruptEffect(ExecRun(sh, req, RunLen(req)));
  }

  // ---- why there has to be a single caller of dx_v3_dsp_run ----

  // The shared memory with the number of messages started and of answers published.
  datatype Tally = Tally(sh: Shared, started: nat, answered: nat)

  function RunTally(c: Tally, req: Request, k: nat): Tally
    requires k < RunLen(req)
  {
    c.(sh := Exec(RunOp(req, k), c.sh), started := if k == RunLen(req) - 1 then c.started + 1 else c.started)
  }

  // The stores of a run from the k-th on.
  function StoreRest(c: Tally, req: Request, k: nat): Tally
    requires k <= RunLen(req)
    decreases RunLen(req) - k
  {
    if k == RunLen(req) then c else StoreRest(RunTally(c, req, k), req, k + 1)
  }

  function InterruptTally(c: Tally): Tally {
    c.(sh := ExecHandler(c.sh, HANDLER_LEN), answered := c.answered + 1)
  }

  // Two callers a and b that both find the status register idle: b's busy mark and id follow
  // a's at once, then both store their messages. Two messages are started; the interrupt that
  // answers the first publishes the id of b and marks the DSP idle while one is unanswered.
  lemma TwoCallersCollide(c: Tally, a: Request, b: Request)
    requires c.sh.status != BUSY && c.started == c.answered && a.reqId != b.reqId
    ensures var marked := RunTally(RunTally(RunTally(RunTally(c, a, 0), a, 1), b, 0), b, 1);
            var stored := StoreRest(StoreRest(marked, a, 2), b, 2);
            var after := InterruptTally(stored);
            && stored.sh.status == BUSY && stored.started == stored.answered + 2
            && after.sh.response == b.reqId != a.reqId
            && after.sh.status == IDLE && after.started == after.answered + 1
  {
    var marked := RunTally(RunTally(RunTally(RunTally(c, a, 0), a, 1), b, 0), b, 1);
    StoreRestFrame(marked, a, 2);
    StoreRestFrame(StoreRest(marked, a, 2), b, 2);
    InterruptEffect(StoreRest(StoreRest(marked, a, 2), b, 2).sh);
  }

  lemma {:induction false} StoreRestFrame(c: Tally, req: Request, k: nat)
    requires 2 <= k <= RunLen(req)
    ensures var r := StoreRest(c, req, k);
            && r.sh == c.sh.(sram := r.sh.sram, stray := r.sh.stray)
            && r.started == (if k < RunLen(req) then c.started + 1 else c.started)
            && r.answered == c.answered
    decreases RunLen(req) - k
  {
    if k < RunLen(req) {
      StoreRestFrame(RunTally(c, req, k), req, k + 1);
    }
  }
}
