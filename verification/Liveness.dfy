// Progress, with fair scheduling and a DSP that answers every start: every request written is
// answered, also while writing goes on, and once writing stops the driver drains completely.
// The argument is a measure that every helpful step decreases.
module Liveness {
  import opened Registers
  import opened Protocol
  import opened Invariant

  // Everything written has been dispatched, answered and handled.
  ghost predicate Drained(s: State) {
    && s.queue == [] && s.handler == Quiet && s.sh.status != BUSY
    && |s.published| == |s.enqueued| == s.handled
    && !s.sh.ch0 && !s.sh.ch1
  }

  // ---- the measure ----

  // Worker steps one queued request may still need.
  function Cost(e: Entry): nat {
    RunLen(e.req) + 10
  }

  function TotalCost(q: seq<Entry>): nat {
    if q == [] then 0 else Cost(q[0]) + TotalCost(q[1..])
  }

  // Worker steps left for the first queued request, from the worker's present place.
  function Rank(w: Worker, e: Entry): nat {
    var n := RunLen(e.req);
    match w
    case Parked(woken) => if woken then n + 8 else n + 9
    case Check => n + 7
    case Armed(_) => n + 7
    case Peek => n + 5
    case Spin(_) => n + 4
    case Running(_, k) => if k <= n then n - k + 2 else 2
    case Unlink(_) => 1
    case Wild => 0
  }

  function WorkerWork(s: State): nat {
    if s.queue == [] then 0 else Rank(s.worker, s.queue[0]) + TotalCost(s.queue[1..])
  }

  function HandlerWork(h: Handler): nat {
    if h.Serving? && h.k <= HANDLER_LEN then HANDLER_LEN - h.k else 0
  }

  // Completions still to be raised, interrupts still to be entered, stores still to be made.
  function Measure(s: State): int {
    (|s.enqueued| - s.raised) + 7 * (|s.enqueued| - s.entered) + HandlerWork(s.handler) + WorkerWork(s)
  }

  lemma MeasureIsNat(s: State)
    requires Inv(s)
    ensures Measure(s) >= 0
  {
    assert |s.dispatched| <= |s.enqueued| by {
      if Marked(s.worker) {
        assert s.queue != [];
      }
    }
  }

  // ---- who makes progress ----

  datatype Actor = TheWorker | TheHandler | TheDsp | AWriter(t: nat)

  predicate Acts(p: Actor, a: Action) {
    match p
    case TheWorker => a == WorkerAct
    case TheHandler => a == HandlerAct
    case TheDsp => a.DspRaise?
    case AWriter(t) => a == WakeWorker(t)
  }

  predicate CanAct(s: State, p: Actor) {
    match p
    case TheWorker => Enabled(s, WorkerAct)
    case TheHandler => Enabled(s, HandlerAct)
    case TheDsp => Enabled(s, DspRaise(true, true))
    case AWriter(t) => Enabled(s, WakeWorker(t))
  }

  // p can act, stays able to until it does, and its next step decreases the measure.
  predicate Helps(s: State, p: Actor) {
    match p
    case TheWorker =>
      && s.queue != [] && s.worker != Parked(false)
      && !(s.worker.Spin? && s.sh.status == BUSY)
    case TheHandler => Enabled(s, HandlerAct)
    case TheDsp => s.raised < s.started
    case AWriter(t) => s.queue != [] && s.worker == Parked(false) && Enabled(s, WakeWorker(t))
  }

  lemma DrainedWhenQuiet(s: State)
    requires Inv(s) && s.queue == [] && s.raised == s.started && !Enabled(s, HandlerAct)
    ensures Drained(s)
  {
    assert s.enqueued == s.removed;
  }

  lemma SomeoneHelps(s: State) returns (p: Actor)
    requires Inv(s) && !Drained(s)
    ensures Helps(s, p) && CanAct(s, p)
  {
    p := TheHandler;
    if Enabled(s, HandlerAct) {
    } else if s.raised < s.started {
      p := TheDsp;
    } else if s.queue == [] {
      DrainedWhenQuiet(s);
    } else if s.worker == Parked(false) {
      var t :| t in s.writers && s.writers[t].Waking?;
      p := AWriter(t);
    } else {
      p := TheWorker;
    }
  }

  // ---- one step ----

  lemma UnlinkedCost(s: State)
    requires Inv(s) && s.worker.Unlink?
    ensures WorkerWork(Next(s, WorkerAct)) < WorkerWork(s)
  {
    WithoutHead(s.queue, s.worker.e);
    var q := s.queue[1..];
    if q != [] {
      assert TotalCost(q) == Cost(q[0]) + TotalCost(q[1..]);
    }
  }

  lemma RunStepWork(s: State, s': State, e: Entry, k: nat)
    requires QueueInv(s) && RunStep(s, s', e, k)
    ensures WorkerWork(s') < WorkerWork(s)
  {
  }

  lemma WaitingWork(s: State)
    requires QueueInv(s) && Enabled(s, WorkerAct) && !s.worker.Running? && !s.worker.Unlink?
    ensures Helps(s, TheWorker) ==> WorkerWork(Next(s, WorkerAct)) < WorkerWork(s)
    ensures !Helps(s, TheWorker) ==> WorkerWork(Next(s, WorkerAct)) == WorkerWork(s)
  {
  }

  lemma WorkerProgress(s: State)
    requires Inv(s) && Enabled(s, WorkerAct)
    ensures Helps(s, TheWorker) ==> WorkerWork(Next(s, WorkerAct)) < WorkerWork(s)
    ensures !Helps(s, TheWorker) ==> WorkerWork(Next(s, WorkerAct)) == WorkerWork(s)
  {
    if s.worker.Running? {
      RunNextIsRunStep(s);
      RunStepWork(s, Next(s, WorkerAct), s.worker.e, s.worker.k);
    } else if s.worker.Unlink? {
      UnlinkedCost(s);
    } else {
      WaitingWork(s);
    }
  }

  lemma HandlerProgress(s: State)
    requires Inv(s) && Enabled(s, HandlerAct)
    ensures Measure(Next(s, HandlerAct)) < Measure(s)
    ensures Next(s, HandlerAct).enqueued == s.enqueued
  {
    HandlerNextIsHandlerStep(s);
  }

  lemma RaiseProgress(s: State, c0: bool, c1: bool)
    requires Inv(s) && Enabled(s, DspRaise(c0, c1))
    ensures Measure(Next(s, DspRaise(c0, c1))) < Measure(s)
    ensures Next(s, DspRaise(c0, c1)).enqueued == s.enqueued
  {
  }

  lemma WakeProgress(s: State, t: nat)
    requires Inv(s) && Enabled(s, WakeWorker(t))
    ensures var s' := Next(s, WakeWorker(t));
            && s' == s.(worker := Woken(s.worker), writers := s'.writers)
            && (forall u :: u in s.writers && u != t ==> u in s'.writers && s'.writers[u] == s.writers[u])
            && Measure(s') <= Measure(s)
            && (s.queue != [] && s.worker == Parked(false) ==> Measure(s') < Measure(s))
  {
  }

  // A step without a new write never increases the measure; a helpful step decreases it; and
  // whoever helped still does if the measure has not changed.
  lemma StepProgress(s: State, a: Action, p: Actor)
    requires Inv(s) && Enabled(s, a) && !a.Append? && Helps(s, p)
    ensures var s' := Next(s, a);
            && s'.enqueued == s.enqueued
            && Measure(s') <= Measure(s)
            && (Acts(p, a) ==> Measure(s') < Measure(s))
            && (Measure(s') == Measure(s) ==> Helps(s', p))
  {
    match a
    case WorkerAct => WorkerStep(s, p);
    case HandlerAct => HandlerProgress(s);
    case DspRaise(c0, c1) => RaiseProgress(s, c0, c1);
    case WakeWorker(t) => WakeProgress(s, t);
    case _ => EnvironmentStep(s, a, p);
  }

  lemma WorkerStep(s: State, p: Actor)
    requires Inv(s) && Enabled(s, WorkerAct) && Helps(s, p)
    ensures var s' := Next(s, WorkerAct);
            && s'.enqueued == s.enqueued
            && Measure(s') <= Measure(s)
            && (p == TheWorker ==> Measure(s') < Measure(s))
            && (Measure(s') == Measure(s) ==> Helps(s', p))
  {
    WorkerProgress(s);
    if s.worker.Running? {
      RunNextIsRunStep(s);
    } else {
      WorkerStepIsQuiet(s);
    }
  }

  lemma EnvironmentStep(s: State, a: Action, p: Actor)
    requires Inv(s) && Enabled(s, a) && IsEnvironment(a) && Helps(s, p)
    ensures var s' := Next(s, a);
            && s'.enqueued == s.enqueued && Measure(s') == Measure(s) && Helps(s', p)
  {
    EnvironmentKeepsCore(s, a);
  }

  // ---- infinite fair executions ----

  ghost predicate IsInfiniteRun(run: nat -> State, act: nat -> Action) {
    && Inv(run(0))
    && forall i: nat :: StepOf(run, act, i)
  }

  ghost predicate StepOf(run: nat -> State, act: nat -> Action, i: nat) {
    Enabled(run(i), act(i)) && run(i + 1) == Next(run(i), act(i))
  }

  // At step j the actor moves, or is unable to.
  ghost predicate Served(run: nat -> State, act: nat -> Action, p: Actor, j: nat) {
    Acts(p, act(j)) || !CanAct(run(j), p)
  }

  ghost predicate ServedAfter(run: nat -> State, act: nat -> Action, p: Actor, i: nat) {
    exists j: nat :: i <= j && Served(run, act, p, j)
  }

  // Weak fairness for the worker, the handler, the DSP and every writer about to wake the worker.
  ghost predicate Fair(run: nat -> State, act: nat -> Action) {
    forall p: Actor, i: nat :: ServedAfter(run, act, p, i)
  }

  ghost predicate NoWritesFrom(act: nat -> Action, i: nat) {
    forall j: nat :: i <= j ==> !act(j).Append?
  }

  lemma {:induction false} InfiniteInv(run: nat -> State, act: nat -> Action, i: nat)
    requires IsInfiniteRun(run, act)
    ensures Inv(run(i))
  {
    if i > 0 {
      InfiniteInv(run, act, i - 1);
      assert StepOf(run, act, i - 1);
      InvKept(run(i - 1), act(i - 1));
    }
  }

  // ---- the fairness rule ----

  // A goal, a measure of the way to it, and who brings it nearer.
  datatype Plan = Plan(goal: State -> bool, measure: State -> int, helps: (State, Actor) -> bool)

  // p can act, no step takes the run away from the goal, p's own brings it nearer, and p goes
  // on helping until the measure has dropped.
  ghost predicate HelpsAt(plan: Plan, run: nat -> State, act: nat -> Action, p: Actor, j: nat) {
    && CanAct(run(j), p)
    && plan.measure(run(j + 1)) <= plan.measure(run(j))
    && (Acts(p, act(j)) ==> plan.measure(run(j + 1)) < plan.measure(run(j)))
    && (plan.measure(run(j + 1)) == plan.measure(run(j)) ==> plan.helps(run(j + 1), p))
  }

  ghost predicate SoundAt(plan: Plan, run: nat -> State, act: nat -> Action, j: nat) {
    !plan.goal(run(j)) ==>
      && plan.measure(run(j)) >= 0
      && (exists p :: plan.helps(run(j), p))
      && forall p :: plan.helps(run(j), p) ==> HelpsAt(plan, run, act, p, j)
  }

  ghost predicate Sound(plan: Plan, run: nat -> State, act: nat -> Action, i: nat) {
    forall j: nat :: i <= j ==> SoundAt(plan, run, act, j)
  }

  // From i up to j the goal is reached, or the measure has dropped, or p still helps.
  lemma {:induction false} HelpPersists(plan: Plan, run: nat -> State, act: nat -> Action, p: Actor, i: nat, j: nat)
    returns (m: nat)
    requires Sound(plan, run, act, i) && i <= j && plan.helps(run(i), p)
    ensures i <= m <= j
    ensures plan.goal(run(m)) || plan.measure(run(m)) < plan.measure(run(i))
            || (m == j && plan.measure(run(j)) == plan.measure(run(i)) && plan.helps(run(j), p))
    decreases j - i
  {
    m := i;
    if i < j && !plan.goal(run(i)) {
      assert SoundAt(plan, run, act, i) && HelpsAt(plan, run, act, p, i);
      m := i + 1;
      if plan.measure(run(i + 1)) == plan.measure(run(i)) {
        m := HelpPersists(plan, run, act, p, i + 1, j);
      }
    }
  }

  lemma MeasureDrops(plan: Plan, run: nat -> State, act: nat -> Action, i: nat) returns (m: nat)
    requires Fair(run, act) && Sound(plan, run, act, i) && !plan.goal(run(i))
    ensures i <= m && (plan.goal(run(m)) || plan.measure(run(m)) < plan.measure(run(i)))
  {
    assert SoundAt(plan, run, act, i);
    var p :| plan.helps(run(i), p);
    assert ServedAfter(run, act, p, i);
    var j: nat :| i <= j && Served(run, act, p, j);
    m := HelpPersists(plan, run, act, p, i, j);
    if !plan.goal(run(m)) && plan.measure(run(m)) == plan.measure(run(i)) {
      assert SoundAt(plan, run, act, j) && HelpsAt(plan, run, act, p, j);
      m := j + 1;
    }
  }

  lemma {:induction false} Attained(plan: Plan, run: nat -> State, act: nat -> Action, i: nat) returns (d: nat)
    requires Fair(run, act) && Sound(plan, run, act, i)
    ensures i <= d && plan.goal(run(d))
    decreases plan.measure(run(i)) + 1
  {
    d := i;
    if !plan.goal(run(i)) {
      assert SoundAt(plan, run, act, i);
      var m := MeasureDrops(plan, run, act, i);
      if plan.goal(run(m)) {
        d := m;
      } else {
        assert SoundAt(plan, run, act, m);
        d := Attained(plan, run, act, m);
      }
    }
  }

  // ---- draining ----

  lemma HelperCanAct(s: State, p: Actor)
    requires Inv(s) && Helps(s, p)
    ensures CanAct(s, p)
  {
  }

  ghost function ToDrain(): Plan {
    Plan((s: State) => Drained(s), (s: State) => Measure(s), (s: State, p: Actor) => Helps(s, p))
  }

  lemma DrainingIsSound(run: nat -> State, act: nat -> Action, j: nat)
    requires IsInfiniteRun(run, act) && !act(j).Append?
    ensures SoundAt(ToDrain(), run, act, j)
  {
    InfiniteInv(run, act, j);
    assert StepOf(run, act, j);
    if !Drained(run(j)) {
      MeasureIsNat(run(j));
      var p := SomeoneHelps(run(j));
      assert ToDrain().helps(run(j), p);
      forall q | Helps(run(j), q)
        ensures HelpsAt(ToDrain(), run, act, q, j)
      {
        HelperCanAct(run(j), q);
        StepProgress(run(j), act(j), q);
      }
    }
  }

  // Once writing stops, all that was written is answered in order and the driver comes to rest.
  lemma EventuallyDrained(run: nat -> State, act: nat -> Action, i: nat) returns (d: nat)
    requires IsInfiniteRun(run, act) && Fair(run, act) && NoWritesFrom(act, i)
    ensures i <= d && Drained(run(d)) && run(d).enqueued == run(i).enqueued
    ensures run(d).published == Ids(run(i).enqueued)
  {
    forall j: nat | i <= j
      ensures SoundAt(ToDrain(), run, act, j)
    {
      DrainingIsSound(run, act, j);
    }
    d := Attained(ToDrain(), run, act, i);
    InfiniteInv(run, act, d);
    EnqueuedConstant(run, act, i, d);
    DrainedAnswersAll(run(d));
  }

  lemma {:induction false} EnqueuedConstant(run: nat -> State, act: nat -> Action, i: nat, j: nat)
    requires IsInfiniteRun(run, act) && NoWritesFrom(act, i) && i <= j
    ensures run(j).enqueued == run(i).enqueued
    decreases j
  {
    if i < j {
      EnqueuedConstant(run, act, i, j - 1);
      InfiniteInv(run, act, j - 1);
      assert StepOf(run, act, j - 1);
      OnlyAppendEnqueues(run(j - 1), act(j - 1));
    }
  }

  lemma OnlyAppendEnqueues(s: State, a: Action)
    requires Inv(s) && Enabled(s, a) && !a.Append?
    ensures Next(s, a).enqueued == s.enqueued
  {
    if a == HandlerAct {
      HandlerNextIsHandlerStep(s);
    } else if IsEnvironment(a) {
      EnvironmentKeepsCore(s, a);
    }
  }

  lemma DrainedAnswersAll(s: State)
    requires Inv(s) && Drained(s)
    ensures s.published == Ids(s.enqueued)
  {
    assert s.enqueued == s.removed;
    assert s.dispatched == s.removed + MarkedEntry(s.worker);
  }

  // A drained driver stays drained until the next write.
  lemma DrainedStays(s: State, a: Action)
    requires Inv(s) && Drained(s) && Enabled(s, a) && !a.Append?
    ensures Drained(Next(s, a))
  {
    if IsEnvironment(a) {
      EnvironmentKeepsCore(s, a);
    }
  }

  lemma DrainedStep(run: nat -> State, act: nat -> Action, j: nat)
    requires IsInfiniteRun(run, act) && !act(j).Append? && Drained(run(j))
    ensures Drained(run(j + 1))
  {
    InfiniteInv(run, act, j);
    assert StepOf(run, act, j);
    DrainedStays(run(j), act(j));
  }

  lemma {:induction false} StaysDrained(run: nat -> State, act: nat -> Action, d: nat, j: nat)
    requires IsInfiniteRun(run, act) && NoWritesFrom(act, d) && d <= j && Drained(run(d))
    ensures Drained(run(j))
    decreases j
  {
    if d < j {
      StaysDrained(run, act, d, j - 1);
      assert !act(j - 1).Append?;
      DrainedStep(run, act, j - 1);
    }
  }
}
