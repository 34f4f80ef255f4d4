// Progress while writing goes on: in every fair run each request written is answered, however
// many others are written behind it. A state is compared with the one it would be if only the
// first n requests had been written; later writes do not change that one.
module Answers {
  import opened Protocol
  import opened Invariant
  import opened Liveness

  // The n-th request is still linked.
  predicate Linked(s: State, n: nat) {
    |s.removed| < n <= |s.enqueued| && |s.enqueued| == |s.removed| + |s.queue|
  }

  function Trimmed(s: State, n: nat): State
    requires Linked(s, n)
  {
    s.(queue := s.queue[..n - |s.removed|], enqueued := s.enqueued[..n])
  }

  lemma TrimmedInv(s: State, n: nat)
    requires Inv(s) && Linked(s, n)
    ensures Inv(Trimmed(s, n))
  {
    var t := Trimmed(s, n);
    assert t.enqueued == t.removed + t.queue;
  }

  lemma TrimmedHelps(s: State, n: nat, p: Actor)
    requires Linked(s, n)
    ensures Helps(Trimmed(s, n), p) <==> Helps(s, p)
  {
  }

  // The state with another list, of the same first entry.
  function Relinked(s: State, q: seq<Entry>, w: seq<Entry>): State {
    s.(queue := q, enqueued := w)
  }

  // Next of the relinked state is the relinked next state.
  ghost predicate HeadDecides(s: State, a: Action, q: seq<Entry>, w: seq<Entry>) {
    && Enabled(s, a) && Enabled(Relinked(s, q, w), a)
    && Next(Relinked(s, q, w), a) == Relinked(Next(s, a), q, w)
    && Next(s, a).queue == s.queue && Next(s, a).removed == s.removed && Next(s, a).enqueued == s.enqueued
  }

  lemma WorkerSeesHead(s: State, q: seq<Entry>, w: seq<Entry>)
    requires Enabled(s, WorkerAct) && !s.worker.Unlink?
    requires q != [] && s.queue != [] && q[0] == s.queue[0]
    ensures HeadDecides(s, WorkerAct, q, w)
  {
  }

  lemma HandlerSeesNoList(s: State, q: seq<Entry>, w: seq<Entry>)
    requires Enabled(s, HandlerAct)
    ensures HeadDecides(s, HandlerAct, q, w)
  {
  }

  lemma OthersSeeNoList(s: State, a: Action, q: seq<Entry>, w: seq<Entry>)
    requires Enabled(s, a) && !a.WorkerAct? && !a.HandlerAct? && !a.Append?
    ensures HeadDecides(s, a, q, w)
  {
  }

  // Of the list, a step other than an append or an unlinking looks at the first entry only.
  lemma TrimCommutes(s: State, a: Action, n: nat)
    requires Linked(s, n) && Enabled(s, a) && !a.Append? && !(a == WorkerAct && s.worker.Unlink?)
    ensures Linked(Next(s, a), n) && Enabled(Trimmed(s, n), a)
    ensures Next(Trimmed(s, n), a) == Trimmed(Next(s, a), n)
  {
    var q, w := s.queue[..n - |s.removed|], s.enqueued[..n];
    if a == WorkerAct {
      WorkerSeesHead(s, q, w);
    } else if a == HandlerAct {
      HandlerSeesNoList(s, q, w);
    } else {
      OthersSeeNoList(s, a, q, w);
    }
  }

  // ---- the measure of the way to the n-th answer ----

  function MeasureTo(s: State, n: nat): int {
    (n - s.raised) + 7 * (n - s.entered) + HandlerWork(s.handler)
    + if Linked(s, n) then WorkerWork(Trimmed(s, n)) else 0
  }

  // Once the n-th request has been unlinked only its interrupt is left to come.
  predicate HelpsTo(s: State, n: nat, p: Actor) {
    Helps(s, p) && (!Linked(s, n) ==> p.TheHandler? || p.TheDsp?)
  }

  lemma SomeoneHelpsTo(s: State, n: nat) returns (p: Actor)
    requires Inv(s) && s.handled < n <= |s.enqueued|
    ensures HelpsTo(s, n, p) && MeasureTo(s, n) >= 0
  {
    if Linked(s, n) {
      TrimmedInv(s, n);
      p := SomeoneHelps(Trimmed(s, n));
      TrimmedHelps(s, n, p);
    } else {
      p := if Enabled(s, HandlerAct) then TheHandler else TheDsp;
    }
  }

  ghost predicate Nearer(s: State, s': State, n: nat, p: Actor, a: Action) {
    && MeasureTo(s', n) <= MeasureTo(s, n)
    && (Acts(p, a) ==> MeasureTo(s', n) < MeasureTo(s, n))
    && (MeasureTo(s', n) == MeasureTo(s, n) ==> HelpsTo(s', n, p))
  }

  lemma TrimmedNearer(s: State, s': State, n: nat, p: Actor, a: Action)
    requires Linked(s, n) && Linked(s', n)
    requires Measure(Trimmed(s', n)) <= Measure(Trimmed(s, n))
    requires Acts(p, a) ==> Measure(Trimmed(s', n)) < Measure(Trimmed(s, n))
    requires Measure(Trimmed(s', n)) == Measure(Trimmed(s, n)) ==> Helps(s', p)
    ensures Nearer(s, s', n, p, a)
  {
  }

  lemma LinkedStep(s: State, a: Action, n: nat, p: Actor)
    requires Inv(s) && Linked(s, n) && Helps(s, p)
    requires Enabled(s, a) && !a.Append? && !(a == WorkerAct && s.worker.Unlink?)
    ensures Nearer(s, Next(s, a), n, p, a)
  {
    TrimmedInv(s, n);
    TrimmedHelps(s, n, p);
    TrimCommutes(s, a, n);
    TrimmedProgress(s, Trimmed(s, n), a, n, p);
    TrimmedNearer(s, Next(s, a), n, p, a);
  }

  lemma TrimmedProgress(s: State, t: State, a: Action, n: nat, p: Actor)
    requires Inv(t) && Helps(t, p) && Enabled(s, a) && Enabled(t, a) && !a.Append?
    requires Linked(Next(s, a), n) && Next(t, a) == Trimmed(Next(s, a), n)
    ensures var t' := Trimmed(Next(s, a), n);
            && Measure(t') <= Measure(t)
            && (Acts(p, a) ==> Measure(t') < Measure(t))
            && (Measure(t') == Measure(t) ==> Helps(Next(s, a), p))
  {
    StepProgress(t, a, p);
    TrimmedHelps(Next(s, a), n, p);
  }

  lemma TailOfPrefix(q: seq<Entry>, k: nat)
    requires 0 < k <= |q|
    ensures q[..k][1..] == q[1..][..k - 1]
  {
  }

  lemma UnlinkStep(s: State, n: nat, p: Actor)
    requires Inv(s) && Linked(s, n) && s.worker.Unlink?
    ensures Nearer(s, Next(s, WorkerAct), n, p, WorkerAct)
  {
    var t, s' := Trimmed(s, n), Next(s, WorkerAct);
    TrimmedInv(s, n);
    UnlinkedCost(t);
    WithoutHead(s.queue, s.worker.e);
    WithoutHead(t.queue, s.worker.e);
    TailOfPrefix(s.queue, n - |s.removed|);
    if Linked(s', n) {
      assert Next(t, WorkerAct).queue == Trimmed(s', n).queue;
    }
  }

  lemma AppendStepTo(s: State, t: nat, n: nat, p: Actor)
    requires Inv(s) && Enabled(s, Append(t)) && n <= |s.enqueued| && HelpsTo(s, n, p)
    ensures Nearer(s, Next(s, Append(t)), n, p, Append(t))
  {
    var s' := Next(s, Append(t));
    if Linked(s, n) {
      assert Trimmed(s', n) == Trimmed(s, n).(writers := s'.writers);
    }
  }

  // The n-th request is unlinked and its interrupt not handled: what counts is the handler's
  // place and the interrupts raised and entered.
  lemma InterruptNearer(s: State, s': State, n: nat, p: Actor, a: Action)
    requires n <= |s.removed| <= |s'.removed| && (p.TheHandler? || p.TheDsp?) && Helps(s, p) && !Acts(p, a)
    requires s'.handler == s.handler && s'.raised == s.raised && s'.entered == s.entered && s'.started >= s.started
    requires s'.sh.ch0 == s.sh.ch0 && s'.sh.ch1 == s.sh.ch1
    ensures Nearer(s, s', n, p, a)
  {
  }

  lemma UnlinkedStep(s: State, a: Action, n: nat, p: Actor)
    requires Inv(s) && Enabled(s, a) && !a.Append?
    requires s.handled < n <= |s.removed| && HelpsTo(s, n, p)
    ensures Nearer(s, Next(s, a), n, p, a)
  {
    var s' := Next(s, a);
    match a
    case WorkerAct =>
      WorkerLeavesInterrupt(s);
      InterruptNearer(s, s', n, p, a);
    case HandlerAct => HandlerNearer(s, n, p);
    case DspRaise(c0, c1) => RaiseNearer(s, c0, c1, n, p);
    case WakeWorker(_) => InterruptNearer(s, s', n, p, a);
    case _ =>
      EnvironmentKeepsCore(s, a);
      InterruptNearer(s, s', n, p, a);
  }

  lemma WorkerLeavesInterrupt(s: State)
    requires Inv(s) && Enabled(s, WorkerAct)
    ensures var s' := Next(s, WorkerAct);
            && |s.removed| <= |s'.removed| && s'.handler == s.handler && s'.raised == s.raised
            && s'.entered == s.entered && s'.started >= s.started
            && s'.sh.ch0 == s.sh.ch0 && s'.sh.ch1 == s.sh.ch1
  {
    if s.worker.Running? {
      RunNextIsRunStep(s);
    } else {
      WorkerStepIsQuiet(s);
    }
  }

  lemma HandlerNearer(s: State, n: nat, p: Actor)
    requires Inv(s) && Enabled(s, HandlerAct) && n <= |s.removed|
    ensures Nearer(s, Next(s, HandlerAct), n, p, HandlerAct)
  {
    HandlerNextIsHandlerStep(s);
  }

  lemma RaiseNearer(s: State, c0: bool, c1: bool, n: nat, p: Actor)
    requires Enabled(s, DspRaise(c0, c1)) && n <= |s.removed|
    ensures Nearer(s, Next(s, DspRaise(c0, c1)), n, p, DspRaise(c0, c1))
  {
  }

  lemma StepTo(s: State, a: Action, n: nat, p: Actor)
    requires Inv(s) && Enabled(s, a) && s.handled < n <= |s.enqueued| && HelpsTo(s, n, p)
    ensures Nearer(s, Next(s, a), n, p, a)
  {
    if a.Append? {
      AppendStepTo(s, a.t, n, p);
    } else if !Linked(s, n) {
      UnlinkedStep(s, a, n, p);
    } else if a == WorkerAct && s.worker.Unlink? {
      UnlinkStep(s, n, p);
    } else {
      LinkedStep(s, a, n, p);
    }
  }

  // ---- every write is answered ----

  ghost function ToAnswer(n: nat): Plan {
    Plan((s: State) => s.handled >= n, (s: State) => MeasureTo(s, n), (s: State, p: Actor) => HelpsTo(s, n, p))
  }

  lemma AnsweringIsSound(run: nat -> State, act: nat -> Action, n: nat, j: nat)
    requires IsInfiniteRun(run, act) && n <= |run(j).enqueued|
    ensures SoundAt(ToAnswer(n), run, act, j)
  {
    InfiniteInv(run, act, j);
    assert StepOf(run, act, j);
    if run(j).handled < n {
      var p := SomeoneHelpsTo(run(j), n);
      assert ToAnswer(n).helps(run(j), p);
      forall q | HelpsTo(run(j), n, q)
        ensures HelpsAt(ToAnswer(n), run, act, q, j)
      {
        HelperCanAct(run(j), q);
        StepTo(run(j), act(j), n, q);
      }
    }
  }

  lemma EnqueuedStep(s: State, a: Action)
    requires Inv(s) && Enabled(s, a)
    ensures s.enqueued <= Next(s, a).enqueued
  {
    if !a.Append? {
      OnlyAppendEnqueues(s, a);
    }
  }

  lemma {:induction false} EnqueuedGrows(run: nat -> State, act: nat -> Action, i: nat, j: nat)
    requires IsInfiniteRun(run, act) && i <= j
    ensures run(i).enqueued <= run(j).enqueued
    decreases j - i
  {
    if i < j {
      InfiniteInv(run, act, i);
      assert StepOf(run, act, i);
      EnqueuedStep(run(i), act(i));
      EnqueuedGrows(run, act, i + 1, j);
    }
  }

  lemma HandledArePublished(s: State, w: seq<Entry>)
    requires Inv(s) && w <= s.enqueued && |w| <= s.handled
    ensures Ids(w) <= s.published
  {
    assert |w| <= |s.published| <= |s.dispatched|;
    if Marked(s.worker) {
      assert s.queue == [s.worker.e] + s.queue[1..];
      assert s.enqueued == s.dispatched + s.queue[1..];
    } else {
      assert s.enqueued == s.dispatched + s.queue;
    }
  }

  // No request starves: with writers appending for ever, whatever is in the list at some step
  // is later answered, in the order it was written, and its interrupt handled.
  lemma EveryWriteAnswered(run: nat -> State, act: nat -> Action, i: nat, n: nat) returns (d: nat)
    requires IsInfiniteRun(run, act) && Fair(run, act) && n <= |run(i).enqueued|
    ensures i <= d && run(d).handled >= n
    ensures Ids(run(i).enqueued[..n]) <= run(d).published
  {
    forall j: nat | i <= j
      ensures SoundAt(ToAnswer(n), run, act, j)
    {
      EnqueuedGrows(run, act, i, j);
      AnsweringIsSound(run, act, n, j);
    }
    d := Attained(ToAnswer(n), run, act, i);
    EnqueuedGrows(run, act, i, d);
    InfiniteInv(run, act, d);
    HandledArePublished(run(d), run(i).enqueued[..n]);
  }
}
