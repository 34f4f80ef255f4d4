// Whole system calls as steps of the transition system: what one leaves behind, and that no
// wake-up between the steps of a waiting call is forgotten.
module Calls {
  import opened Protocol

  // ---- polling ----

  // A poll that gives up, before or after its test, leaves nothing behind, so that its thread
  // can poll again.
  lemma GivingUpLeavesNothing(s: State, t: nat)
    requires t !in s.pollers
    ensures var begun := Next(s, PollRegister(t));
            && Next(begun, PollLeave(t)) == s
            && (!s.sh.irqEvent ==> Next(Next(begun, PollTest(t)), PollLeave(t)) == s)
  {
    var begun := Next(s, PollRegister(t));
    assert begun.pollers - {t} == s.pollers;
    if !s.sh.irqEvent {
      assert Next(begun, PollTest(t)).pollers - {t} == s.pollers;
    }
  }

  // A ready poll leaves nothing behind but the cleared flag.
  lemma ReadyPollLeavesNothing(s: State, t: nat)
    requires t !in s.pollers && s.sh.irqEvent
    ensures Next(Next(s, PollRegister(t)), PollTest(t))
            == s.(sh := s.sh.(irqEvent := false), readyPolls := s.readyPolls + 1)
  {
    assert Next(Next(s, PollRegister(t)), PollTest(t)).pollers == s.pollers;
  }

  // What a poller does when another has taken the event between its wake-up and its test.
  predicate TestsAgain(s: State, t: nat) {
    t in s.pollers && s.pollers[t] == Sleeping(true)
  }

  // A wake-up that comes between the registration and the test is remembered: the poller does
  // not sleep on it, also if the flag is clear again by then.
  lemma WakeBeforeTest(s: State, t: nat, u: nat)
    requires t in s.pollers && s.pollers[t].Testing? && u in s.terminators
    ensures var woken := Next(s, TerminateWake(u)).(sh := s.sh.(irqEvent := false));
            TestsAgain(Next(woken, PollTest(t)), t)
  {
  }

  // One that comes after it ends the sleep; and each look begins with no wake-up pending.
  lemma WakeAfterTest(s: State, t: nat, u: nat)
    requires t in s.pollers && s.pollers[t].Sleeping? && u in s.terminators
    ensures TestsAgain(Next(s, TerminateWake(u)), t)
    ensures var again := Next(Next(s, TerminateWake(u)), PollResume(t)).(sh := s.sh.(irqEvent := false));
            Next(again, PollTest(t)).pollers[t] == Sleeping(false)
  {
  }

  // A terminate call sets the flag, wakes every poller, counts once and leaves nothing else.
  lemma TerminateEffect(s: State, t: nat)
    requires t !in s.terminators
    ensures var s' := Next(Next(s, TerminateSet(t)), TerminateWake(t));
            && s' == s.(sh := s.sh.(irqEvent := true), terminations := s.terminations + 1, pollers := s'.pollers)
            && s'.pollers.Keys == s.pollers.Keys
            && forall u :: u in s'.pollers ==> s'.pollers[u].triggered
  {
    assert s.terminators + {t} - {t} == s.terminators;
  }

  // ---- the worker's wait ----

  // The worker looks at the list twice, before and after it registers: an entry linked between
  // the two is seen although nobody has woken the worker yet.
  lemma SecondLookSeesEntry(s: State, t: nat)
    requires s.worker == Check && s.queue == [] && t in s.writers && s.writers[t].Appending?
    ensures Next(Next(Next(s, WorkerAct), Append(t)), WorkerAct).worker == Peek
  {
  }

  // A wake-up of the registered worker makes it look again, also if it comes before the second
  // look and that look finds nothing.
  lemma WakeIsRemembered(s: State, t: nat)
    requires (s.worker.Armed? || s.worker.Parked?) && t in s.writers && s.writers[t].Waking?
    requires s.queue == []
    ensures var woken := Next(s, WakeWorker(t));
            if s.worker.Armed? then Next(Next(woken, WorkerAct), WorkerAct).worker == Armed(false)
            else Next(woken, WorkerAct).worker == Armed(false)
  {
  }

  // Without one the worker sleeps until some writer wakes it.
  lemma SleepsUnlessWoken(s: State)
    requires s.worker == Check && s.queue == []
    ensures var asleep := Next(Next(s, WorkerAct), WorkerAct);
            !Enabled(asleep, WorkerAct) && forall t :: Enabled(asleep, WakeWorker(t)) ==>
              Enabled(Next(asleep, WakeWorker(t)), WorkerAct)
  {
  }

  // ---- the DSP ----

  // A completion comes on one channel or on both and takes back none that is pending.
  lemma RaisingAdds(s: State, c0: bool, c1: bool)
    requires s.raised < s.started && (c0 || c1)
    ensures Enabled(s, DspRaise(c0, c1))
    ensures var s' := Next(s, DspRaise(c0, c1));
            && s'.raised == s.raised + 1 && (s'.sh.ch0 <==> s.sh.ch0 || c0) && (s'.sh.ch1 <==> s.sh.ch1 || c1)
            && Enabled(s', HandlerAct)
  {
  }
}
