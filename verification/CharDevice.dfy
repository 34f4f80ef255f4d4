// The character device: write, poll, read and open on one side, the worker thread on the other,
// each as the code that runs when nobody interrupts it. Every method is also shown to be a run
// of the transition system (modules/rt/dxrt_drv_cdev.c, modules/rt/dxrt_drv_thread.c).
module CharDevice {
  import opened Words
  import opened Message
  import opened Registers
  import opened DspDevice
  import opened RequestList
  import opened MemoryWindow
  import P = Protocol
  import U = Uninterrupted

  // sizeof(dxrt_dsp_request_t) and sizeof(dxrt_response_t).
  const REQUEST_SIZE := 128
  const RESPONSE_SIZE := 40
  const POLLIN_RDNORM := 0x41

  lemma WriteShown(s: P.State, t: nat, req: Request)
    requires t !in s.writers
    ensures var s' := U.WriteAlone(s, t, req);
            s'.sh == s.sh && P.Requests(s'.queue) == P.Requests(s.queue) + [req]
  {
  }

  lemma TurnShown(s: P.State, view: Shared, reqs: seq<Request>)
    requires s.sh == view && P.Requests(s.queue) == reqs && reqs != []
    requires s.worker == P.Check && s.sh.status != BUSY
    ensures s.queue != [] && s.queue[0].req == reqs[0]
    ensures var s' := U.Repeat(s, P.WorkerAct, RunLen(s.queue[0].req) + 4);
            s'.sh == ExecRun(view, reqs[0], RunLen(reqs[0])) && P.Requests(s'.queue) == reqs[1..]
  {
    assert P.Requests(s.queue)[0] == s.queue[0].req;
    U.TurnAlone(s);
    assert P.Requests(s.queue[1..]) == reqs[1..];
  }

  lemma WaitShown(s: P.State, reqs: seq<Request>, n: nat)
    requires P.Requests(s.queue) == reqs && s.worker == P.Check && n >= 2
    requires reqs == [] || s.sh.status == BUSY
    ensures U.Repeat(s, P.WorkerAct, n) ==
            s.(worker := if s.queue == [] then P.Parked(false) else P.Spin(s.queue[0]))
  {
    U.WaitAlone(s, n);
  }

  lemma InterruptShown(s: P.State)
    requires s.handler == P.Quiet && (s.sh.ch0 || s.sh.ch1)
    ensures var s' := U.Repeat(s, P.HandlerAct, HANDLER_LEN + 1);
            && s'.sh == s.sh.(response := s.sh.reqId, ch0 := false, ch1 := false, status := IDLE, irqEvent := true)
            && s'.queue == s.queue
  {
    U.InterruptAlone(s, HANDLER_LEN);
    U.InterruptEffect(s.sh);
  }

  class Device {
    const dsp: Dsp
    const requests: List
    const window: Window
    // The worker thread has been created.
    var handlerPresent: bool
    // A wake-up of request_wq.
    var requestWake: bool
    var error: int

    ghost predicate Valid()
      reads this, dsp, requests, requests.head, requests.nodes
    {
      dsp.Valid() && requests.Valid()
    }

    // The state of the transition system has this device's memory and queue.
    ghost predicate Shows(s: P.State)
      requires Valid()
      reads this, dsp, dsp.control, dsp.sram, requests, requests.head, requests.nodes
    {
      s.sh == dsp.View() && P.Requests(s.queue) == requests.Contents()
    }

    // create_dxrt_device: dxrt_dsp_init, INIT_LIST_HEAD, kthread_run.
    constructor (rom: U32, blank: Request, dmaSize: nat)
      ensures Valid() && window.Valid() && handlerPresent
      ensures fresh(dsp) && fresh(dsp.control) && fresh(dsp.sram) && fresh(window) && fresh(window.dmaBuf)
      ensures fresh(requests) && fresh(requests.head) && requests.nodes == []
      ensures dsp.View().status == rom && dsp.log == [] && !dsp.readerWake
      ensures requests.Contents() == [] && !requestWake && error == 0
      ensures window.dmaBuf.Length == dmaSize && window.memAddr == window.memSize == 0 && window.overrun == 0
      ensures rom != BUSY ==> exists s :: P.Init(s) && Shows(s)
    {
      dsp := new Dsp(rom);
      requests := new List(blank);
      window := new Window(dmaSize);
      handlerPresent, requestWake, error := true, false, 0;
      new;
      if rom != BUSY {
        ghost var s := P.State(dsp.View(), [], P.Check, P.Quiet, map[], map[], {}, [], [], [], [], 0, 0, 0, 0, 0, 0);
        assert P.Requests(s.queue) == requests.Contents();
        assert P.Init(s) && Shows(s);
      }
    }

    // ---- dxrt_drv_cdev.c ----

    method Write(len: int, gotMemory: bool, copied: bool, req: Request) returns (ret: int)
      requires Valid()
      modifies this`requestWake, requests`nodes, requests.head`next, requests.head`prev,
               requests.nodes`next, requests.nodes`prev
      ensures Valid()
      // The id, the header and the request's own words.
      ensures ret > 0 <==> handlerPresent && gotMemory && len == 4 + |HeaderBytes(req.header)| + 4 * 29 && copied
      ensures ret > 0 ==> ret == len && requestWake
                          && requests.Contents() == old(requests.Contents()) + [req]
      ensures ret <= 0 ==> requests.Contents() == old(requests.Contents()) && requestWake == old(requestWake)
      ensures ret <= 0 ==> ret == (if !handlerPresent then 0 else if !gotMemory then -12
                                   else if len != 4 + 8 + 4 * 29 then -22 else -14)
      ensures ret > 0 ==> forall s: P.State, t: nat | old(Shows(s)) && t !in s.writers ::
                Shows(U.WriteAlone(s, t, req))
    {
      if !handlerPresent {
        return 0;
      }
      if !gotMemory {
        return -ENOMEM;
      }
      if len != REQUEST_SIZE {
        return -EINVAL;
      }
      if !copied {
        return -EFAULT;
      }
      var entry := new Node(req);
      requests.AddTail(entry);
      requestWake := true;
      ret := len;
      forall s: P.State, t: nat | old(Shows(s)) && t !in s.writers
        ensures Shows(U.WriteAlone(s, t, req))
      {
        WriteShown(s, t, req);
      }
    }

    method Poll() returns (mask: int)
      requires Valid()
      modifies dsp`irqEvent
      ensures mask == if old(dsp.irqEvent) then 0x01 + 0x40 else 0
      ensures !dsp.irqEvent && requests.Contents() == old(requests.Contents())
      ensures forall s: P.State, t: nat | old(Shows(s)) && t !in s.pollers ::
                var s' := P.Next(P.Next(s, P.PollRegister(t)), P.PollTest(t));
                Shows(s') && (mask != 0 <==> s'.readyPolls == s.readyPolls + 1)
    {
      mask := 0;
      if dsp.irqEvent {
        mask := POLLIN_RDNORM;
        dsp.irqEvent := false;
      }
    }

    method Read(len: int, copied: bool) returns (ret: int, id: U32)
      requires Valid()
      // Nine fields of four bytes and two of two.
      ensures ret > 0 <==> len >= 9 * 4 + 2 * 2 && copied
      ensures ret > 0 ==> ret == 9 * 4 + 2 * 2 && id == dsp.View().response
      ensures ret <= 0 ==> ret == if len < 9 * 4 + 2 * 2 then -22 else -14
    {
      if len < RESPONSE_SIZE {
        return -EINVAL, 0;
      }
      if !copied {
        return -EFAULT, 0;
      }
      return RESPONSE_SIZE, dsp.response;
    }

    method Open()
      requires Valid()
      modifies dsp`response, dsp`irqEvent
      ensures dsp.View() == old(dsp.View()).(response := 0, irqEvent := false)
      ensures forall s: P.State | old(Shows(s)) :: Shows(P.Next(s, P.Open))
    {
      dsp.response := 0;
      dsp.irqEvent := false;
    }

    // dxrt_identify_device (dxrt_drv_message.c)
    method Identify(dram: U32)
      requires Valid()
      modifies dsp`response, window`memAddr, window`memSize
      ensures dsp.View() == old(dsp.View()).(response := 0)
      ensures window.Valid() && window.memAddr == dram && window.memSize == 0x1EE0_0000
      ensures forall s: P.State | old(Shows(s)) :: Shows(P.Next(s, P.Identify))
    {
      dsp.response := 0;
      window.Identify(dram);
    }

    // dxrt_terminate (dxrt_drv_message.c)
    method Terminate()
      requires Valid()
      modifies this`error, dsp`log, dsp`irqEvent, dsp`readerWake
      ensures dsp.View() == old(dsp.View()).(irqEvent := true) && dsp.readerWake && error == 99
      ensures dsp.log == old(dsp.log) + [SetEvent, WakeReaders]
      ensures forall s: P.State, t: nat | old(Shows(s)) && t !in s.terminators ::
                Shows(P.Next(P.Next(s, P.TerminateSet(t)), P.TerminateWake(t)))
    {
      dsp.RaiseEvent();
      dsp.WakePollers();
      error := 99;
    }

    // ---- dxrt_drv_thread.c ----

    // Peek, run and unlink, once the list is known to hold an entry.
    method ServeFirst(observed: seq<U32>) returns (sent: bool)
      requires Valid() && requests.Contents() != []
      modifies dsp`log, dsp`stray, dsp`reqId, dsp.control, dsp.sram,
               requests`nodes, requests.head`next, requests.head`prev,
               requests.nodes`next, requests.nodes`prev
      ensures Valid()
      ensures sent <==> exists i :: 0 <= i < |observed| && observed[i] != 0xFFAA
      ensures dsp.OnlyStatusChanged(old(dsp.control[..]))
      ensures !sent ==> dsp.View() == old(dsp.View()) && requests.Contents() == old(requests.Contents())
      ensures !sent ==> dsp.log == old(dsp.log)
      ensures sent ==>
                var req := old(requests.Contents())[0];
                && dsp.View() == ExecRun(old(dsp.View()), req, RunLen(req))
                && dsp.log == old(dsp.log) + RunProgram(req)
                && requests.Contents() == old(requests.Contents())[1..]
    {
      var entry := requests.First();
      ghost var queued := requests.Contents();
      var polls;
      sent, polls := dsp.Run(entry.request, observed);
      assert requests.Valid() && requests.Contents() == queued;
      if sent {
        ghost var view := dsp.View();
        requests.Delete(entry, 0);
        assert dsp.Valid() && dsp.View() == view;
      }
    }

    // One turn of dxrt_request_handler that nobody interrupts, so that the status register
    // reads what it holds: nothing happens on an empty list, and while the register reads busy
    // the worker spins on the first entry, which stays linked.
    method WorkerTurn() returns (sent: bool)
      requires Valid()
      modifies dsp`log, dsp`stray, dsp`reqId, dsp.control, dsp.sram,
               requests`nodes, requests.head`next, requests.head`prev,
               requests.nodes`next, requests.nodes`prev
      ensures Valid()
      ensures sent <==> old(requests.Contents()) != [] && old(dsp.View()).status != 0xFFAA
      ensures dsp.OnlyStatusChanged(old(dsp.control[..]))
      ensures !sent ==> dsp.View() == old(dsp.View()) && requests.Contents() == old(requests.Contents())
      ensures !sent ==> dsp.log == old(dsp.log)
      ensures sent ==>
                var req := old(requests.Contents())[0];
                && dsp.View() == ExecRun(old(dsp.View()), req, RunLen(req))
                && dsp.log == old(dsp.log) + RunProgram(req)
                && requests.Contents() == old(requests.Contents())[1..]
      ensures sent ==> forall s: P.State | old(Shows(s)) && s.worker == P.Check ::
                s.queue != [] && Shows(U.Repeat(s, P.WorkerAct, RunLen(s.queue[0].req) + 4))
      ensures !sent ==> forall s: P.State, n: nat | old(Shows(s)) && s.worker == P.Check && n >= 2 ::
                && Shows(U.Repeat(s, P.WorkerAct, n))
                && U.Repeat(s, P.WorkerAct, n).worker == if s.queue == [] then P.Parked(false) else P.Spin(s.queue[0])
    {
      sent := false;
      ghost var view, queued := dsp.View(), requests.Contents();
      var empty := requests.IsEmpty();
      if !empty {
        sent := ServeFirst([dsp.control[REG_DSP_STATUS]]);
        assert [view.status][0] == view.status;
      }
      if sent {
        forall s: P.State | old(Shows(s)) && s.worker == P.Check
          ensures s.queue != [] && Shows(U.Repeat(s, P.WorkerAct, RunLen(s.queue[0].req) + 4))
        {
          TurnShown(s, view, queued);
        }
      } else {
        forall s: P.State, n: nat | old(Shows(s)) && s.worker == P.Check && n >= 2
          ensures Shows(U.Repeat(s, P.WorkerAct, n))
          ensures U.Repeat(s, P.WorkerAct, n).worker == if s.queue == [] then P.Parked(false) else P.Spin(s.queue[0])
        {
          WaitShown(s, queued, n);
        }
      }
    }

    // dsp_irq_handler, entered with a mailbox channel pending.
    method Interrupt()
      requires Valid()
      modifies dsp`log, dsp`response, dsp`ch0, dsp`ch1, dsp`irqEvent, dsp`readerWake, dsp.control
      ensures dsp.View() == old(dsp.View()).(response := old(dsp.reqId), ch0 := false, ch1 := false,
                                             status := 0, irqEvent := true)
      ensures dsp.OnlyStatusChanged(old(dsp.control[..]))
      ensures dsp.readerWake && dsp.log == old(dsp.log) + HandlerProgram()
      ensures forall s: P.State | old(Shows(s)) && s.handler == P.Quiet && (s.sh.ch0 || s.sh.ch1) ::
                Shows(U.Repeat(s, P.HandlerAct, HANDLER_LEN + 1))
    {
      dsp.IrqHandler();
      forall s: P.State | old(Shows(s)) && s.handler == P.Quiet && (s.sh.ch0 || s.sh.ch1)
        ensures Shows(U.Repeat(s, P.HandlerAct, HANDLER_LEN + 1))
      {
        InterruptShown(s);
      }
    }
  }
}
