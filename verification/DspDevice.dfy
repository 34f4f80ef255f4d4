// The DSP as the driver sees it: control registers, message SRAM, mailbox channels and the
// fields of `struct dxdsp`, with dx_v3_dsp_run and dsp_irq_handler working on them in place
// (modules/rt/dxrt_drv_dsp_v3.c).
module DspDevice {
  import opened Words
  import opened Message
  import opened Registers
  import opened Slots

  // Word indices of control registers. The last two share one address.
  const REG_DSP_RUNSTALL: nat := 0x0 / 4
  const REG_DSP_CLOCK: nat := 0x4 / 4
  const REG_DSP_RESET_CTRL: nat := 0xC / 4
  const REG_DSP_STATUS: nat := 0xC / 4
  const CONTROL_WORDS: nat := 0x1000 / 4

  lemma PayloadOp(req: Request, i: nat)
    requires i < PayloadWords(req)
    ensures RunOp(req, 2 + i) ==
            StoreSram(Wrap32(REG_DSP_MSG + (SlotIndex(req.reqId) + i) * 4 + 8), req.memory[i])
  {
  }

  lemma HeaderOp(req: Request, i: nat)
    requires i < 2
    ensures RunOp(req, 2 + PayloadWords(req) + i) ==
            StoreSram(Wrap32(REG_DSP_MSG + (SlotIndex(req.reqId) + i) * 4), HeadWord(req.header, i))
  {
  }

  lemma NextInProgram(req: Request, k: nat)
    requires k < RunLen(req)
    ensures RunProgram(req)[..k + 1] == RunProgram(req)[..k] + [RunOp(req, k)]
  {
  }

  lemma HandlerOps(start: seq<Op>)
    ensures start + [Publish] + [ClearCh0] + [ClearCh1] + [StoreStatus(IDLE)] + [SetEvent] + [WakeReaders]
            == start + HandlerProgram()
  {
    assert HandlerProgram() == [Publish, ClearCh0, ClearCh1, StoreStatus(IDLE), SetEvent, WakeReaders];
  }

  class Dsp {
    const control: array<U32>
    const sram: array<U32>
    // Stores that missed the SRAM mapping.
    var stray: seq<(U32, U32)>
    // Pending completion interrupts of the two mailbox channels.
    var ch0: bool
    var ch1: bool
    var reqId: U32
    // `req_id` of the response structure the DSP part points to.
    var response: U32
    var irqEvent: bool
    // A wake-up of irq_wq.
    var readerWake: bool
    // Every store of run, of the handler and of a terminate call, in order. Only the methods
    // that make one store extend it, each by its own store.
    ghost var log: seq<Op>

    ghost predicate Valid()
      reads this
    {
      control.Length == CONTROL_WORDS && sram.Length == SRAM_WORDS && control != sram
    }

    ghost function View(): Shared
      reads this, control, sram
      requires Valid()
    {
      Shared(control[REG_DSP_STATUS], sram[..], stray, reqId, response, ch0, ch1, irqEvent)
    }

    // Every control register but the one at offset 0xC holds what it held before.
    ghost predicate OnlyStatusChanged(before: seq<U32>)
      reads control
    {
      |before| == control.Length
      && forall i :: 0 <= i < control.Length && i != 0xC / 4 ==> control[i] == before[i]
    }

    // dx_v3_dsp_init: the idle mark is written first, then the clock is enabled and the DSP
    // halted; dx_v3_dsp_start writes the address of the DSP's code to the register of the idle
    // mark and releases the DSP.
    constructor (rom: U32)
      ensures Valid() && fresh(control) && fresh(sram) && 4 * sram.Length == 0x40000
      ensures View().status == rom && control[0xC / 4] == rom
      ensures control[0x4 / 4] == 0x07 && control[0x0] == 0x5C
      ensures !ch0 && !ch1 && !irqEvent && !readerWake && stray == [] && log == []
    {
      control := new U32[CONTROL_WORDS](_ => 0);
      sram := new U32[SRAM_WORDS](_ => 0);
      stray, reqId, response := [], 0, 0;
      ch0, ch1, irqEvent, readerWake := false, false, false, false;
      log := [];
      new;
      control[REG_DSP_STATUS] := IDLE;
      control[REG_DSP_CLOCK] := 0x07;
      control[REG_DSP_RUNSTALL] := 0x3C;
      control[REG_DSP_RESET_CTRL] := rom;
      control[REG_DSP_RUNSTALL] := 0x7C;
      control[REG_DSP_RUNSTALL] := 0x5C;
    }

    method WriteStatus(v: U32)
      requires Valid()
      modifies this`log, control
      ensures View() == Exec(StoreStatus(v), old(View())) && log == old(log) + [StoreStatus(v)]
      ensures control[0xC / 4] == v && OnlyStatusChanged(old(control[..]))
    {
      control[REG_DSP_STATUS] := v;
      log := log + [StoreStatus(v)];
    }

    method WriteMessage(addr: U32, word: U32)
      requires Valid()
      modifies this`log, this`stray, sram
      ensures View() == Exec(StoreSram(addr, word), old(View())) && log == old(log) + [StoreSram(addr, word)]
    {
      if addr / 4 < sram.Length {
        sram[addr / 4] := word;
      } else {
        stray := stray + [(addr, word)];
      }
      log := log + [StoreSram(addr, word)];
    }

    method StoreReqId(id: U32)
      requires Valid()
      modifies this`log, this`reqId
      ensures View() == Exec(SetReqId(id), old(View())) && log == old(log) + [SetReqId(id)]
    {
      reqId := id;
      log := log + [SetReqId(id)];
    }

    // The response takes the id that the request field holds now.
    method PublishResponse()
      requires Valid()
      modifies this`log, this`response
      ensures View() == Exec(Publish, old(View())) && log == old(log) + [Publish]
    {
      response := reqId;
      log := log + [Publish];
    }

    method ClearChannel0()
      requires Valid()
      modifies this`log, this`ch0
      ensures View() == Exec(ClearCh0, old(View())) && log == old(log) + [ClearCh0]
    {
      ch0 := false;
      log := log + [ClearCh0];
    }

    method ClearChannel1()
      requires Valid()
      modifies this`log, this`ch1
      ensures View() == Exec(ClearCh1, old(View())) && log == old(log) + [ClearCh1]
    {
      ch1 := false;
      log := log + [ClearCh1];
    }

    method RaiseEvent()
      requires Valid()
      modifies this`log, this`irqEvent
      ensures View() == Exec(SetEvent, old(View())) && log == old(log) + [SetEvent]
    {
      irqEvent := true;
      log := log + [SetEvent];
    }

    method WakePollers()
      requires Valid()
      modifies this`log, this`readerWake
      ensures View() == Exec(WakeReaders, old(View())) && log == old(log) + [WakeReaders] && readerWake
    {
      readerWake := true;
      log := log + [WakeReaders];
    }

    // The spin of dx_v3_dsp_run. `observed` is what the successive reads of the status register
    // return while other actors change it; the call is still spinning when all read busy.
    method AwaitAvailable(observed: seq<U32>) returns (available: bool, polls: nat)
      ensures polls <= |observed|
      ensures available <==> exists i :: 0 <= i < |observed| && observed[i] != 0xFFAA
      ensures available ==> polls > 0 && observed[polls - 1] != 0xFFAA
      ensures !available ==> polls == |observed|
      ensures forall i :: 0 <= i < (if available then polls - 1 else polls) ==> observed[i] == 0xFFAA
    {
      polls := 0;
      while polls < |observed| && observed[polls] == BUSY
        invariant polls <= |observed|
        invariant forall i :: 0 <= i < polls ==> observed[i] == BUSY
      {
        polls := polls + 1;
      }
      if polls == |observed| {
        return false, polls;
      }
      return true, polls + 1;
    }

    // Of the run of req, begun in memory `before` with the log at `start`, k stores are made.
    ghost predicate Made(before: Shared, start: seq<Op>, req: Request, k: nat)
      requires Valid() && k <= RunLen(req)
      reads this, control, sram
    {
      View() == ExecRun(before, req, k) && log == start + RunProgram(req)[..k]
    }

    // The k-th store of a run.
    method StoreWord(ghost before: Shared, ghost start: seq<Op>, req: Request, ghost k: nat, addr: U32, word: U32)
      requires Valid() && k < RunLen(req) && RunOp(req, k) == StoreSram(addr, word)
      requires Made(before, start, req, k)
      modifies this`log, this`stray, sram
      ensures Made(before, start, req, k + 1)
    {
      WriteMessage(addr, word);
      assert ExecRun(before, req, k + 1) == Exec(RunOp(req, k), ExecRun(before, req, k));
      NextInProgram(req, k);
    }

    // "dsp lock" and the request id.
    method Mark(req: Request)
      requires Valid()
      modifies this`log, this`reqId, control
      ensures Made(old(View()), old(log), req, 2)
      ensures reqId == req.reqId && control[0xC / 4] == 0xFFAA && OnlyStatusChanged(old(control[..]))
    {
      WriteStatus(BUSY);
      StoreReqId(req.reqId);
      assert View() == Exec(RunOp(req, 1), Exec(RunOp(req, 0), old(View())));
      assert ExecRun(old(View()), req, 1) == Exec(RunOp(req, 0), old(View()));
      assert RunProgram(req)[..2] == [RunOp(req, 0), RunOp(req, 1)];
    }

    // "Data setting"
    method StorePayload(ghost before: Shared, ghost start: seq<Op>, req: Request, offset: int)
      requires Valid() && offset == SlotIndex(req.reqId)
      requires Made(before, start, req, 2)
      modifies this`log, this`stray, sram
      ensures Made(before, start, req, 2 + PayloadWords(req))
    {
      var n := req.header.messageSize / 4;
      var i := 0;
      while i < n
        invariant 0 <= i <= n
        invariant Made(before, start, req, 2 + i)
      {
        PayloadOp(req, i);
        var addr, word := Wrap32(REG_DSP_MSG + (offset + i) * 4 + 8), req.memory[i];
        StoreWord(before, start, req, 2 + i, addr, word);
        i := i + 1;
      }
    }

    // "Header setting and DSP start"
    method StoreHeader(ghost before: Shared, ghost start: seq<Op>, req: Request, offset: int)
      requires Valid() && offset == SlotIndex(req.reqId)
      requires Made(before, start, req, 2 + PayloadWords(req))
      modifies this`log, this`stray, sram
      ensures Made(before, start, req, RunLen(req))
    {
      ghost var k := 2 + PayloadWords(req);
      var i := 0;
      while i < 2
        invariant 0 <= i <= 2
        invariant Made(before, start, req, k + i)
      {
        HeaderOp(req, i);
        var addr, word := Wrap32(REG_DSP_MSG + (offset + i) * 4), HeadWord(req.header, i);
        StoreWord(before, start, req, k + i, addr, word);
        i := i + 1;
      }
    }

    // Everything dx_v3_dsp_run stores once the DSP is available.
    method StoreRun(req: Request)
      requires Valid()
      modifies this`log, this`stray, this`reqId, control, sram
      ensures View() == ExecRun(old(View()), req, RunLen(req))
      ensures log == old(log) + RunProgram(req)
      ensures OnlyStatusChanged(old(control[..]))
    {
      Mark(req);
      var offset := SlotIndex(reqId);
      StorePayload(old(View()), old(log), req, offset);
      StoreHeader(old(View()), old(log), req, offset);
      assert RunProgram(req)[..RunLen(req)] == RunProgram(req);
    }

    method Run(req: Request, observed: seq<U32>) returns (sent: bool, polls: nat)
      requires Valid()
      modifies this`log, this`stray, this`reqId, control, sram
      ensures sent <==> exists i :: 0 <= i < |observed| && observed[i] != 0xFFAA
      ensures sent ==> 0 < polls <= |observed| && observed[polls - 1] != 0xFFAA
      ensures !sent ==> View() == old(View()) && log == old(log) && polls == |observed|
      ensures forall i :: 0 <= i < (if sent then polls - 1 else polls) ==> observed[i] == 0xFFAA
      ensures OnlyStatusChanged(old(control[..]))
      ensures sent ==> View() == ExecRun(old(View()), req, RunLen(req)) && log == old(log) + RunProgram(req)
      ensures sent && FitsSlot(req) ==>
                && View() == old(View()).(status := 0xFFAA, reqId := req.reqId, sram := WriteSlot(old(View()).sram, req))
                && ReadSlot(View().sram, req.reqId) == MessageOf(req)
    {
      sent, polls := AwaitAvailable(observed);
      if sent {
        StoreRun(req);
        if FitsSlot(req) {
          RunWritesSlot(old(View()), req);
          SlotRoundTrip(old(View()), req);
        }
      }
    }

    method IrqHandler()
      requires Valid()
      modifies this`log, this`response, this`ch0, this`ch1, this`irqEvent, this`readerWake, control
      ensures View() == old(View()).(response := old(reqId), ch0 := false, ch1 := false,
                                     status := 0, irqEvent := true)
      ensures readerWake && OnlyStatusChanged(old(control[..]))
      ensures log == old(log) + HandlerProgram()
    {
      PublishResponse();
      ClearChannel0();
      ClearChannel1();
      WriteStatus(IDLE);
      RaiseEvent();
      WakePollers();
      HandlerOps(old(log));
    }
  }
}
