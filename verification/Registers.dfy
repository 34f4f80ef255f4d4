// The memory the driver's actors share and the single stores they perform on it.
// One `Op` is one atomic step of `dx_v3_dsp_run` or of `dsp_irq_handler`.
module Registers {
  import opened Words
  import opened Message

  const BUSY: U32 := 0xFFAA
  const IDLE: U32 := 0

  // `stray` records the stores whose byte offset lies outside the SRAM mapping.
  datatype Shared = Shared(
    status: U32,
    sram: seq<U32>,
    stray: seq<(U32, U32)>,
    reqId: U32,
    response: U32,
    ch0: bool,
    ch1: bool,
    irqEvent: bool)

  datatype Op =
    | StoreStatus(value: U32)
    | SetReqId(id: U32)
    | StoreSram(addr: U32, word: U32)
    | Publish
    | ClearCh0
    | ClearCh1
    | SetEvent
    | WakeReaders

  function Exec(op: Op, sh: Shared): Shared {
    match op
    case StoreStatus(v) => sh.(status := v)
    case SetReqId(id) => sh.(reqId := id)
    case StoreSram(a, w) =>
      if a / 4 < |sh.sram| then sh.(sram := sh.sram[a / 4 := w])
      else sh.(stray := sh.stray + [(a, w)])
    case Publish => sh.(response := sh.reqId)
    case ClearCh0 => sh.(ch0 := false)
    case ClearCh1 => sh.(ch1 := false)
    case SetEvent => sh.(irqEvent := true)
    case WakeReaders => sh
  }

  // Number of stores one call of `dx_v3_dsp_run` makes once its spin has ended.
  function RunLen(req: Request): (n: nat)
    ensures 4 <= n
  {
    PayloadWords(req) + 4
  }

  // The k-th of them: busy mark, request id, payload, header. The last one starts the DSP.
  function RunOp(req: Request, k: nat): Op
    requires k < RunLen(req)
  {
    var n := PayloadWords(req);
    if k == 0 then StoreStatus(BUSY)
    else if k == 1 then SetReqId(req.reqId)
    else if k < 2 + n then StoreSram(DataAddr(req.reqId, k - 2), req.memory[k - 2])
    else StoreSram(HeadAddr(req.reqId, k - 2 - n), HeadWord(req.header, k - 2 - n))
  }

  const HANDLER_LEN: nat := 6

  // The k-th store of one interrupt.
  function HandlerOp(k: nat): Op
    requires k < HANDLER_LEN
  {
    match k
    case 0 => Publish
    case 1 => ClearCh0
    case 2 => ClearCh1
    case 3 => StoreStatus(IDLE)
    case 4 => SetEvent
    case _ => WakeReaders
  }

  function RunProgram(req: Request): seq<Op> {
    seq(RunLen(req), k requires 0 <= k < RunLen(req) => RunOp(req, k))
  }

  function HandlerProgram(): seq<Op> {
    seq(HANDLER_LEN, k requires 0 <= k < HANDLER_LEN => HandlerOp(k))
  }

  // The effect of the first k stores of a run made without interruption.
  function ExecRun(sh: Shared, req: Request, k: nat): Shared
    requires k <= RunLen(req)
  {
    if k == 0 then sh else Exec(RunOp(req, k - 1), ExecRun(sh, req, k - 1))
  }

  function ExecHandler(sh: Shared, k: nat): Shared
    requires k <= HANDLER_LEN
  {
    if k == 0 then sh else Exec(HandlerOp(k - 1), ExecHandler(sh, k - 1))
  }
}
