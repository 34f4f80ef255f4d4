// What the two store loops of `dx_v3_dsp_run` do to the SRAM: they replace one message slot,
// and exactly which requests keep them inside the slot, the mapping and the request itself.
module Slots {
  import opened Words
  import opened Message
  import opened Registers

  const SLOT_WORDS := MESSAGE_MAX_SIZE / 4

  datatype SlotMessage = SlotMessage(header: Header, payload: seq<U32>)

  // Word index of the first header word of a slot.
  function SlotBase(slot: nat): nat
    requires slot < SLOT_COUNT
  {
    0xFC00 + 64 * slot
  }

  // How the DSP reads a slot: the header says how many payload words follow it.
  function ReadSlot(sram: seq<U32>, slot: nat): SlotMessage
    requires |sram| == SRAM_WORDS && slot < SLOT_COUNT
  {
    var b := SlotBase(slot);
    var h := UnpackHeader(sram[b], sram[b + 1]);
    var n := if h.messageSize / 4 <= SLOT_WORDS - 2 then h.messageSize / 4 else SLOT_WORDS - 2;
    SlotMessage(h, sram[b + 2..b + 2 + n])
  }

  function MessageOf(req: Request): SlotMessage {
    SlotMessage(req.header, req.memory[..PayloadWords(req)])
  }

  // "slot[req_id] := message"
  function WriteSlot(sram: seq<U32>, req: Request): (r: seq<U32>)
    requires |sram| == SRAM_WORDS && FitsSlot(req)
    ensures |r| == |sram|
  {
    var b := SlotBase(req.reqId);
    var n := PayloadWords(req);
    sram[..b] + [HeadWord(req.header, 0), HeadWord(req.header, 1)] + req.memory[..n] + sram[b + 2 + n..]
  }

  // A condition a caller can check before queueing the request.
  predicate FitsSlot(req: Request) {
    req.reqId < SLOT_COUNT && req.header.messageSize < MESSAGE_MAX_SIZE - 4
  }

  // ---- addresses of the stores of one run ----

  function StoreAddr(req: Request, k: nat): U32
    requires 2 <= k < RunLen(req)
  {
    RunOp(req, k).addr
  }

  // Distance in words of the k-th store from the first header word.
  function Delta(req: Request, k: nat): (d: nat)
    requires 2 <= k < RunLen(req)
    ensures d < RunLen(req)
  {
    var n := PayloadWords(req);
    if k < 2 + n then k else k - 2 - n
  }

  lemma StoreAddrFlat(req: Request, k: nat)
    requires 2 <= k < RunLen(req)
    ensures StoreAddr(req, k) == 4 * ((0xFC00 + 64 * req.reqId + Delta(req, k)) % 0x4000_0000)
  {
    var n := PayloadWords(req);
    FlatAddresses(req.reqId, if k < 2 + n then k - 2 else k - 2 - n);
  }

  // No two stores of one run meet, for any request id and message size.
  lemma StoreAddrDistinct(req: Request, j: nat, k: nat)
    requires 2 <= j < RunLen(req) && 2 <= k < RunLen(req) && j != k
    ensures StoreAddr(req, j) / 4 != StoreAddr(req, k) / 4
  {
    StoreAddrFlat(req, j);
    StoreAddrFlat(req, k);
    assert Delta(req, j) != Delta(req, k);
    WrapDistinct(0xFC00 + 64 * req.reqId, Delta(req, j), Delta(req, k));
  }

  lemma WrapDistinct(y: int, d: nat, e: nat)
    requires d != e && d < 0x4000_0000 && e < 0x4000_0000
    ensures (y + d) % 0x4000_0000 != (y + e) % 0x4000_0000
  {
  }

  // ---- the stores that have landed ----

  predicate OpLanded(op: Op, sh: Shared) {
    op.StoreSram? ==>
      if op.addr / 4 < |sh.sram| then sh.sram[op.addr / 4] == op.word else (op.addr, op.word) in sh.stray
  }

  // The first k stores of the run of req are in place.
  ghost predicate Landed(sh: Shared, req: Request, k: nat)
    requires k <= RunLen(req)
  {
    forall j :: 0 <= j < k ==> OpLanded(RunOp(req, j), sh)
  }

  lemma StoreLands(sh: Shared, req: Request, k: nat)
    requires k < RunLen(req) && Landed(sh, req, k)
    ensures Landed(Exec(RunOp(req, k), sh), req, k + 1)
  {
    var sh' := Exec(RunOp(req, k), sh);
    forall j | 0 <= j < k + 1
      ensures OpLanded(RunOp(req, j), sh')
    {
      if 2 <= j < k {
        assert OpLanded(RunOp(req, j), sh);
        StoreAddrDistinct(req, j, k);
      }
    }
  }

  lemma {:induction false} RunLands(sh: Shared, req: Request, k: nat)
    requires k <= RunLen(req)
    ensures Landed(ExecRun(sh, req, k), req, k)
  {
    if k > 0 {
      var before := ExecRun(sh, req, k - 1);
      RunLands(sh, req, k - 1);
      StoreLands(before, req, k - 1);
      assert ExecRun(sh, req, k) == Exec(RunOp(req, k - 1), before);
    }
  }

  // Publication order: the store that starts the DSP is the last one, it is the header word
  // holding `data_valid`, and before it every other word of the message is already in place.
  lemma StartIsLast(sh: Shared, req: Request)
    ensures RunOp(req, RunLen(req) - 1) == StoreSram(HeadAddr(req.reqId, 1), HeadWord(req.header, 1))
    ensures UnpackHeader(0, HeadWord(req.header, 1)).dataValid == req.header.dataValid
    ensures Landed(ExecRun(sh, req, RunLen(req) - 1), req, RunLen(req) - 1)
    ensures OpLanded(StoreSram(HeadAddr(req.reqId, 0), HeadWord(req.header, 0)), ExecRun(sh, req, RunLen(req) - 1))
    ensures forall i :: 0 <= i < PayloadWords(req) ==>
              OpLanded(StoreSram(DataAddr(req.reqId, i), req.memory[i]), ExecRun(sh, req, RunLen(req) - 1))
    ensures forall k :: 2 <= k < RunLen(req) - 1 ==> StoreAddr(req, k) != HeadAddr(req.reqId, 1)
  {
    var last := RunLen(req) - 1;
    RunLands(sh, req, last);
    HeaderRoundTrip(req.header);
    var before := ExecRun(sh, req, last);
    assert OpLanded(RunOp(req, last - 1), before);
    forall i | 0 <= i < PayloadWords(req)
      ensures OpLanded(StoreSram(DataAddr(req.reqId, i), req.memory[i]), before)
    {
      assert OpLanded(RunOp(req, i + 2), before);
    }
    forall k | 2 <= k < last
      ensures StoreAddr(req, k) != HeadAddr(req.reqId, 1)
    {
      StoreAddrDistinct(req, k, last);
    }
  }

  // ---- when the stores stay where they belong ----

  // Word i of a slot's message is stored by this step of the run.
  function StepFor(req: Request, i: nat): nat
    requires i < PayloadWords(req) + 2
  {
    if i < 2 then 2 + PayloadWords(req) + i else i
  }

  lemma SlotAddr(req: Request, k: nat)
    requires FitsSlot(req) && 2 <= k < RunLen(req)
    ensures StoreAddr(req, k) / 4 == SlotBase(req.reqId) + Delta(req, k)
    ensures StoreAddr(req, k) == 4 * (SlotBase(req.reqId) + Delta(req, k))
    ensures 0 <= Delta(req, k) < PayloadWords(req) + 2 <= SLOT_WORDS
  {
    StoreAddrFlat(req, k);
  }

  // Outside the words [b, b + n) the two memories agree.
  predicate AgreeOutside(before: seq<U32>, after: seq<U32>, b: nat, n: nat) {
    && |before| == |after|
    && forall w :: 0 <= w < |before| && !(b <= w < b + n) ==> after[w] == before[w]
  }

  lemma StoreInside(sh: Shared, op: Op, before: seq<U32>, b: nat, n: nat)
    requires op.StoreSram? && b <= op.addr / 4 < b + n <= |sh.sram|
    requires AgreeOutside(before, sh.sram, b, n)
    ensures Exec(op, sh) == sh.(sram := Exec(op, sh).sram)
    ensures AgreeOutside(before, Exec(op, sh).sram, b, n)
  {
  }

  lemma {:induction false} RunFrame(sh: Shared, req: Request, k: nat)
    requires |sh.sram| == SRAM_WORDS && FitsSlot(req) && k <= RunLen(req)
    ensures var r := ExecRun(sh, req, k);
            && r == sh.(status := if k >= 1 then BUSY else sh.status,
                        reqId := if k >= 2 then req.reqId else sh.reqId,
                        sram := r.sram)
            && AgreeOutside(sh.sram, r.sram, SlotBase(req.reqId), PayloadWords(req) + 2)
  {
    if k > 0 {
      RunFrame(sh, req, k - 1);
      if k > 2 {
        SlotAddr(req, k - 1);
        StoreInside(ExecRun(sh, req, k - 1), RunOp(req, k - 1), sh.sram, SlotBase(req.reqId), PayloadWords(req) + 2);
      }
    }
  }

  // The message as a sequence of words: header, then payload.
  function MessageWord(req: Request, i: nat): U32
    requires i < PayloadWords(req) + 2
  {
    if i < 2 then HeadWord(req.header, i) else req.memory[i - 2]
  }

  lemma MessageWordLands(sh: Shared, req: Request, i: nat)
    requires FitsSlot(req) && i < PayloadWords(req) + 2 && |sh.sram| == SRAM_WORDS
    requires Landed(sh, req, RunLen(req))
    ensures sh.sram[SlotBase(req.reqId) + i] == MessageWord(req, i)
  {
    var k := StepFor(req, i);
    SlotAddr(req, k);
    assert OpLanded(RunOp(req, k), sh);
  }

  lemma WriteSlotAt(sram: seq<U32>, req: Request, w: nat)
    requires |sram| == SRAM_WORDS && FitsSlot(req) && w < SRAM_WORDS
    ensures var b := SlotBase(req.reqId);
            WriteSlot(sram, req)[w] ==
            if b <= w < b + PayloadWords(req) + 2 then MessageWord(req, w - b) else sram[w]
  {
  }

  lemma SlotWritten(before: seq<U32>, sh: Shared, req: Request)
    requires |before| == |sh.sram| == SRAM_WORDS && FitsSlot(req)
    requires Landed(sh, req, RunLen(req))
    requires AgreeOutside(before, sh.sram, SlotBase(req.reqId), PayloadWords(req) + 2)
    ensures sh.sram == WriteSlot(before, req)
  {
    var b := SlotBase(req.reqId);
    var n := PayloadWords(req) + 2;
    forall w | 0 <= w < SRAM_WORDS
      ensures sh.sram[w] == WriteSlot(before, req)[w]
    {
      WriteSlotAt(before, req, w);
      if b <= w < b + n {
        MessageWordLands(sh, req, w - b);
      }
    }
  }

  // The whole run, all fields of the shared memory: slot[req_id] := message and nothing else.
  lemma RunWritesSlot(sh: Shared, req: Request)
    requires |sh.sram| == SRAM_WORDS && FitsSlot(req)
    ensures ExecRun(sh, req, RunLen(req)) ==
            sh.(status := BUSY, reqId := req.reqId, sram := WriteSlot(sh.sram, req))
  {
    RunLands(sh, req, RunLen(req));
    RunFrame(sh, req, RunLen(req));
    SlotWritten(sh.sram, ExecRun(sh, req, RunLen(req)), req);
  }

  // Two memories that agree on the words of a slot decode it the same way.
  lemma SameSlotSameMessage(x: seq<U32>, y: seq<U32>, s: nat)
    requires |x| == |y| == SRAM_WORDS && s < SLOT_COUNT
    requires forall w :: SlotBase(s) <= w < SlotBase(s) + SLOT_WORDS ==> x[w] == y[w]
    ensures ReadSlot(x, s) == ReadSlot(y, s)
  {
    assert ReadSlot(x, s).payload == ReadSlot(y, s).payload;
  }

  // A message whose stores have all landed decodes to the request.
  lemma LandedReadsBack(sh: Shared, req: Request)
    requires |sh.sram| == SRAM_WORDS && FitsSlot(req) && Landed(sh, req, RunLen(req))
    ensures ReadSlot(sh.sram, req.reqId) == MessageOf(req)
  {
    HeaderRoundTrip(req.header);
    var b, n := SlotBase(req.reqId), PayloadWords(req);
    MessageWordLands(sh, req, 0);
    MessageWordLands(sh, req, 1);
    forall i | 0 <= i < n
      ensures sh.sram[b + 2..b + 2 + n][i] == req.memory[..n][i]
    {
      MessageWordLands(sh, req, i + 2);
    }
    assert sh.sram[b + 2..b + 2 + n] == req.memory[..n];
  }

  lemma WrittenSlotLeavesOthers(sram: seq<U32>, req: Request, s: nat)
    requires |sram| == SRAM_WORDS && FitsSlot(req) && s < SLOT_COUNT && s != req.reqId
    ensures ReadSlot(WriteSlot(sram, req), s) == ReadSlot(sram, s)
  {
    var after := WriteSlot(sram, req);
    forall w | SlotBase(s) <= w < SlotBase(s) + SLOT_WORDS
      ensures after[w] == sram[w]
    {
    }
    SameSlotSameMessage(after, sram, s);
  }

  // Encoding then decoding a message gives it back, and every other slot still reads the same.
  lemma SlotRoundTrip(sh: Shared, req: Request)
    requires |sh.sram| == SRAM_WORDS && FitsSlot(req)
    ensures var after := ExecRun(sh, req, RunLen(req)).sram;
            && |after| == SRAM_WORDS
            && var m := ReadSlot(after, req.reqId);
            && m == MessageOf(req) && m.header == req.header
            && |m.payload| == req.header.messageSize / 4
            && (forall i :: 0 <= i < |m.payload| ==> m.payload[i] == req.memory[i])
            && forall s :: 0 <= s < 16 && s != req.reqId ==> ReadSlot(after, s) == ReadSlot(sh.sram, s)
  {
    RunWritesSlot(sh, req);
    RunLands(sh, req, RunLen(req));
    LandedReadsBack(ExecRun(sh, req, RunLen(req)), req);
    var after := ExecRun(sh, req, RunLen(req)).sram;
    assert after == WriteSlot(sh.sram, req);
    forall s | 0 <= s < SLOT_COUNT && s != req.reqId
      ensures ReadSlot(after, s) == ReadSlot(sh.sram, s)
    {
      WrittenSlotLeavesOthers(sh.sram, req, s);
    }
  }

  predicate InOwnSlot(req: Request, k: nat)
    requires 2 <= k < RunLen(req)
  {
    0x3F000 + 256 * req.reqId <= StoreAddr(req, k) < 0x3F000 + 256 * (req.reqId + 1) <= 0x40000
  }

  // `dx_v3_dsp_run` checks neither the id nor the size; its stores stay in the slot of the
  // request exactly for the requests that fit.
  lemma StaysInSlotExactly(req: Request)
    ensures (forall k :: 2 <= k < RunLen(req) ==> InOwnSlot(req, k)) <==> FitsSlot(req)
    ensures FitsSlot(req) <==> req.reqId < 16 && req.header.messageSize < 252
  {
    var n := PayloadWords(req);
    if FitsSlot(req) {
      forall k | 2 <= k < RunLen(req)
        ensures InOwnSlot(req, k)
      {
        SlotAddr(req, k);
      }
    } else if req.reqId < SLOT_COUNT {
      StoreAddrFlat(req, n + 1);
      assert !InOwnSlot(req, n + 1);
    } else {
      assert !InOwnSlot(req, 2);
    }
  }

  // A run that begins in the mapping does not wrap.
  lemma StoreAddrNear(req: Request, k: nat)
    requires 2 <= k < RunLen(req) && HeadAddr(req.reqId, 0) < 0x40000
    ensures StoreAddr(req, k) == HeadAddr(req.reqId, 0) + 4 * Delta(req, k)
  {
    FlatAddresses(req.reqId, 0);
    StoreAddrFlat(req, k);
    WrapStep(0xFC00 + 64 * req.reqId, Delta(req, k));
  }

  // The stores stay inside the 0x40000-byte mapping exactly when the message, placed at the
  // wrapped address of its first header word, ends inside it.
  lemma StaysInMappingExactly(req: Request)
    ensures (forall k :: 2 <= k < RunLen(req) ==> StoreAddr(req, k) < 0x40000) <==>
            HeadAddr(req.reqId, 0) + 8 + 4 * PayloadWords(req) <= 0x40000
  {
    var n := PayloadWords(req);
    assert StoreAddr(req, n + 2) == HeadAddr(req.reqId, 0);
    if HeadAddr(req.reqId, 0) + 8 + 4 * n <= 0x40000 {
      forall k | 2 <= k < RunLen(req)
        ensures StoreAddr(req, k) < 0x40000
      {
        StoreAddrNear(req, k);
      }
    } else if HeadAddr(req.reqId, 0) < 0x40000 {
      var last := if n == 0 then n + 3 else n + 1;
      StoreAddrNear(req, last);
      FlatAddresses(req.reqId, 0);
      assert StoreAddr(req, last) >= 0x40000;
    }
  }

  lemma WrapStep(y: int, d: nat)
    requires y % 0x4000_0000 + d < 0x4000_0000
    ensures (y + d) % 0x4000_0000 == y % 0x4000_0000 + d
  {
  }

  predicate OwnLoad(i: int) {
    0 <= i < OWN_WORDS
  }

  // The payload loads stay inside the request's own 29 words exactly up to 119 bytes.
  lemma LoadsOwnWordsExactly(req: Request)
    ensures (forall i :: 0 <= i < PayloadWords(req) ==> OwnLoad(i)) <==> req.header.messageSize < 120
  {
    assert !OwnLoad(OWN_WORDS);
  }

  // No value on the way to the byte offset of word `64 * reqId + i` leaves the signed range.
  predicate IndexFits(reqId: U32, i: int) {
    && 64 * reqId < 0x8000_0000
    && 64 * reqId + i < 0x8000_0000
    && REG_DSP_MSG + (64 * reqId + i) * 4 < 0x8000_0000
  }

  predicate DataIndexFits(reqId: U32, i: int) {
    IndexFits(reqId, i) && REG_DSP_MSG + (64 * reqId + i) * 4 + 8 < 0x8000_0000
  }

  lemma IndexFitsExactly(req: Request)
    ensures
      (&& (forall i :: 0 <= i < PayloadWords(req) ==> DataIndexFits(req.reqId, i))
       && (forall i :: 0 <= i < 2 ==> IndexFits(req.reqId, i)))
      <==> 256 * req.reqId + 4 * PayloadWords(req) + 4 + 0x3F000 < 0x8000_0000
  {
    var n := PayloadWords(req);
    if n > 0 && DataIndexFits(req.reqId, n - 1) {
    }
    if IndexFits(req.reqId, 1) {
    }
  }
}
