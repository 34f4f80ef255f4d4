// Requests, their headers, and where in the SRAM mapping their words are stored
// (modules/include/dsp_reg_DX_V3.h, modules/include/dxrt_drv.h).
module Message {
  import opened Words

  const MESSAGE_MAX_SIZE := 256
  const REG_DSP_MSG := 0x3F000
  const SRAM_SIZE := 0x40000
  const SRAM_WORDS := SRAM_SIZE / 4
  const SLOT_COUNT := 16
  const OWN_WORDS := 29

  // The longest run of words any 16-bit message size can ask for.
  const LOADABLE_WORDS := 0x1_0000 / 4

  datatype Header = Header(reqId: U16, messageSize: U16, funcId: U16, dataValid: U8, reserved: U8)

  // `memory` is what a load through `msg_data` sees: the request's own OWN_WORDS words,
  // then whatever the heap holds behind the entry.
  datatype RawRequest = RawRequest(reqId: U32, header: Header, memory: seq<U32>)

  type Request = r: RawRequest | |r.memory| == LOADABLE_WORDS
    witness RawRequest(0, Header(0, 0, 0, 0, 0), seq(LOADABLE_WORDS, _ => 0))

  // Number of payload words the store loop copies.
  function PayloadWords(req: Request): (n: nat)
    ensures 4 * n <= req.header.messageSize < 4 * n + 4
    ensures n < LOADABLE_WORDS
  {
    req.header.messageSize / 4
  }

  // The header seen as two little-endian words; `data_valid` is in the second one.
  function HeadWord(h: Header, i: nat): U32
    requires i < 2
  {
    if i == 0 then h.reqId + h.messageSize * 0x1_0000
    else h.funcId + h.dataValid * 0x1_0000 + h.reserved * 0x100_0000
  }

  // The bytes of the structure in memory, fields in declaration order, low byte first.
  function HeaderBytes(h: Header): (b: seq<int>)
    ensures |b| == 8 && forall i :: 0 <= i < 8 ==> 0 <= b[i] < 0x100
  {
    [h.reqId % 0x100, h.reqId / 0x100, h.messageSize % 0x100, h.messageSize / 0x100,
     h.funcId % 0x100, h.funcId / 0x100, h.dataValid, h.reserved]
  }

  // The words stored are the structure's own, as a little-endian machine loads them.
  lemma HeaderWordBytes(h: Header, i: nat)
    requires i < 2
    ensures var b := HeaderBytes(h);
            HeadWord(h, i) == b[4 * i] + 0x100 * b[4 * i + 1] + 0x1_0000 * b[4 * i + 2] + 0x100_0000 * b[4 * i + 3]
  {
  }

  function UnpackHeader(w0: U32, w1: U32): Header {
    Header(w0 % 0x1_0000, w0 / 0x1_0000, w1 % 0x1_0000, w1 / 0x1_0000 % 0x100, w1 / 0x100_0000)
  }

  // Both words together carry every field of the header.
  lemma HeaderRoundTrip(h: Header)
    ensures UnpackHeader(HeadWord(h, 0), HeadWord(h, 1)) == h
  {
    var w1 := HeadWord(h, 1);
    assert w1 / 0x1_0000 == h.dataValid + h.reserved * 0x100;
  }

  // `(MESSAGE_MAX_SIZE/4)*dsp->req_id`, computed unsigned and stored in an int32_t.
  function SlotIndex(reqId: U32): int {
    Signed32(Wrap32(64 * reqId))
  }

  // WRITE_DSP_MSG_HEAD: byte offset of header word i.
  function HeadAddr(reqId: U32, i: nat): U32 {
    Wrap32(REG_DSP_MSG + (SlotIndex(reqId) + i) * 4)
  }

  // WRITE_DSP_MSG_DATA: byte offset of payload word i.
  function DataAddr(reqId: U32, i: nat): U32 {
    Wrap32(REG_DSP_MSG + (SlotIndex(reqId) + i) * 4 + 8)
  }

  // The wrapping index arithmetic amounts to one wrap of the flat word index.
  lemma FlatAddresses(reqId: U32, i: nat)
    ensures HeadAddr(reqId, i) == 4 * ((0xFC00 + 64 * reqId + i) % 0x4000_0000)
    ensures DataAddr(reqId, i) == 4 * ((0xFC00 + 64 * reqId + i + 2) % 0x4000_0000)
  {
    var q := 64 * reqId / 0x1_0000_0000;
    var c := if Wrap32(64 * reqId) < 0x8000_0000 then q else q + 1;
    assert SlotIndex(reqId) == 64 * reqId - c * 0x1_0000_0000;
    var y := 0xFC00 + 64 * reqId + i;
    WrapWords(y, 4 * c);
    WrapWords(y + 2, 4 * c);
  }

  lemma WrapWords(y: int, turns: int)
    ensures Wrap32(4 * y - turns * 0x1_0000_0000) == 4 * (y % 0x4000_0000)
  {
  }
}
