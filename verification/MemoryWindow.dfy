// dxrt_write_mem and dxrt_read_mem: copies between a user buffer and the DMA buffer, guarded by
// a check against the window dxrt_identify_device sets (modules/rt/dxrt_drv_message.c).
module MemoryWindow {
  import opened Words

  const TOP := 0x1_0000_0000_0000_0000

  datatype MemInfo = MemInfo(base: U64, offset: U32, size: U32, ch: U32)

  // The range of device addresses a request names, in unbounded arithmetic.
  function Start(info: MemInfo): int {
    info.base + info.offset
  }

  function End(info: MemInfo): int {
    info.base + info.offset + info.size
  }

  predicate Inside(info: MemInfo, memAddr: U64, memSize: U64) {
    memAddr <= Start(info) && End(info) <= memAddr + memSize
  }

  // The check as the code computes it, modulo 2^64.
  predicate InWindow(info: MemInfo, memAddr: U64, memSize: U64) {
    !(Wrap64(Start(info)) < memAddr || Wrap64(End(info)) > Wrap64(memAddr + memSize))
  }

  lemma WrapBelow(x: int)
    requires 0 <= x < 2 * TOP
    ensures Wrap64(x) == if x < TOP then x else x - TOP
  {
  }

  // For ranges that do not run past the top of the address space the check is containment; it
  // goes wrong exactly on a range that does and whose wrapped ends both look acceptable.
  lemma CheckExactly(info: MemInfo, memAddr: U64, memSize: U64)
    requires memAddr + memSize < TOP
    ensures End(info) < TOP ==> (InWindow(info, memAddr, memSize) <==> Inside(info, memAddr, memSize))
    ensures (InWindow(info, memAddr, memSize) <==> Inside(info, memAddr, memSize)) <==>
            !(&& End(info) >= TOP && End(info) - TOP <= memAddr + memSize
              && (Start(info) < TOP ==> memAddr <= Start(info))
              && (Start(info) >= TOP ==> memAddr <= Start(info) - TOP))
  {
    WrapBelow(Start(info));
    WrapBelow(End(info));
  }

  // Such a range exists for the window of the driver.
  lemma CheckGoesWrong() returns (info: MemInfo)
    ensures InWindow(info, 0xC020_0000, 0x1EE0_0000) && !Inside(info, 0xC020_0000, 0x1EE0_0000)
  {
    info := MemInfo(TOP - 1, 0, 2, 0);
  }

  // Before any identify the window is empty. A non-empty range passes exactly when it ends at
  // the very top of the address space, where the sum wraps to zero.
  lemma BeforeIdentifyExactly(info: MemInfo)
    requires info.size > 0
    ensures InWindow(info, 0, 0) <==> End(info) == TOP
  {
    WrapBelow(End(info));
  }

  // ---- where the copy goes ----

  // The copy uses the offset alone.
  predicate StaysInBuffer(info: MemInfo, length: nat) {
    info.size == 0 || info.offset + info.size <= length
  }

  ghost predicate Accepted(info: MemInfo, base: U64, memAddr: U64, memSize: U64) {
    info.base == base && InWindow(info, memAddr, memSize)
  }

  // The farthest a range of one base can reach: both its offset and its size are 32 bits wide.
  const REACH: nat := 0x1_FFFF_FFFE

  // No non-empty range of this base lies in the window, or the buffer, laid at the base, covers
  // the end of the window or whatever a range can reach.
  predicate StraightSafe(base: U64, memAddr: U64, memSize: U64, length: nat) {
    || memSize == 0 || base >= memAddr + memSize || base + 0xFFFF_FFFF < memAddr
    || memAddr + memSize <= base + length || REACH <= length
  }

  // All accepted ranges of one base that do not wrap stay inside the buffer exactly then.
  lemma NonWrappingStaysExactly(base: U64, memAddr: U64, memSize: U64, length: nat)
    requires memAddr + memSize < TOP
    ensures (forall info: MemInfo :: Accepted(info, base, memAddr, memSize) && End(info) < TOP ==> StaysInBuffer(info, length))
            <==> StraightSafe(base, memAddr, memSize, length)
  {
    if StraightSafe(base, memAddr, memSize, length) {
      forall info: MemInfo | Accepted(info, base, memAddr, memSize) && End(info) < TOP
        ensures StaysInBuffer(info, length)
      {
        CheckExactly(info, memAddr, memSize);
      }
    } else {
      var info := FarthestStraight(base, memAddr, memSize);
      assert Accepted(info, base, memAddr, memSize) && !StaysInBuffer(info, length);
    }
  }

  lemma FarthestStraight(base: U64, memAddr: U64, memSize: U64) returns (info: MemInfo)
    requires memAddr + memSize < TOP
    requires memSize > 0 && base < memAddr + memSize && memAddr <= base + 0xFFFF_FFFF
    ensures Accepted(info, base, memAddr, memSize) && End(info) < TOP && info.size > 0
    ensures info.offset + info.size == REACH || base + info.offset + info.size == memAddr + memSize
  {
    var room := memAddr + memSize - base;
    var offset := if room - 1 <= 0xFFFF_FFFF then room - 1 else 0xFFFF_FFFF;
    var size := if room - offset <= 0xFFFF_FFFF then room - offset else 0xFFFF_FFFF;
    info := MemInfo(base, offset, size, 0);
    CheckExactly(info, memAddr, memSize);
  }

  // How far a range of this base can reach that wraps: to the very end if the offset can be
  // chosen largest, that is, short of 2^64 or as far past it as the window begins.
  function WrappedReach(base: U64, memAddr: U64, memSize: U64): int {
    if base + 0x1_0000_0000 <= TOP || (memSize > 0 && TOP - base + memAddr <= 0xFFFF_FFFF) then REACH
    else TOP - base + 0xFFFF_FFFE
  }

  // No range of this base wraps into the window, or the buffer covers the end of the window on
  // the next turn or whatever a wrapping range can reach.
  predicate WrapSafe(base: U64, memAddr: U64, memSize: U64, length: nat) {
    || base + REACH < TOP || base + 0xFFFF_FFFF < memAddr
    || TOP + memAddr + memSize <= base + length || WrappedReach(base, memAddr, memSize) <= length
  }

  // The same for the ranges that do wrap.
  lemma WrappingStaysExactly(base: U64, memAddr: U64, memSize: U64, length: nat)
    requires memAddr + memSize < TOP
    ensures (forall info: MemInfo :: Accepted(info, base, memAddr, memSize) && End(info) >= TOP ==> StaysInBuffer(info, length))
            <==> WrapSafe(base, memAddr, memSize, length)
  {
    if WrapSafe(base, memAddr, memSize, length) {
      forall info: MemInfo | Accepted(info, base, memAddr, memSize) && End(info) >= TOP
        ensures StaysInBuffer(info, length)
      {
        WrapBelow(Start(info));
        WrapBelow(End(info));
      }
    } else {
      var info := FarthestWrapping(base, memAddr, memSize);
      assert Accepted(info, base, memAddr, memSize) && !StaysInBuffer(info, length);
    }
  }

  lemma FarthestWrapping(base: U64, memAddr: U64, memSize: U64) returns (info: MemInfo)
    requires memAddr + memSize < TOP && base + REACH >= TOP && base + 0xFFFF_FFFF >= memAddr
    ensures Accepted(info, base, memAddr, memSize) && End(info) >= TOP && info.size > 0
    ensures info.offset + info.size >= WrappedReach(base, memAddr, memSize)
            || base + info.offset + info.size >= TOP + memAddr + memSize
  {
    var room := TOP - base + memAddr + memSize;
    var past := memSize > 0 && TOP - base + memAddr <= 0xFFFF_FFFF;
    var last := if past then room - 1 else TOP - base - 1;
    var offset := if last <= 0xFFFF_FFFF then last else 0xFFFF_FFFF;
    var size := if room - offset <= 0xFFFF_FFFF then room - offset else 0xFFFF_FFFF;
    info := MemInfo(base, offset, size, 0);
    WrapBelow(Start(info));
    WrapBelow(End(info));
  }

  // Whatever identify has set, the copies of one base all stay inside the buffer exactly under
  // both conditions.
  lemma CopiesStayExactly(base: U64, memAddr: U64, memSize: U64, length: nat)
    requires memAddr + memSize < TOP
    ensures (forall info: MemInfo :: Accepted(info, base, memAddr, memSize) ==> StaysInBuffer(info, length))
            <==> StraightSafe(base, memAddr, memSize, length) && WrapSafe(base, memAddr, memSize, length)
  {
    NonWrappingStaysExactly(base, memAddr, memSize, length);
    WrappingStaysExactly(base, memAddr, memSize, length);
    if forall info: MemInfo :: Accepted(info, base, memAddr, memSize) && End(info) < TOP ==> StaysInBuffer(info, length) {
      if forall info: MemInfo :: Accepted(info, base, memAddr, memSize) && End(info) >= TOP ==> StaysInBuffer(info, length) {
        forall info: MemInfo | Accepted(info, base, memAddr, memSize)
          ensures StaysInBuffer(info, length)
        {
        }
      }
    }
  }

  // Two ranges of the driver's window that leave every buffer of up to 3 GB: one with a base
  // below the window, one with a base above it that wraps.
  lemma AcceptedLeavesBuffer(length: nat) returns (low: MemInfo, high: MemInfo)
    requires length <= 0xC020_0000
    ensures InWindow(low, 0xC020_0000, 0x1EE0_0000) && Inside(low, 0xC020_0000, 0x1EE0_0000)
    ensures InWindow(high, 0xC020_0000, 0x1EE0_0000) && high.base >= 0xC020_0000 + 0x1EE0_0000
    ensures low.size > 0 && !StaysInBuffer(low, length)
    ensures high.size > 0 && !StaysInBuffer(high, length)
  {
    low := MemInfo(0, 0xC020_0000, 1, 0);
    high := MemInfo(TOP - 1, 0xC020_0001, 1, 0);
    CheckExactly(low, 0xC020_0000, 0x1EE0_0000);
  }

  // ---- the buffer ----

  function Clip(n: int, length: nat): nat {
    if n < 0 then 0 else if n <= length then n else length
  }

  // How many bytes of a range lie past the end of a buffer.
  function BytesPast(offset: nat, size: nat, length: nat): (n: nat)
    ensures n == 0 <==> offset + size <= length || size == 0
    ensures n <= size
  {
    if offset + size <= length then 0 else if offset <= length then offset + size - length else size
  }

  function Positions(lo: nat, hi: nat): (s: set<nat>)
    ensures |s| == if lo <= hi then hi - lo else 0
    ensures forall p: nat :: p in s <==> lo <= p < hi
    decreases hi
  {
    if lo >= hi then {} else Positions(lo, hi - 1) + {hi - 1}
  }

  // That is, as many as there are positions of the range at or past the length.
  lemma BytesPastCounts(offset: nat, size: nat, length: nat)
    ensures var range := Positions(offset, offset + size);
            BytesPast(offset, size, length) == |set p | p in range && length <= p|
  {
    var range := Positions(offset, offset + size);
    var past := set p | p in range && length <= p;
    assert past == Positions(if offset <= length then length else offset, offset + size);
  }

  // The part of the buffer a range covers.
  function ReadRange(buf: seq<U8>, offset: nat, size: nat): seq<U8> {
    buf[Clip(offset, |buf|)..Clip(offset + size, |buf|)]
  }

  ghost predicate Overwritten(before: seq<U8>, after: seq<U8>, offset: nat, data: seq<U8>) {
    && |after| == |before|
    && forall i :: 0 <= i < |before| ==>
         after[i] == if offset <= i < offset + |data| then data[i - offset] else before[i]
  }

  // Write, then read any sub-range: the written bytes come back; a range that does not meet
  // the written one reads as before.
  lemma WriteThenRead(before: seq<U8>, after: seq<U8>, offset: nat, data: seq<U8>, from: nat, size: nat)
    requires Overwritten(before, after, offset, data)
    ensures offset <= from && from + size <= offset + |data| <= |before| ==>
              ReadRange(after, from, size) == data[from - offset..from - offset + size]
    ensures from + size <= offset || offset + |data| <= from ==>
              ReadRange(after, from, size) == ReadRange(before, from, size)
  {
    if offset <= from && from + size <= offset + |data| <= |before| {
      InsideReadsBack(before, after, offset, data, from, size);
    }
    if from + size <= offset || offset + |data| <= from {
      DisjointUnchanged(before, after, offset, data, from, size);
    }
  }

  lemma InsideReadsBack(before: seq<U8>, after: seq<U8>, offset: nat, data: seq<U8>, from: nat, size: nat)
    requires Overwritten(before, after, offset, data)
    requires offset <= from && from + size <= offset + |data| <= |before|
    ensures ReadRange(after, from, size) == data[from - offset..from - offset + size]
  {
    var r := ReadRange(after, from, size);
    assert |r| == size;
    forall k | 0 <= k < size
      ensures r[k] == data[from - offset..from - offset + size][k]
    {
      assert r[k] == after[from + k];
    }
  }

  lemma DisjointUnchanged(before: seq<U8>, after: seq<U8>, offset: nat, data: seq<U8>, from: nat, size: nat)
    requires Overwritten(before, after, offset, data) && (from + size <= offset || offset + |data| <= from)
    ensures ReadRange(after, from, size) == ReadRange(before, from, size)
  {
    var a, b := ReadRange(after, from, size), ReadRange(before, from, size);
    assert |a| == |b|;
    forall k | 0 <= k < |a|
      ensures a[k] == b[k]
    {
      assert a[k] == after[from + k] && b[k] == before[from + k];
    }
  }

  lemma WrittenReadsBack(before: seq<U8>, after: seq<U8>, offset: nat, data: seq<U8>)
    requires Overwritten(before, after, offset, data) && (data == [] || offset + |data| <= |before|)
    ensures ReadRange(after, offset, |data|) == data
  {
    if data != [] {
      WriteThenRead(before, after, offset, data, offset, |data|);
    }
  }

  // What an accepted write leaves, in terms of the buffer before and after it.
  lemma WriteOutcome(before: seq<U8>, after: seq<U8>, info: MemInfo, data: seq<U8>, memAddr: U64, memSize: U64)
    requires memAddr + memSize < TOP && |data| == info.size
    requires InWindow(info, memAddr, memSize) && Overwritten(before, after, info.offset, data)
    ensures End(info) < TOP && memAddr <= info.base && memSize <= |before| ==>
              Inside(info, memAddr, memSize) && StaysInBuffer(info, |before|)
    ensures StaysInBuffer(info, |before|) ==> ReadRange(after, info.offset, info.size) == data
  {
    CheckExactly(info, memAddr, memSize);
    if StaysInBuffer(info, |before|) {
      WrittenReadsBack(before, after, info.offset, data);
    }
  }

  // An accepted read returns the whole range, under the same conditions.
  lemma ReadOutcome(buf: seq<U8>, info: MemInfo, memAddr: U64, memSize: U64, data: seq<U8>)
    requires memAddr + memSize < TOP && InWindow(info, memAddr, memSize)
    requires data == ReadRange(buf, info.offset, info.size)
    ensures End(info) < TOP && memAddr <= info.base && memSize <= |buf| ==> |data| == info.size
  {
    CheckExactly(info, memAddr, memSize);
  }

  class Window {
    var memAddr: U64
    var memSize: U64
    const dmaBuf: array<U8>
    // Bytes a copy has written past the end of the buffer.
    var overrun: nat

    ghost predicate Valid()
      reads this
    {
      memAddr + memSize < TOP
    }

    constructor (size: nat)
      ensures Valid() && memAddr == memSize == 0 && overrun == 0
      ensures dmaBuf.Length == size && fresh(dmaBuf)
    {
      memAddr, memSize, overrun := 0, 0, 0;
      dmaBuf := new U8[size](_ => 0);
    }

    // dxrt_identify_device, the part that concerns the window.
    method Identify(dram: U32)
      modifies this`memAddr, this`memSize
      ensures Valid() && memAddr == dram && memSize == 0x1EE0_0000
    {
      memAddr := dram;
      memSize := DSP_DRAM_SIZE;
    }

    // `data` is what ends up at the destination; `copied` tells whether copy_from_user succeeded.
    method WriteMem(hasData: bool, gotInfo: bool, info: MemInfo, data: seq<U8>, copied: bool) returns (ret: int)
      requires Valid() && |data| == info.size
      modifies this`overrun, dmaBuf
      ensures ret == 0 || ret == -14 || ret == -22
      ensures ret == -22 <==> hasData && gotInfo && (info.ch > 2 || !InWindow(info, memAddr, memSize))
      ensures ret == 0 <==> !hasData || (gotInfo && info.ch <= 2 && InWindow(info, memAddr, memSize) && copied)
      ensures if hasData && gotInfo && ret != -22
              then Overwritten(old(dmaBuf[..]), dmaBuf[..], info.offset, data)
              else dmaBuf[..] == old(dmaBuf[..])
      ensures hasData && ret == 0 && End(info) < TOP && memAddr <= info.base && memSize <= dmaBuf.Length ==>
                Inside(info, memAddr, memSize) && StaysInBuffer(info, dmaBuf.Length)
      ensures hasData && ret == 0 && StaysInBuffer(info, dmaBuf.Length) ==>
                overrun == old(overrun) && ReadRange(dmaBuf[..], info.offset, info.size) == data
      ensures overrun == old(overrun) +
                if hasData && gotInfo && ret != -EINVAL then BytesPast(info.offset, info.size, dmaBuf.Length) else 0
    {
      if hasData {
        if !gotInfo {
          return -EFAULT;
        }
        if info.ch > 2 {
          return -EINVAL;
        }
        if !InWindow(info, memAddr, memSize) {
          return -EINVAL;
        }
        CopyIn(info.offset, data);
        WriteOutcome(old(dmaBuf[..]), dmaBuf[..], info, data, memAddr, memSize);
        if !copied {
          return -EFAULT;
        }
      }
      return 0;
    }

    // The bytes that fit land at the offset; the others run past the end.
    method CopyIn(offset: nat, data: seq<U8>)
      modifies this`overrun, dmaBuf
      ensures Overwritten(old(dmaBuf[..]), dmaBuf[..], offset, data)
      ensures overrun == old(overrun) + BytesPast(offset, |data|, dmaBuf.Length)
    {
      forall i | offset <= i < offset + |data| && i < dmaBuf.Length {
        dmaBuf[i] := data[i - offset];
      }
      overrun := overrun + BytesPast(offset, |data|, dmaBuf.Length);
    }

    // The bytes of the range that lie inside the buffer.
    method CopyOut(offset: nat, size: nat) returns (data: seq<U8>)
      ensures data == ReadRange(dmaBuf[..], offset, size)
    {
      data := dmaBuf[Clip(offset, dmaBuf.Length)..Clip(offset + size, dmaBuf.Length)];
    }

    method ReadMem(hasData: bool, gotInfo: bool, info: MemInfo, copied: bool) returns (ret: int, data: seq<U8>)
      requires Valid()
      ensures ret == 0 || ret == -14 || ret == -22
      ensures ret == -22 <==> hasData && gotInfo && (info.ch > 2 || !InWindow(info, memAddr, memSize))
      ensures ret == 0 <==> !hasData || (gotInfo && info.ch <= 2 && InWindow(info, memAddr, memSize) && copied)
      ensures hasData && ret == 0 ==> data == ReadRange(dmaBuf[..], info.offset, info.size)
      ensures hasData && ret == 0 && End(info) < TOP && memAddr <= info.base && memSize <= dmaBuf.Length ==>
                |data| == info.size
    {
      data := [];
      if hasData {
        if !gotInfo {
          return -EFAULT, data;
        }
        if info.ch > 2 {
          return -EINVAL, data;
        }
        if !InWindow(info, memAddr, memSize) {
          return -EINVAL, data;
        }
        if !copied {
          return -EFAULT, data;
        }
        data := CopyOut(info.offset, info.size);
        ReadOutcome(dmaBuf[..], info, memAddr, memSize, data);
      }
      return 0, data;
    }
  }
}
