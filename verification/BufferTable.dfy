// The table of DSP buffers: n slots of `unit` bytes each (modules/rt/dxrt_drv_message.c).
module BufferTable {
  import opened Words

  // alloc_size 0 means free; the offset of a free slot is whatever was last written there.
  datatype Meta = Meta(offset: nat, allocSize: nat)

  predicate Live(m: Meta) {
    m.allocSize != 0
  }

  // The buffer of slot i.
  function Buffer(i: nat, unit: nat): Meta {
    Meta(i * unit, unit)
  }

  ghost predicate TableOk(t: seq<Meta>, unit: nat) {
    unit > 0 && forall i :: 0 <= i < |t| && Live(t[i]) ==> t[i] == Buffer(i, unit)
  }

  // memset(&g_dsp_memory_manager, 0, ...)
  function Zeroed(n: nat): seq<Meta> {
    seq(n, _ => Meta(0, 0))
  }

  ghost function LiveSet(t: seq<Meta>): set<nat> {
    set i: nat | i < |t| && Live(t[i])
  }

  // First free slot at or after i, |t| if there is none.
  function FirstFree(t: seq<Meta>, i: nat): (r: nat)
    requires i <= |t|
    ensures i <= r <= |t|
    ensures forall j :: i <= j < r ==> Live(t[j])
    ensures r < |t| ==> !Live(t[r])
    decreases |t| - i
  {
    if i == |t| || !Live(t[i]) then i else FirstFree(t, i + 1)
  }

  // First live slot at or after i with this offset, |t| if there is none.
  function FirstWith(t: seq<Meta>, offset: nat, i: nat): (r: nat)
    requires i <= |t|
    ensures i <= r <= |t|
    ensures forall j :: i <= j < r ==> !(Live(t[j]) && t[j].offset == offset)
    ensures r < |t| ==> Live(t[r]) && t[r].offset == offset
    decreases |t| - i
  {
    if i == |t| || (Live(t[i]) && t[i].offset == offset) then i else FirstWith(t, offset, i + 1)
  }

  lemma {:induction false} MulMonotone(i: nat, j: nat, unit: nat)
    requires i < j
    ensures i * unit + unit <= j * unit
    decreases j
  {
    assert j * unit == (j - 1) * unit + unit;
    if i < j - 1 {
      MulMonotone(i, j - 1, unit);
    }
  }

  lemma OffsetsDistinct(i: nat, j: nat, unit: nat)
    requires i != j && unit > 0
    ensures i * unit != j * unit
  {
    if i < j {
      MulMonotone(i, j, unit);
    } else {
      MulMonotone(j, i, unit);
    }
  }

  // A live slot holds the offset of its place in the pool and the size of one unit.
  lemma LiveBufferExactly(t: seq<Meta>, unit: nat, i: nat)
    requires TableOk(t, unit) && i < |t| && Live(t[i])
    ensures t[i].offset == i * unit && t[i].allocSize == unit
  {
  }

  // Live buffers are pairwise disjoint and lie inside the n * unit bytes of the pool.
  lemma LiveBuffersDisjoint(t: seq<Meta>, unit: nat, i: nat, j: nat)
    requires TableOk(t, unit) && i < j < |t| && Live(t[i]) && Live(t[j])
    ensures t[i].offset + t[i].allocSize <= t[j].offset
    ensures t[j].offset + t[j].allocSize <= |t| * unit
  {
    MulMonotone(i, j, unit);
    MulMonotone(j, |t|, unit);
  }

  // With the driver's constants, eight units of 24 MB, the pool is the size
  // dxrt_identify_device reports, fits the DRAM, and no offset leaves the signed 32-bit range
  // of its computation.
  lemma PoolFits(t: seq<Meta>, i: nat)
    requires TableOk(t, 4096 * 2048 * 3) && |t| == 8 && i < |t| && Live(t[i])
    ensures t[i].offset + t[i].allocSize <= 8 * (4096 * 2048 * 3) < 0x8000_0000
    ensures 8 * (4096 * 2048 * 3) <= DSP_DRAM_SIZE == 0x1EE0_0000
  {
    assert t[i] == Buffer(i, 4096 * 2048 * 3);
    assert i <= 7;
  }

  // At most one live slot has a given offset, so the scan finds the only one; offsets left
  // behind in freed slots never match.
  lemma FoundIsTheOnlyOne(t: seq<Meta>, unit: nat, offset: nat)
    requires TableOk(t, unit)
    ensures var r := FirstWith(t, offset, 0);
            && (r < |t| <==> exists i :: i in LiveSet(t) && Buffer(i, unit).offset == offset)
            && (r < |t| ==> Buffer(r, unit).offset == offset)
            && forall i :: i in LiveSet(t) && Buffer(i, unit).offset == offset ==> i == r
  {
    var r := FirstWith(t, offset, 0);
    forall i | i in LiveSet(t) && Buffer(i, unit).offset == offset
      ensures i == r && r < |t|
    {
      assert t[i] == Buffer(i, unit);
      if i != r && r < |t| {
        OffsetsDistinct(i, r, unit);
      }
    }
    if r < |t| {
      assert r in LiveSet(t);
    }
  }

  // ---- the critical sections ----

  function ReserveSlot(t: seq<Meta>, unit: nat): (r: seq<Meta>)
    ensures |r| == |t|
  {
    var i := FirstFree(t, 0);
    if i < |t| then t[i := Buffer(i, unit)] else t
  }

  function ReleaseSlot(t: seq<Meta>, i: nat): (r: seq<Meta>)
    requires i < |t|
    ensures |r| == |t|
  {
    t[i := t[i].(allocSize := 0)]
  }

  function FreeOffset(t: seq<Meta>, offset: nat): (r: seq<Meta>)
    ensures |r| == |t|
  {
    var i := FirstWith(t, offset, 0);
    if i < |t| then ReleaseSlot(t, i) else t
  }

  lemma ReserveEffect(t: seq<Meta>, unit: nat)
    requires TableOk(t, unit)
    ensures var r, i := ReserveSlot(t, unit), FirstFree(t, 0);
            && TableOk(r, unit)
            && (i == |t| <==> forall j: nat | j < |t| :: j in LiveSet(t))
            && (i < |t| ==> i !in LiveSet(t) && LiveSet(r) == LiveSet(t) + {i} && (forall j: nat | j < i :: j in LiveSet(t)))
            && (i == |t| ==> r == t)
  {
    var r, i := ReserveSlot(t, unit), FirstFree(t, 0);
    if i < |t| {
      assert i !in LiveSet(t);
      assert LiveSet(r) == LiveSet(t) + {i};
    }
  }

  lemma ReleaseEffect(t: seq<Meta>, unit: nat, i: nat)
    requires TableOk(t, unit) && i < |t|
    ensures TableOk(ReleaseSlot(t, i), unit)
    ensures LiveSet(ReleaseSlot(t, i)) == LiveSet(t) - {i}
    ensures forall j :: 0 <= j < |t| ==> ReleaseSlot(t, i)[j].offset == t[j].offset
  {
  }

  // Free succeeds exactly on the offset of a live slot, and removes that slot only.
  lemma FreeEffect(t: seq<Meta>, unit: nat, offset: nat)
    requires TableOk(t, unit)
    ensures var r := FreeOffset(t, offset);
            && TableOk(r, unit)
            && LiveSet(r) == LiveSet(t) - (set i | i in LiveSet(t) && Buffer(i, unit).offset == offset)
            && FirstWith(r, offset, 0) == |r|
  {
    FoundIsTheOnlyOne(t, unit, offset);
    var i := FirstWith(t, offset, 0);
    if i < |t| {
      ReleaseEffect(t, unit, i);
      FoundIsTheOnlyOne(FreeOffset(t, offset), unit, offset);
    }
  }

  // Allocating and freeing what was allocated restores the set of live slots; freeing it once
  // more fails.
  lemma AllocThenFree(t: seq<Meta>, unit: nat)
    requires TableOk(t, unit) && FirstFree(t, 0) < |t|
    ensures var o := Buffer(FirstFree(t, 0), unit).offset;
            var freed := FreeOffset(ReserveSlot(t, unit), o);
            && LiveSet(freed) == LiveSet(t)
            && FreeOffset(freed, o) == freed && FirstWith(freed, o, 0) == |freed|
  {
    var i := FirstFree(t, 0);
    var o := Buffer(i, unit).offset;
    var r := ReserveSlot(t, unit);
    ReserveEffect(t, unit);
    FreeEffect(r, unit, o);
    FoundIsTheOnlyOne(r, unit, o);
    assert i in LiveSet(r);
    assert (set j | j in LiveSet(r) && Buffer(j, unit).offset == o) == {i};
  }

  // ---- histories ----

  datatype BufferOp =
    | Alloc                  // dxrt_alloc_buf, copy to the user succeeds
    | AllocUndone            // dxrt_alloc_buf, copy fails and the slot is rolled back
    | Free(offset: nat)      // dxrt_free_buf
    | Reinit                 // dx_v3_dsp_buf_init

  function Apply(t: seq<Meta>, unit: nat, op: BufferOp): (r: seq<Meta>)
    ensures |r| == |t|
  {
    match op
    case Alloc => ReserveSlot(t, unit)
    case AllocUndone =>
      var i := FirstFree(t, 0);
      if i < |t| then ReleaseSlot(ReserveSlot(t, unit), i) else t
    case Free(o) => FreeOffset(t, o)
    case Reinit => Zeroed(|t|)
  }

  function After(n: nat, unit: nat, ops: seq<BufferOp>): (r: seq<Meta>)
    ensures |r| == n
  {
    if ops == [] then Zeroed(n) else Apply(After(n, unit, ops[..|ops| - 1]), unit, ops[|ops| - 1])
  }

  // The offsets the callers hold, judged by the replies alone: an allocation adds the offset
  // it returned, a free that succeeded takes its offset away.
  function HeldOffsets(n: nat, unit: nat, ops: seq<BufferOp>): set<nat> {
    if ops == [] then {}
    else
      var before := After(n, unit, ops[..|ops| - 1]);
      var held := HeldOffsets(n, unit, ops[..|ops| - 1]);
      match ops[|ops| - 1]
      case Alloc =>
        var i := FirstFree(before, 0);
        if i < n then held + {ReserveSlot(before, unit)[i].offset} else held
      case AllocUndone => held
      case Free(o) => if FirstWith(before, o, 0) < n then held - {o} else held
      case Reinit => {}
  }

  ghost function OffsetsOf(slots: set<nat>, unit: nat): set<nat> {
    set i | i in slots :: i * unit
  }

  // After every history the table is sound and its live slots are exactly the buffers held.
  lemma {:induction false} HistorySound(n: nat, unit: nat, ops: seq<BufferOp>)
    requires unit > 0
    ensures TableOk(After(n, unit, ops), unit)
    ensures HeldOffsets(n, unit, ops) == OffsetsOf(LiveSet(After(n, unit, ops)), unit)
  {
    if ops != [] {
      HistorySound(n, unit, ops[..|ops| - 1]);
      var before := After(n, unit, ops[..|ops| - 1]);
      match ops[|ops| - 1]
      case Alloc =>
        ReserveEffect(before, unit);
        var i := FirstFree(before, 0);
        if i < n {
          assert OffsetsOf(LiveSet(before) + {i}, unit) == OffsetsOf(LiveSet(before), unit) + {i * unit};
        }
      case AllocUndone =>
        ReserveEffect(before, unit);
        var i := FirstFree(before, 0);
        if i < n {
          ReleaseEffect(ReserveSlot(before, unit), unit, i);
          assert LiveSet(before) + {i} - {i} == LiveSet(before);
        }
      case Free(o) => HeldAfterFree(before, unit, o);
      case Reinit =>
        assert LiveSet(Zeroed(n)) == {};
    }
  }

  lemma HeldAfterFree(t: seq<Meta>, unit: nat, o: nat)
    requires TableOk(t, unit)
    ensures TableOk(FreeOffset(t, o), unit)
    ensures OffsetsOf(LiveSet(FreeOffset(t, o)), unit) ==
            if FirstWith(t, o, 0) < |t| then OffsetsOf(LiveSet(t), unit) - {o} else OffsetsOf(LiveSet(t), unit)
  {
    FreeEffect(t, unit, o);
    FoundIsTheOnlyOne(t, unit, o);
    var i := FirstWith(t, o, 0);
    if i < |t| {
      assert LiveSet(FreeOffset(t, o)) == LiveSet(t) - {i};
      OffsetsWithout(LiveSet(t), i, unit);
    }
  }

  lemma OffsetsWithout(slots: set<nat>, i: nat, unit: nat)
    requires unit > 0
    ensures OffsetsOf(slots - {i}, unit) == OffsetsOf(slots, unit) - {i * unit}
  {
    forall j | j in slots - {i}
      ensures j * unit in OffsetsOf(slots, unit) - {i * unit}
    {
      OffsetsDistinct(i, j, unit);
    }
    forall o | o in OffsetsOf(slots, unit) - {i * unit}
      ensures o in OffsetsOf(slots - {i}, unit)
    {
      var j :| j in slots && j * unit == o;
      assert j in slots - {i};
    }
  }
}
