// dxrt_alloc_buf and dxrt_free_buf on the table in place, each as it runs without interruption.
// Between the two critical sections of an allocation other callers may run: see BufferProtocol.
module BufferManager {
  import opened Words
  import opened BufferTable

  class Manager {
    const buffers: array<Meta>
    const unit: nat

    ghost predicate Valid()
      reads this, buffers
    {
      TableOk(buffers[..], unit) && buffers.Length * unit < 0x8000_0000
    }

    ghost function LiveSlots(): set<nat>
      reads this, buffers
    {
      LiveSet(buffers[..])
    }

    constructor (n: nat, unit: nat)
      requires unit > 0 && n * unit < 0x8000_0000
      ensures Valid() && buffers[..] == Zeroed(n) && this.unit == unit && LiveSlots() == {}
      ensures fresh(buffers)
    {
      buffers := new Meta[n](_ => Meta(0, 0));
      this.unit := unit;
    }

    // dx_v3_dsp_buf_init
    method Reinit()
      requires Valid()
      modifies buffers
      ensures Valid() && LiveSlots() == {} && buffers[..] == Zeroed(buffers.Length)
    {
      forall i | 0 <= i < buffers.Length {
        buffers[i] := Meta(0, 0);
      }
    }

    // The first-fit scan: -1 when every slot is live.
    method FindFree() returns (found: int)
      ensures -1 <= found < buffers.Length
      ensures found == -1 ==> forall j :: 0 <= j < buffers.Length ==> Live(buffers[j])
      ensures found >= 0 ==> !Live(buffers[found]) && forall j :: 0 <= j < found ==> Live(buffers[j])
    {
      found := -1;
      var i := 0;
      while i < buffers.Length
        invariant 0 <= i <= buffers.Length
        invariant found == -1
        invariant forall j :: 0 <= j < i ==> Live(buffers[j])
      {
        if buffers[i].allocSize == 0 {
          found := i;
          break;
        }
        i := i + 1;
      }
    }

    // The scan for a live slot with this offset: -1 when there is none.
    method FindOffset(offset: nat) returns (found: int)
      ensures -1 <= found < buffers.Length
      ensures found == -1 ==> FirstWith(buffers[..], offset, 0) == buffers.Length
      ensures found >= 0 ==> FirstWith(buffers[..], offset, 0) == found
    {
      found := -1;
      var i := 0;
      while i < buffers.Length
        invariant 0 <= i <= buffers.Length
        invariant found == -1
        invariant forall j :: 0 <= j < i ==> !(Live(buffers[j]) && buffers[j].offset == offset)
      {
        if buffers[i].allocSize != 0 && buffers[i].offset == offset {
          found := i;
          break;
        }
        i := i + 1;
      }
    }

    // First critical section of dxrt_alloc_buf: reserve the lowest free slot.
    method Reserve() returns (found: int, meta: Meta)
      requires Valid()
      modifies buffers
      ensures Valid() && buffers[..] == ReserveSlot(old(buffers[..]), unit)
      ensures found == -1 <==> FirstFree(old(buffers[..]), 0) == buffers.Length
      ensures found != -1 ==> found == FirstFree(old(buffers[..]), 0)
      ensures found != -1 ==> meta.offset == found * unit && meta.allocSize == unit && buffers[found] == meta
    {
      found := FindFree();
      meta := Meta(0, 0);
      ReserveEffect(buffers[..], unit);
      if found != -1 {
        assert FirstFree(buffers[..], 0) == found;
        buffers[found] := Meta(found * unit, unit);
        meta := buffers[found];
      }
    }

    // Second critical section: undo the reservation when the copy to the user failed.
    method Rollback(found: nat)
      requires Valid() && found < buffers.Length
      modifies buffers
      ensures Valid() && buffers[..] == ReleaseSlot(old(buffers[..]), found)
      ensures LiveSlots() == old(LiveSlots()) - {found}
    {
      ReleaseEffect(buffers[..], unit, found);
      buffers[found] := buffers[found].(allocSize := 0);
    }

    method Alloc(hasData: bool, copied: bool) returns (ret: int, meta: Meta)
      requires Valid()
      modifies buffers
      ensures Valid()
      ensures ret == -22 <==> !hasData
      ensures ret == -12 <==> hasData && forall j: nat | j < buffers.Length :: j in old(LiveSlots())
      ensures ret == 0 ==>
                exists i: nat :: i < buffers.Length && i !in old(LiveSlots()) && meta.offset == i * unit
                    && (forall j: nat | j < i :: j in old(LiveSlots()))
                    && LiveSlots() == old(LiveSlots()) + {i}
      ensures ret == 0 ==> meta.allocSize == unit
      ensures ret != 0 ==> LiveSlots() == old(LiveSlots())
      ensures ret == -14 <==> hasData && !copied && exists j: nat :: j < buffers.Length && j !in old(LiveSlots())
      ensures ret == 0 || ret == -22 || ret == -12 || ret == -14
    {
      meta := Meta(0, 0);
      if !hasData {
        return -EINVAL, meta;
      }
      ghost var before := buffers[..];
      ReserveEffect(before, unit);
      var found;
      found, meta := Reserve();
      if found == -1 {
        return -ENOMEM, meta;
      }
      ghost var slot: nat := found;
      assert slot !in old(LiveSlots());
      if !copied {
        Rollback(found);
        return -EFAULT, meta;
      }
      return 0, meta;
    }

    method Free(hasData: bool, copied: bool, offset: nat) returns (ret: int)
      requires Valid()
      modifies buffers
      ensures Valid()
      ensures ret == 0 <==> hasData && copied && exists i :: i in old(LiveSlots()) && i * unit == offset
      ensures ret == 0 ==>
                exists i :: i in old(LiveSlots()) && i * unit == offset
                    && LiveSlots() == old(LiveSlots()) - {i}
      ensures ret != 0 ==> buffers[..] == old(buffers[..])
      ensures ret != 0 ==> ret == if hasData && !copied then -14 else -22
    {
      if !hasData {
        return -EINVAL;
      }
      if !copied {
        return -EFAULT;
      }
      FoundIsTheOnlyOne(buffers[..], unit, offset);
      var found := FindOffset(offset);
      if found == -1 {
        return -EINVAL;
      }
      ReleaseEffect(buffers[..], unit, found);
      assert found in LiveSlots() && found * unit == offset;
      buffers[found] := buffers[found].(allocSize := 0);
      return 0;
    }
  }
}
