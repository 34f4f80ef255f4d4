// Any number of callers allocating and freeing at once. An allocation holds the lock while it
// reserves a slot, gives the lock up to copy the slot's data to the user, and takes it again
// to roll back if the copy failed.
module BufferProtocol {
  import opened BufferTable

  // `pending` maps a caller between its two critical sections to the slot it reserved;
  // `owned` are the slots whose data a client has received and not given back.
  datatype Pool = Pool(table: seq<Meta>, unit: nat, pending: map<nat, nat>, owned: set<nat>)

  datatype PoolAction =
    | Reserve(t: nat)
    | CopySucceeds(t: nat)
    | CopyFails(t: nat)
    | FreeBuffer(offset: nat)

  ghost predicate PoolInit(p: Pool) {
    p.unit > 0 && p.table == Zeroed(|p.table|) && p.pending == map[] && p.owned == {}
  }

  // What the code lets happen; anyone can free any offset.
  predicate Possible(p: Pool, a: PoolAction) {
    match a
    case Reserve(t) => t !in p.pending
    case CopySucceeds(t) => t in p.pending
    case CopyFails(t) => t in p.pending && p.pending[t] < |p.table|
    case FreeBuffer(_) => true
  }

  // Clients free only the offset of a buffer they were given and still own.
  ghost predicate Permitted(p: Pool, a: PoolAction) {
    && Possible(p, a)
    && (a.FreeBuffer? ==> exists i :: i in p.owned && Buffer(i, p.unit).offset == a.offset)
  }

  // The free call as the code runs it, for any offset.
  function FreeStep(p: Pool, offset: nat): Pool {
    var i := FirstWith(p.table, offset, 0);
    if i < |p.table| then p.(table := ReleaseSlot(p.table, i), owned := p.owned - {i}) else p
  }

  function PoolNext(p: Pool, a: PoolAction): Pool
    requires Possible(p, a)
  {
    match a
    case Reserve(t) =>
      var i := FirstFree(p.table, 0);
      if i < |p.table| then p.(table := ReserveSlot(p.table, p.unit), pending := p.pending[t := i]) else p
    case CopySucceeds(t) => p.(pending := p.pending - {t}, owned := p.owned + {p.pending[t]})
    case CopyFails(t) => p.(pending := p.pending - {t}, table := ReleaseSlot(p.table, p.pending[t]))
    case FreeBuffer(o) => FreeStep(p, o)
  }

  // The live slots are the disjoint union of the clients' slots and the pending ones, and no
  // two callers have reserved the same slot.
  ghost predicate PoolInv(p: Pool) {
    && TableOk(p.table, p.unit)
    && LiveSet(p.table) == p.owned + p.pending.Values
    && p.owned !! p.pending.Values
    && forall t, u :: t in p.pending && u in p.pending && t != u ==> p.pending[t] != p.pending[u]
  }

  lemma ValuesWithout(m: map<nat, nat>, t: nat)
    requires t in m
    requires forall u, v :: u in m && v in m && u != v ==> m[u] != m[v]
    ensures (m - {t}).Values == m.Values - {m[t]}
  {
    forall x | x in m.Values - {m[t]}
      ensures x in (m - {t}).Values
    {
      var u :| u in m && m[u] == x;
      assert u in m - {t} && (m - {t})[u] == x;
    }
  }

  lemma ValuesWith(m: map<nat, nat>, t: nat, i: nat)
    requires t !in m
    ensures m[t := i].Values == m.Values + {i}
  {
    var m' := m[t := i];
    assert m'[t] == i;
    forall x | x in m.Values
      ensures x in m'.Values
    {
      var u :| u in m && m[u] == x;
      assert u in m' && m'[u] == x;
    }
  }

  lemma PoolKept(p: Pool, a: PoolAction)
    requires PoolInv(p) && Permitted(p, a)
    ensures PoolInv(PoolNext(p, a))
  {
    match a
    case Reserve(t) =>
      ReserveEffect(p.table, p.unit);
      ValuesWith(p.pending, t, FirstFree(p.table, 0));
    case CopySucceeds(t) => ValuesWithout(p.pending, t);
    case CopyFails(t) =>
      ReleaseEffect(p.table, p.unit, p.pending[t]);
      ValuesWithout(p.pending, t);
    case FreeBuffer(o) => OwnedFreeKept(p, o);
  }

  lemma OwnedFreeKept(p: Pool, o: nat)
    requires PoolInv(p) && exists i :: i in p.owned && Buffer(i, p.unit).offset == o
    ensures PoolInv(FreeStep(p, o))
  {
    FoundIsTheOnlyOne(p.table, p.unit, o);
    var i :| i in p.owned && Buffer(i, p.unit).offset == o;
    assert i in LiveSet(p.table);
    ReleaseEffect(p.table, p.unit, i);
  }

  // A rollback is always possible, frees the caller's own reservation and touches neither a
  // client's buffer nor another caller's reservation.
  lemma RollbackReleasesOwn(p: Pool, t: nat)
    requires PoolInv(p) && t in p.pending
    ensures p.pending[t] < |p.table| && Live(p.table[p.pending[t]])
    ensures var p' := PoolNext(p, CopyFails(t));
            && LiveSet(p'.table) == LiveSet(p.table) - {p.pending[t]}
            && p'.owned == p.owned && p.owned <= LiveSet(p'.table)
            && forall u :: u in p.pending && u != t ==> u in p'.pending && p'.pending[u] == p.pending[u]
                                                        && p'.pending[u] in LiveSet(p'.table)
  {
    assert p.pending[t] in p.pending.Values;
    PoolKept(p, CopyFails(t));
    ReleaseEffect(p.table, p.unit, p.pending[t]);
    var p' := PoolNext(p, CopyFails(t));
    forall u | u in p.pending && u != t
      ensures u in p'.pending && p'.pending[u] in LiveSet(p'.table)
    {
      assert u in p'.pending && p'.pending[u] in p'.pending.Values;
    }
  }

  // Every step takes effect at one instant on the set of live slots, as in a sequential pool.
  lemma StepIsAtomic(p: Pool, a: PoolAction)
    requires PoolInv(p) && Permitted(p, a)
    ensures var live, live' := LiveSet(p.table), LiveSet(PoolNext(p, a).table);
            match a
            case Reserve(t) =>
              if forall j: nat | j < |p.table| :: j in live then live' == live && t !in PoolNext(p, a).pending
              else
                && t in PoolNext(p, a).pending
                && var i := PoolNext(p, a).pending[t];
                   i !in live && live' == live + {i} && forall j: nat | j < i :: j in live
            case CopySucceeds(t) => live' == live
            case CopyFails(t) => live' == live - {p.pending[t]}
            case FreeBuffer(o) => exists i :: i in p.owned && Buffer(i, p.unit).offset == o && live' == live - {i}
  {
    match a
    case Reserve(t) => ReserveEffect(p.table, p.unit);
    case CopySucceeds(t) =>
    case CopyFails(t) => ReleaseEffect(p.table, p.unit, p.pending[t]);
    case FreeBuffer(o) =>
      FoundIsTheOnlyOne(p.table, p.unit, o);
      var i :| i in p.owned && Buffer(i, p.unit).offset == o;
      assert i in LiveSet(p.table);
      ReleaseEffect(p.table, p.unit, i);
  }

  // ---- runs ----

  // Runs in which anyone frees anything.
  ghost predicate IsAnyRun(pools: seq<Pool>, acts: seq<PoolAction>) {
    && |pools| == |acts| + 1
    && PoolInit(pools[0])
    && forall i :: 0 <= i < |acts| ==> Possible(pools[i], acts[i]) && pools[i + 1] == PoolNext(pools[i], acts[i])
  }

  // Runs in which clients free only what is theirs.
  ghost predicate IsPoolRun(pools: seq<Pool>, acts: seq<PoolAction>) {
    && IsAnyRun(pools, acts)
    && forall i :: 0 <= i < |acts| ==> Permitted(pools[i], acts[i])
  }

  // With any number of callers interleaved in any way: live = owned + pending, disjointly, and
  // every client's buffer is live with the offset and size it was given.
  lemma {:induction false} OwnershipOverRuns(pools: seq<Pool>, acts: seq<PoolAction>, i: nat)
    requires IsPoolRun(pools, acts) && i < |pools|
    ensures PoolInv(pools[i])
    ensures forall s :: s in pools[i].owned ==> s < |pools[i].table| && pools[i].table[s] == Buffer(s, pools[i].unit)
  {
    if i == 0 {
      assert LiveSet(Zeroed(|pools[0].table|)) == {};
    } else {
      OwnershipOverRuns(pools, acts, i - 1);
      PoolKept(pools[i - 1], acts[i - 1]);
    }
    forall s | s in pools[i].owned
      ensures s < |pools[i].table| && pools[i].table[s] == Buffer(s, pools[i].unit)
    {
      assert s in LiveSet(pools[i].table);
    }
  }

  // ---- runs as sequential histories ----

  // The call a step is in a sequential history: a reservation is an allocation, a rollback
  // frees what it had reserved, and giving the lock up between the two is nothing at all.
  function OpsOf(p: Pool, a: PoolAction): seq<BufferOp>
    requires Possible(p, a)
  {
    match a
    case Reserve(_) => [Alloc]
    case CopySucceeds(_) => []
    case CopyFails(t) => [Free(Buffer(p.pending[t], p.unit).offset)]
    case FreeBuffer(o) => [Free(o)]
  }

  ghost function Ops(pools: seq<Pool>, acts: seq<PoolAction>, i: nat): seq<BufferOp>
    requires IsAnyRun(pools, acts) && i < |pools|
  {
    if i == 0 then [] else Ops(pools, acts, i - 1) + OpsOf(pools[i - 1], acts[i - 1])
  }

  lemma RollbackIsFree(t: seq<Meta>, unit: nat, i: nat)
    requires TableOk(t, unit) && i < |t|
    ensures ReleaseSlot(t, i) == FreeOffset(t, Buffer(i, unit).offset)
  {
    FoundIsTheOnlyOne(t, unit, Buffer(i, unit).offset);
    var r := FirstWith(t, Buffer(i, unit).offset, 0);
    if Live(t[i]) {
      assert i in LiveSet(t);
    } else if r < |t| {
      OffsetsDistinct(i, r, unit);
    }
  }

  lemma StepIsOps(p: Pool, a: PoolAction, ops: seq<BufferOp>)
    requires TableOk(p.table, p.unit) && Possible(p, a)
    requires p.table == After(|p.table|, p.unit, ops)
    ensures var p' := PoolNext(p, a);
            p'.unit == p.unit && p'.table == After(|p.table|, p.unit, ops + OpsOf(p, a))
  {
    match a
    case CopySucceeds(_) => assert ops + [] == ops;
    case CopyFails(t) =>
      RollbackIsFree(p.table, p.unit, p.pending[t]);
      AfterOneMore(|p.table|, p.unit, ops, OpsOf(p, a)[0]);
    case _ => AfterOneMore(|p.table|, p.unit, ops, OpsOf(p, a)[0]);
  }

  lemma AfterOneMore(n: nat, unit: nat, ops: seq<BufferOp>, op: BufferOp)
    ensures After(n, unit, ops + [op]) == Apply(After(n, unit, ops), unit, op)
  {
    assert (ops + [op])[..|ops|] == ops;
  }

  // Every concurrent run, also one in which callers free what is not theirs, leaves the table
  // that the sequential calls of its steps leave, so every reply is the sequential one; the
  // live slots are those the replies have handed out.
  lemma {:induction false} RunIsSequential(pools: seq<Pool>, acts: seq<PoolAction>, i: nat)
    requires IsAnyRun(pools, acts) && i < |pools|
    ensures var n, unit, ops := |pools[0].table|, pools[0].unit, Ops(pools, acts, i);
            && pools[i].unit == unit
            && pools[i].table == After(n, unit, ops)
            && HeldOffsets(n, unit, ops) == OffsetsOf(LiveSet(pools[i].table), unit)
  {
    if i > 0 {
      RunIsSequential(pools, acts, i - 1);
      HistorySound(|pools[0].table|, pools[0].unit, Ops(pools, acts, i - 1));
      StepIsOps(pools[i - 1], acts[i - 1], Ops(pools, acts, i - 1));
    }
    HistorySound(|pools[0].table|, pools[0].unit, Ops(pools, acts, i));
  }

  // ---- when an allocation is refused ----

  function Slots(n: nat): (r: set<nat>)
    ensures |r| == n
    ensures forall i: nat :: i in r <==> i < n
  {
    if n == 0 then {} else Slots(n - 1) + {n - 1}
  }

  lemma AllLiveExactly(t: seq<Meta>)
    ensures |LiveSet(t)| <= |t|
    ensures FirstFree(t, 0) == |t| <==> |LiveSet(t)| == |t|
  {
    var live, all := LiveSet(t), Slots(|t|);
    assert live <= all;
    assert |all - live| == |all| - |live|;
    var i := FirstFree(t, 0);
    if i < |t| {
      assert i in all - live;
    } else {
      assert live == all;
    }
  }

  lemma {:induction false} ValuesCount(m: map<nat, nat>)
    requires forall u, v :: u in m && v in m && u != v ==> m[u] != m[v]
    ensures |m.Values| == |m|
    decreases |m|
  {
    if t :| t in m {
      var rest := m - {t};
      assert m == rest[t := m[t]];
      ValuesCount(rest);
      ValuesWithout(m, t);
      assert m[t] in m.Values;
    } else {
      assert m.Values == {};
    }
  }

  // An allocation is refused exactly when the clients' buffers and the reservations together
  // fill the pool. So a refusal is seen with a buffer in nobody's hands exactly when another
  // caller's reservation is pending, whose copy may still fail.
  lemma RefusedExactly(p: Pool, t: nat)
    requires PoolInv(p) && t !in p.pending
    ensures t !in PoolNext(p, Reserve(t)).pending <==> |p.owned| + |p.pending| == |p.table|
    ensures t !in PoolNext(p, Reserve(t)).pending ==> (|p.owned| < |p.table| <==> p.pending != map[])
  {
    AllLiveExactly(p.table);
    ValuesCount(p.pending);
    assert |p.owned + p.pending.Values| == |p.owned| + |p.pending.Values|;
  }

  // ---- clients that free what they were not given ----

  // The code itself does not check who frees. A free call keeps the invariant exactly when its
  // offset is not the one of a reservation still being copied out.
  lemma FreeKeptExactly(p: Pool, offset: nat)
    requires PoolInv(p)
    ensures Possible(p, FreeBuffer(offset)) && PoolNext(p, FreeBuffer(offset)) == FreeStep(p, offset)
    ensures PoolInv(FreeStep(p, offset)) <==> !exists t :: t in p.pending && Buffer(p.pending[t], p.unit).offset == offset
  {
    FoundIsTheOnlyOne(p.table, p.unit, offset);
    var i := FirstWith(p.table, offset, 0);
    if t :| t in p.pending && Buffer(p.pending[t], p.unit).offset == offset {
      assert p.pending[t] in p.pending.Values;
      assert p.pending[t] in LiveSet(p.table);
      ReleaseEffect(p.table, p.unit, i);
      assert i in p.pending.Values && i !in LiveSet(FreeStep(p, offset).table);
    } else if i < |p.table| {
      assert i in LiveSet(p.table);
      forall t | t in p.pending
        ensures p.pending[t] != i
      {
        assert Buffer(p.pending[t], p.unit).offset != offset;
      }
      OwnedFreeKept(p, offset);
    }
  }

  // Such a free lets a rollback take another client's buffer away: caller 1 reserves slot 0,
  // offset 0 is freed by someone, caller 2 is given slot 0, and the copy of caller 1 fails.
  lemma StrayFreeLosesBuffer(p0: Pool) returns (p1: Pool, p2: Pool, p3: Pool, p4: Pool, p5: Pool)
    requires PoolInit(p0) && p0.table != []
    ensures p1 == PoolNext(p0, Reserve(1))
    ensures Possible(p1, FreeBuffer(0)) && p2 == PoolNext(p1, FreeBuffer(0))
    ensures Permitted(p2, Reserve(2)) && p3 == PoolNext(p2, Reserve(2))
    ensures Permitted(p3, CopySucceeds(2)) && p4 == PoolNext(p3, CopySucceeds(2))
    ensures Permitted(p4, CopyFails(1)) && p5 == PoolNext(p4, CopyFails(1))
    ensures 0 in p4.owned && 0 in LiveSet(p4.table)
    ensures 0 in p5.owned && 0 !in LiveSet(p5.table)
  {
    assert FirstFree(p0.table, 0) == 0;
    p1 := PoolNext(p0, Reserve(1));
    assert FirstWith(p1.table, 0, 0) == 0;
    p2 := PoolNext(p1, FreeBuffer(0));
    assert FirstFree(p2.table, 0) == 0;
    p3 := PoolNext(p2, Reserve(2));
    p4 := PoolNext(p3, CopySucceeds(2));
    p5 := PoolNext(p4, CopyFails(1));
  }
}
