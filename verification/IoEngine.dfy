/**
 The closed-loop engine of arbitration_read.cc: a shared task pool, a bounded number
 of reads per context, one new read for each completed one until draining.
 */
module IoEngine {
  import opened Arithmetic
  import opened Options
  import opened Latency

  // ---- Namespaces

  /** What `register_ns` keeps of a namespace; `sectors` is its size in blocks. */
  datatype NsEntry = NsEntry(sectors: nat, sizeInIos: nat, ioSizeBlocks: nat)

  /** `register_ns`: a namespace that cannot take one I/O of this size is refused. */
  function RegisterNs(sectors: nat, sectorSize: nat, extendedSectorSize: nat, ioSize: nat): (r: Option<NsEntry>)
    requires 0 < sectorSize <= extendedSectorSize
    ensures r.Some? <==> && ioSize <= sectors * sectorSize && extendedSectorSize <= ioSize
                         && ioSize % extendedSectorSize == 0
    ensures r.Some? ==> r.value.sectors == sectors && r.value.sizeInIos > 0 && r.value.ioSizeBlocks > 0
  {
    var size := sectors * sectorSize;
    if size < ioSize || extendedSectorSize > ioSize || ioSize % extendedSectorSize != 0 then None
    else
      Quotient(size, ioSize);
      Quotient(ioSize, sectorSize);
      Some(NsEntry(sectors, size / ioSize, ioSize / sectorSize))
  }

  /** As many slots as fit the namespace, and as many blocks as fit an I/O. */
  lemma RegistersExactly(sectors: nat, sectorSize: nat, extendedSectorSize: nat, ioSize: nat)
    requires 0 < sectorSize <= extendedSectorSize
    requires RegisterNs(sectors, sectorSize, extendedSectorSize, ioSize).Some?
    ensures var e := RegisterNs(sectors, sectorSize, extendedSectorSize, ioSize).value;
            && e.sizeInIos * ioSize <= sectors * sectorSize < e.sizeInIos * ioSize + ioSize
            && e.ioSizeBlocks * sectorSize <= ioSize < e.ioSizeBlocks * sectorSize + sectorSize
  {
    var size := sectors * sectorSize;
    assert size == ioSize * (size / ioSize) + size % ioSize;
    assert ioSize == sectorSize * (ioSize / sectorSize) + ioSize % sectorSize;
  }

  ghost predicate Fits(e: NsEntry, slot: nat) { slot * e.ioSizeBlocks + e.ioSizeBlocks <= e.sectors }

  ghost predicate Usable(e: NsEntry) {
    e.sizeInIos > 0 && e.ioSizeBlocks > 0 && forall slot: nat | slot < e.sizeInIos :: Fits(e, slot)
  }

  /** All of a registered namespace's I/O slots lie inside it. */
  lemma RegisteredIsUsable(sectors: nat, sectorSize: nat, extendedSectorSize: nat, ioSize: nat)
    requires 0 < sectorSize <= extendedSectorSize
    ensures var r := RegisterNs(sectors, sectorSize, extendedSectorSize, ioSize); r.Some? ==> Usable(r.value)
  {
    var r := RegisterNs(sectors, sectorSize, extendedSectorSize, ioSize);
    if r.Some? {
      var a, b := r.value.sizeInIos, r.value.ioSizeBlocks;
      Quotient(sectors * sectorSize, ioSize);
      Quotient(ioSize, sectorSize);
      ScaleUp(a, b * sectorSize, ioSize);
      assert a * (b * sectorSize) == (a * b) * sectorSize;
      assert sectorSize * (a * b) <= sectorSize * sectors;
      Cancel(a * b, sectors, sectorSize);
      forall slot: nat | slot < a ensures Fits(r.value, slot) {
        SlotFits(r.value, slot);
      }
    }
  }

  /** `register_ns` accepted some namespace with this result. */
  ghost predicate Registered(e: NsEntry) {
    exists sectors, sectorSize, extended, ioSize | 0 < sectorSize <= extended ::
      RegisterNs(sectors, sectorSize, extended, ioSize) == Some(e)
  }

  lemma AllRegisteredUsable(e: NsEntry)
    requires Registered(e)
    ensures Usable(e)
  {
    var sectors, sectorSize, extended, ioSize :| 0 < sectorSize <= extended
      && RegisterNs(sectors, sectorSize, extended, ioSize) == Some(e);
    RegisteredIsUsable(sectors, sectorSize, extended, ioSize);
  }

  lemma SlotFits(e: NsEntry, slot: nat)
    requires slot < e.sizeInIos && e.sizeInIos * e.ioSizeBlocks <= e.sectors
    ensures Fits(e, slot)
  {
    ScaleUp(e.ioSizeBlocks, slot + 1, e.sizeInIos);
    assert e.ioSizeBlocks * (slot + 1) == slot * e.ioSizeBlocks + e.ioSizeBlocks;
    assert e.ioSizeBlocks * e.sizeInIos == e.sizeInIos * e.ioSizeBlocks;
  }

  // ---- One context

  datatype Ctx = Ctx(
    completed: nat,            // io_completed
    depth: nat,                // current_queue_depth
    offset: nat,               // offset_in_ios
    draining: bool,
    stimes: seq<int>,
    etimes: seq<int>,
    // the commands behind the counters; the i-th submission attempt is command i
    inFlight: set<nat>,
    done: seq<nat>,            // completed commands, in order of completion
    failed: set<nat>,          // refused by the device: their tasks are not given back
    lbas: seq<nat>)            // where each command reads

  /** The I/O slot of the next read: random, or the next in sequence with wrap-around. */
  function Slot(c: Ctx, e: NsEntry, random: Option<nat>): nat
    requires e.sizeInIos > 0
  {
    if random.Some? then random.value % e.sizeInIos else c.offset
  }

  function NextOffset(c: Ctx, e: NsEntry, random: Option<nat>): nat {
    if random.Some? then c.offset else if c.offset + 1 == e.sizeInIos then 0 else c.offset + 1
  }

  /** How many commands `submit_io` starts: none if the depth has become negative. */
  function Submissions(depth: int): nat { if depth > 0 then depth else 0 }

  /** `submit_single_io` once it has a task. */
  function Submit(c: Ctx, e: NsEntry, random: Option<nat>, now: int, ok: bool): Ctx
    requires e.sizeInIos > 0
  {
    var id := |c.stimes|;
    var c1 := c.(offset := NextOffset(c, e, random), stimes := c.stimes + [now],
                 lbas := c.lbas + [Slot(c, e, random) * e.ioSizeBlocks]);
    if ok then c1.(depth := c.depth + 1, inFlight := c.inFlight + {id}) else c1.(failed := c.failed + {id})
  }

  /** `task_complete` up to the replacement read. */
  function Complete(c: Ctx, id: nat, now: int): Ctx
    requires c.depth > 0
  {
    c.(depth := c.depth - 1, completed := c.completed + 1, etimes := c.etimes + [now],
       inFlight := c.inFlight - {id}, done := c.done + [id])
  }

  /** Tasks of the shared pool that a context keeps: in flight, or lost to a refused submission. */
  function Used(c: Ctx): nat { c.depth + |c.failed| }

  // ---- What holds of a context at any time `now`

  ghost predicate Bookkeeping(c: Ctx) {
    && c.depth == |c.inFlight| && c.completed == |c.done| == |c.etimes| && |c.lbas| == |c.stimes|
    && (forall i, j | 0 <= i < j < |c.done| :: c.done[i] != c.done[j])
    && (forall v: nat :: v < |c.stimes| <==> v in c.done || v in c.inFlight || v in c.failed)
    && (forall v | v in c.inFlight :: v !in c.done && v !in c.failed)
    && (forall v | v in c.failed :: v !in c.done)
    && |c.stimes| == |c.done| + |c.inFlight| + |c.failed|
  }

  ghost predicate Timely(c: Ctx, now: int) {
    && Ascending(c.stimes) && Ascending(c.etimes)
    && (forall i | 0 <= i < |c.stimes| :: c.stimes[i] <= now)
    && (forall i | 0 <= i < |c.etimes| :: c.etimes[i] <= now)
    // the i-th completion comes after the i-th submission, and after its own
    && |c.etimes| <= |c.stimes| && |c.etimes| == |c.done|
    && (forall i | 0 <= i < |c.etimes| :: c.stimes[i] <= c.etimes[i])
    && (forall i {:trigger c.done[i]} | 0 <= i < |c.done| ::
          c.done[i] < |c.stimes| && c.stimes[c.done[i]] <= c.etimes[i])
  }

  ghost predicate InRange(c: Ctx, e: NsEntry) {
    && c.offset < e.sizeInIos
    && forall i | 0 <= i < |c.lbas| :: c.lbas[i] + e.ioSizeBlocks <= e.sectors
  }

  ghost predicate CtxInv(c: Ctx, e: NsEntry, now: int) {
    Usable(e) && Bookkeeping(c) && Timely(c, now) && InRange(c, e)
  }

  /** Nothing submitted, nothing completed. */
  ghost predicate Unused(c: Ctx) {
    && c.done == [] && c.etimes == [] && c.stimes == [] && c.lbas == [] && c.inFlight == {} && c.failed == {}
    && c.depth == 0 && c.completed == 0 && c.offset == 0 && !c.draining
  }

  lemma UnusedKeeps(c: Ctx, e: NsEntry)
    requires Usable(e) && Unused(c)
    ensures CtxInv(c, e, 0) && Used(c) == 0
  {
  }

  lemma SubmitBooks(c: Ctx, e: NsEntry, random: Option<nat>, now: int, ok: bool)
    requires Bookkeeping(c) && e.sizeInIos > 0
    ensures Bookkeeping(Submit(c, e, random, now, ok))
    ensures Used(Submit(c, e, random, now, ok)) == Used(c) + 1
  {
    var id := |c.stimes|;
    assert id !in c.done && id !in c.inFlight && id !in c.failed;
    assert |c.inFlight + {id}| == |c.inFlight| + 1 && |c.failed + {id}| == |c.failed| + 1;
  }

  lemma SubmitTimely(c: Ctx, e: NsEntry, random: Option<nat>, was: int, now: int, ok: bool)
    requires e.sizeInIos > 0 && Timely(c, was) && was <= now
    ensures Timely(Submit(c, e, random, now, ok), now)
  {
  }

  lemma SubmitKeeps(c: Ctx, e: NsEntry, random: Option<nat>, was: int, now: int, ok: bool)
    requires CtxInv(c, e, was) && was <= now
    ensures CtxInv(Submit(c, e, random, now, ok), e, now)
  {
    SubmitBooks(c, e, random, now, ok);
    SubmitTimely(c, e, random, was, now, ok);
    assert Fits(e, Slot(c, e, random));
  }

  lemma CompleteBooks(c: Ctx, id: nat, now: int)
    requires Bookkeeping(c) && id in c.inFlight
    ensures c.depth > 0 && Bookkeeping(Complete(c, id, now)) && Used(Complete(c, id, now)) == Used(c) - 1
  {
    assert |c.inFlight - {id}| == |c.inFlight| - 1;
    var c' := Complete(c, id, now);
    assert forall v: nat :: v in c'.done <==> v in c.done || v == id;
  }

  lemma CompleteKeeps(c: Ctx, e: NsEntry, id: nat, was: int, now: int)
    requires CtxInv(c, e, was) && was <= now && id in c.inFlight
    ensures c.depth > 0 && CtxInv(Complete(c, id, now), e, now)
  {
    CompleteBooks(c, id, now);
    assert |c.done| < |c.stimes|;
    assert id < |c.stimes|;
  }

  // ---- After draining

  /** With nothing in flight, the latency loop stays inside `etimes` exactly when no submission was refused. */
  lemma StatisticsInBounds(c: Ctx)
    requires Bookkeeping(c) && c.inFlight == {}
    ensures |c.stimes| <= |c.etimes| <==> c.failed == {}
  {
  }

  lemma DrainedOrder(c: Ctx, now: int)
    requires Bookkeeping(c) && Timely(c, now) && c.inFlight == {} && c.failed == {}
    ensures |c.stimes| == |c.etimes| && Permutes(c.done, |c.stimes|)
    ensures forall i | 0 <= i < |c.stimes| :: Deltas(c.stimes, c.etimes)[i] >= 0
  {
  }

  /** ... and then no reported latency is negative, and the statistics are order-blind. */
  lemma DrainedStatistics(c: Ctx, now: int)
    requires Bookkeeping(c) && Timely(c, now) && c.inFlight == {} && c.failed == {}
    ensures |c.stimes| == |c.etimes| && Permutes(c.done, |c.stimes|)
    ensures forall i | 0 <= i < |c.stimes| :: Deltas(c.stimes, c.etimes)[i] >= 0
    ensures Blind(c.stimes, c.etimes, c.done)
  {
    DrainedOrder(c, now);
    OrderBlind(c.stimes, c.etimes, c.done);
  }

  // ---- Sequential submission

  /** The slots of a purely sequential context: the k-th command reads slot k modulo the namespace. */
  ghost predicate Sequential(c: Ctx, e: NsEntry)
    requires e.sizeInIos > 0
  {
    && |c.lbas| == |c.stimes|
    && c.offset == |c.stimes| % e.sizeInIos
    && forall k | 0 <= k < |c.lbas| :: c.lbas[k] == (k % e.sizeInIos) * e.ioSizeBlocks
  }

  lemma SequentialSubmit(c: Ctx, e: NsEntry, now: int, ok: bool)
    requires e.sizeInIos > 0 && Sequential(c, e)
    ensures Sequential(Submit(c, e, None, now, ok), e)
  {
    Successor(|c.stimes|, e.sizeInIos);
  }

  lemma SequentialComplete(c: Ctx, e: NsEntry, id: nat, now: int)
    requires e.sizeInIos > 0 && Sequential(c, e) && c.depth > 0
    ensures Sequential(Complete(c, id, now), e)
  {
  }

  /** In any round of as many commands as there are slots, no slot is read twice. */
  lemma OncePerWrap(c: Ctx, e: NsEntry, i: nat, j: nat)
    requires e.sizeInIos > 0 && e.ioSizeBlocks > 0 && Sequential(c, e)
    requires i < j < |c.lbas| && j < i + e.sizeInIos
    ensures c.lbas[i] != c.lbas[j]
  {
    var n := e.sizeInIos;
    if i % n == j % n {
      var d := j / n - i / n;
      assert j - i == n * d by {
        assert i == n * (i / n) + i % n && j == n * (j / n) + j % n;
        assert n * (j / n) - n * (i / n) == n * d;
      }
      NoMultiple(n, d);
    }
    SlotsDiffer(i % n, j % n, e.ioSizeBlocks);
  }

  /** ... and in any full round every slot is read. */
  lemma EverySlotRead(c: Ctx, e: NsEntry, a: nat, slot: nat) returns (b: nat)
    requires e.sizeInIos > 0 && Sequential(c, e) && slot < e.sizeInIos && a + e.sizeInIos <= |c.lbas|
    ensures a <= b < a + e.sizeInIos && c.lbas[b] == slot * e.ioSizeBlocks
  {
    var n := e.sizeInIos;
    var q, r := a / n, a % n;
    assert a == n * q + r;
    if slot >= r {
      b := a + slot - r;
      Remainder(n, q, slot, b);
    } else {
      b := a + slot - r + n;
      assert n * (q + 1) == n * q + n;
      Remainder(n, q + 1, slot, b);
    }
  }

  lemma SlotsDiffer(a: nat, b: nat, n: nat)
    requires n > 0 && a != b
    ensures a * n != b * n
  {
    if a < b {
      Grow(n, a, b);
    } else {
      Grow(n, b, a);
    }
  }
}
