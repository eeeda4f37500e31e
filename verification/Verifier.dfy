/** The context of verification.cc, updated in place by its loops and callbacks. */
module Verifier {
  import opened TaskPools
  import opened Decimal
  import opened ReadBack
  import opened VerifyModel

  lemma CompletionDrains(c: Ctx, id: nat, queueDepth: nat, ok: bool)
    requires Completable(c, id)
    ensures var c' := TaskComplete(c, id, queueDepth, ok);
            c'.draining == c.draining && (c.draining ==> c'.depth == c.depth - 1)
  {
  }

  class NsWorkerCtx {
    const queueDepth: nat
    var count: nat
    var currentQueueDepth: nat
    var ioCompleted: nat
    var isDraining: bool
    var writeCompleted: nat
    var readCompleted: nat
    var verificationPassed: nat
    var verificationFailed: nat
    var pendingReads: seq<Pair>
    // the queue pair: tasks the device holds
    var issued: nat
    var appending: map<nat, Append>
    var reading: map<nat, Fetch>
    ghost var dropped: nat
    var exited: bool

    ghost function Model(pool: TaskPool): Ctx reads this, pool {
      Ctx(count, currentQueueDepth, ioCompleted, isDraining, writeCompleted, readCompleted, verificationPassed,
          verificationFailed, pendingReads, issued, appending, reading, dropped, pool.free, exited)
    }

    /** `init_ns_worker_ctx` on a zeroed context. */
    constructor (queueDepth: nat, pool: TaskPool)
      ensures this.queueDepth == queueDepth
      ensures Model(pool) == Ctx(0, 0, 0, false, 0, 0, 0, 0, [], 0, map[], map[], 0, pool.free, false)
      ensures Accounted(Model(pool), queueDepth, pool.free, queueDepth)
    {
      this.queueDepth := queueDepth;
      count, currentQueueDepth, ioCompleted, isDraining := 0, 0, 0, false;
      writeCompleted, readCompleted, verificationPassed, verificationFailed := 0, 0, 0, 0;
      pendingReads, issued, appending, reading, dropped, exited := [], 0, map[], map[], 0, false;
    }

    /** `submit_single_io` of an append, or of the verification read of a pair. */
    method SubmitSingleIo(pool: TaskPool, verify: bool, pair: Pair, ok: bool)
      modifies this, pool
      ensures verify ==> Model(pool) == SubmitRead(old(Model(pool)), pair, ok)
      ensures !verify ==> Model(pool) == SubmitAppend(old(Model(pool)), ok)
      ensures old(pool.free) > 0 ==> count == if verify then old(count) else (old(count) + 1) % 0x1_0000_0000_0000_0000
      ensures old(pool.free) > 0 && !verify && ok ==>
                appending == old(appending)[old(issued) := Append(
                  "zstore1:" + ToString(old(count)) + ":pattern:"
                  + ToString(old(count) * 0xDEADBEEF % 0x1_0000_0000_0000_0000), Waiting)]
      ensures old(pool.free) > 0 && verify && ok ==> reading == old(reading)[old(issued) := Fetch(pair, Waiting)]
    {
      if pool.free == 0 {
        exited := true;
        return;
      }
      pool.free := pool.free - 1;
      var text := [];
      if !verify {
        text := Pattern(count);
        count := (count + 1) % WORD;
      }
      if !ok {
        pool.free := pool.free + 1;
        if verify {
          dropped := dropped + 1;
        }
        return;
      }
      if verify {
        reading := reading[issued := Fetch(pair, Waiting)];
      } else {
        appending := appending[issued := Append(text, Waiting)];
      }
      issued := issued + 1;
      currentQueueDepth := currentQueueDepth + 1;
    }

    /** `io_complete` and `task_complete`; `ok` says whether the device takes the replacement. */
    method IoComplete(pool: TaskPool, id: nat, ok: bool)
      requires Completable(Model(pool), id)
      modifies this, pool
      ensures Model(pool) == TaskComplete(old(Model(pool)), id, queueDepth, ok)
    {
      CountCompletion(pool, id);
      FillPlace(pool, ok);
    }

    /** `task_complete` up to the replacement. */
    method CountCompletion(pool: TaskPool, id: nat)
      requires Completable(Model(pool), id)
      modifies this, pool
      ensures Model(pool) == Settle(old(Model(pool)), id)
    {
      if id in appending {
        CountAppend(pool, id);
      } else {
        CountVerification(pool, id);
      }
    }

    method CountAppend(pool: TaskPool, id: nat)
      requires id in appending && Completable(Model(pool), id)
      modifies this, pool
      ensures Model(pool) == SettleAppend(old(Model(pool)), id)
      ensures pendingReads == old(pendingReads) + [Pair(old(appending)[id].cdw0.value, old(appending)[id].text)]
    {
      currentQueueDepth, ioCompleted := currentQueueDepth - 1, ioCompleted + 1;
      writeCompleted := writeCompleted + 1;
      pendingReads := pendingReads + [Pair(appending[id].cdw0.value, appending[id].text)];
      appending := appending - {id};
      pool.free := pool.free + 1;
    }

    method CountVerification(pool: TaskPool, id: nat)
      requires id !in appending && Completable(Model(pool), id)
      modifies this, pool
      ensures Model(pool) == SettleRead(old(Model(pool)), id)
      ensures var f := old(reading)[id];
              verificationPassed == old(verificationPassed) + 1 <==> Matches(f.found.value, f.pair.expected)
    {
      currentQueueDepth, ioCompleted := currentQueueDepth - 1, ioCompleted + 1;
      readCompleted := readCompleted + 1;
      CountVerdict(Matches(reading[id].found.value, reading[id].pair.expected));
      reading := reading - {id};
      pool.free := pool.free + 1;
    }

    method CountVerdict(ok: bool)
      modifies this`verificationPassed, this`verificationFailed
      ensures verificationPassed == old(verificationPassed) + (if ok then 1 else 0)
      ensures verificationFailed == old(verificationFailed) + (if ok then 0 else 1)
    {
      if ok {
        verificationPassed := verificationPassed + 1;
      } else {
        verificationFailed := verificationFailed + 1;
      }
    }

    /** The end of `task_complete`: the oldest queued read, or a new append, unless draining. */
    method FillPlace(pool: TaskPool, ok: bool)
      modifies this, pool
      ensures Model(pool) == Replace(old(Model(pool)), queueDepth, ok)
      ensures old(isDraining) ==> Model(pool) == old(Model(pool))
      ensures !old(isDraining) && old(pool.free) > 0 && ok ==> currentQueueDepth == old(currentQueueDepth) + 1
      ensures !old(isDraining) && old(pool.free) > 0 && ok && old(pendingReads) == [] ==>
                old(issued) in appending && reading == old(reading)
      ensures !old(isDraining) && old(pool.free) > 0 && ok && old(pendingReads) != []
              && old(currentQueueDepth) < queueDepth ==>
                reading == old(reading)[old(issued) := Fetch(old(pendingReads)[0], Waiting)]
    {
      if !isDraining {
        if pendingReads != [] && currentQueueDepth < queueDepth {
          var pair := pendingReads[0];
          pendingReads := pendingReads[1..];
          SubmitSingleIo(pool, true, pair, ok);
        } else {
          SubmitSingleIo(pool, false, Pair(0, []), ok);
        }
      }
    }

    /** The device serves whichever command it likes: any address, any data. */
    method ServeOne(pool: TaskPool, ghost size: nat) returns (id: nat)
      requires Accounted(Model(pool), queueDepth, size, 0) && currentQueueDepth > 0
      modifies this`appending, this`reading
      ensures Completable(Model(pool), id) && Accounted(Model(pool), queueDepth, size, 0)
    {
      assert |appending| > 0 || |reading| > 0;
      id :| id in appending || id in reading;
      if id in appending {
        var cdw0: nat :| true;
        Added(appending, id, appending[id].(cdw0 := Done(cdw0)));
        appending := appending[id := appending[id].(cdw0 := Done(cdw0))];
      } else {
        var found: string := *;
        Added(reading, id, reading[id].(found := Done(found)));
        reading := reading[id := reading[id].(found := Done(found))];
      }
    }

    /** `submit_io` on a new context. */
    method SubmitIo(pool: TaskPool, ghost size: nat)
      requires Accounted(Model(pool), queueDepth, size, queueDepth) && !exited
      modifies this, pool
      ensures Accounted(Model(pool), queueDepth, size, 0) && isDraining == old(isDraining)
      ensures queueDepth <= size ==> !exited
    {
      var left := queueDepth;
      while left > 0 && !exited
        invariant 0 <= left <= queueDepth && isDraining == old(isDraining)
        invariant Accounted(Model(pool), queueDepth, size, left)
        invariant queueDepth <= size ==> !exited
      {
        var ok: bool := *;
        AppendAccounted(Model(pool), ok, queueDepth, size, left);
        SubmitSingleIo(pool, false, Pair(0, []), ok);
        left := left - 1;
      }
    }

    /** One completion in whatever order the device chooses. */
    method CompleteOne(pool: TaskPool, ghost size: nat)
      requires Accounted(Model(pool), queueDepth, size, 0) && currentQueueDepth > 0
      modifies this, pool
      ensures Accounted(Model(pool), queueDepth, size, 0)
      ensures isDraining == old(isDraining) && exited == old(exited)
      ensures isDraining ==> currentQueueDepth == old(currentQueueDepth) - 1
    {
      var ok: bool := *;
      var id := ServeOne(pool, size);
      CompleteAccounted(Model(pool), id, queueDepth, size, 0, ok);
      CompletionDrains(Model(pool), id, queueDepth, ok);
      IoComplete(pool, id, ok);
    }

    /** `drain_io`. */
    method DrainIo(pool: TaskPool, ghost size: nat)
      requires Accounted(Model(pool), queueDepth, size, 0)
      modifies this, pool
      ensures Accounted(Model(pool), queueDepth, size, 0) && isDraining && currentQueueDepth == 0
      ensures exited == old(exited)
    {
      isDraining := true;
      while currentQueueDepth > 0
        invariant Accounted(Model(pool), queueDepth, size, 0) && isDraining && exited == old(exited)
        decreases currentQueueDepth
      {
        CompleteOne(pool, size);
      }
    }

    /**
     `work_fn` on one context. Only a pool smaller than the queue depth can end the
     process; otherwise at the end the pool is whole, and each completed append passed,
     failed, is still queued, or had its read refused.
     */
    method WorkFn(pool: TaskPool, polls: nat)
      requires Accounted(Model(pool), queueDepth, pool.free, queueDepth) && !exited && currentQueueDepth == 0
      modifies this, pool
      ensures exited ==> old(pool.free) < queueDepth
      ensures !exited ==> pool.free == old(pool.free) && currentQueueDepth == 0
      ensures !exited ==> writeCompleted == verificationPassed + verificationFailed + |pendingReads| + dropped
      ensures |pendingReads| <= queueDepth
    {
      ghost var size := pool.free;
      SubmitIo(pool, size);
      if exited {
        return;
      }
      for i := 0 to polls
        invariant Accounted(Model(pool), queueDepth, size, 0) && !exited
      {
        if currentQueueDepth > 0 {
          CompleteOne(pool, size);
        }
      }
      DrainIo(pool, size);
    }
  }
}
