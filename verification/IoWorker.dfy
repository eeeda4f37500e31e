/** The loops and callbacks of arbitration_read.cc over one context and the shared task pool. */
module IoWorker {
  import opened TaskPools
  import opened Options
  import opened Latency
  import opened IoEngine

  /** What a report of a drained context says of the true latencies of its commands. */
  ghost predicate Reported(c: Ctx, undefined: bool, sum: int, sqSum: int) {
    && (undefined <==> c.failed != {})
    && (!undefined ==>
          && |c.stimes| == |c.etimes| && Permutes(c.done, |c.stimes|)
          && (forall i | 0 <= i < |c.stimes| :: c.stimes[i] <= c.etimes[i])
          && var actual := Deltas(Pick(c.stimes, c.done), c.etimes);
          && sum == Sum(actual) && sqSum <= Dot(actual, actual)
          && |c.stimes| * sqSum - sum * sum <= Variance(actual))
  }

  lemma ReportIsRight(c: Ctx, now: int, sum: int, sqSum: int)
    requires Bookkeeping(c) && Timely(c, now) && c.inFlight == {} && c.failed == {} && |c.stimes| <= |c.etimes|
    requires var paired := Deltas(c.stimes, c.etimes); sum == Sum(paired) && sqSum == Dot(paired, paired)
    ensures Reported(c, false, sum, sqSum)
  {
    DrainedStatistics(c, now);
  }

  /** A completed read and its replacement. */
  lemma ReplaceKeeps(c: Ctx, e: NsEntry, id: nat, was: int, t: int, random: Option<nat>, u: int, ok: bool)
    requires CtxInv(c, e, was) && was <= t <= u && id in c.inFlight
    ensures c.depth > 0 && var c' := Submit(Complete(c, id, t), e, random, u, ok);
            CtxInv(c', e, u) && Used(c') == Used(c) && c'.draining == c.draining
  {
    CompleteKeeps(c, e, id, was, t);
    CompleteBooks(c, id, t);
    SubmitKeeps(Complete(c, id, t), e, random, t, u, ok);
    SubmitBooks(Complete(c, id, t), e, random, u, ok);
  }

  class NsWorkerCtx {
    const entry: NsEntry
    var ioCompleted: nat
    var currentQueueDepth: nat
    var offsetInIos: nat
    var isDraining: bool
    var stimes: seq<int>
    var etimes: seq<int>
    var inFlight: set<nat>     // the queue pair: commands the device holds
    ghost var done: seq<nat>
    ghost var failed: set<nat>
    ghost var lbas: seq<nat>

    ghost function Model(): Ctx reads this {
      Ctx(ioCompleted, currentQueueDepth, offsetInIos, isDraining, stimes, etimes, inFlight, done, failed, lbas)
    }

    /** A context that holds no task and may start. */
    ghost predicate Ready(now: int) reads this {
      CtxInv(Model(), entry, now) && Used(Model()) == 0 && !isDraining
    }

    constructor (entry: NsEntry)
      ensures Unused(Model()) && this.entry == entry
      ensures Usable(entry) ==> Ready(0)
    {
      this.entry := entry;
      ioCompleted, currentQueueDepth, offsetInIos, isDraining := 0, 0, 0, false;
      stimes, etimes, inFlight, done, failed, lbas := [], [], {}, [], {}, [];
      new;
      if Usable(entry) {
        UnusedKeeps(Model(), entry);
      }
    }

    /** `submit_single_io`: an empty pool ends the process. */
    method SubmitSingleIo(pool: TaskPool, random: Option<nat>, now: int, ok: bool) returns (exited: bool)
      requires entry.sizeInIos > 0
      modifies this, pool
      ensures exited <==> old(pool.free) == 0
      ensures exited ==> Model() == old(Model()) && pool.free == 0
      ensures !exited ==> Model() == Submit(old(Model()), entry, random, now, ok) && pool.free == old(pool.free) - 1
      ensures !exited ==> stimes == old(stimes) + [now] && etimes == old(etimes)
      ensures !exited && random.Some? ==>
                && lbas == old(lbas) + [random.value % entry.sizeInIos * entry.ioSizeBlocks]
                && offsetInIos == old(offsetInIos)
      ensures !exited && random.None? ==>
                && lbas == old(lbas) + [old(offsetInIos) * entry.ioSizeBlocks]
                && offsetInIos == if old(offsetInIos) + 1 == entry.sizeInIos then 0 else old(offsetInIos) + 1
      ensures !exited ==> currentQueueDepth == old(currentQueueDepth) + if ok then 1 else 0
    {
      if pool.free == 0 {
        return true;
      }
      pool.free := pool.free - 1;
      var id := |stimes|;
      var slot;
      if random.Some? {
        slot := random.value % entry.sizeInIos;
      } else {
        slot := offsetInIos;
        offsetInIos := offsetInIos + 1;
        if offsetInIos == entry.sizeInIos {
          offsetInIos := 0;
        }
      }
      stimes := stimes + [now];
      lbas := lbas + [slot * entry.ioSizeBlocks];
      if ok {
        currentQueueDepth := currentQueueDepth + 1;
        inFlight := inFlight + {id};
      } else {
        failed := failed + {id};
      }
      return false;
    }

    /** `task_complete`: the task goes back to the pool before the replacement takes one. */
    method TaskComplete(pool: TaskPool, id: nat, now: int, random: Option<nat>, later: int, ok: bool)
        returns (exited: bool)
      requires entry.sizeInIos > 0 && currentQueueDepth > 0
      modifies this, pool
      ensures !exited
      ensures var c := Complete(old(Model()), id, now);
              && Model() == (if isDraining then c else Submit(c, entry, random, later, ok))
              && pool.free == old(pool.free) + (if isDraining then 1 else 0)
      ensures etimes == old(etimes) + [now] && ioCompleted == old(ioCompleted) + 1
      ensures stimes == if isDraining then old(stimes) else old(stimes) + [later]
      ensures isDraining == old(isDraining)
    {
      currentQueueDepth := currentQueueDepth - 1;
      ioCompleted := ioCompleted + 1;
      etimes := etimes + [now];
      inFlight := inFlight - {id};
      done := done + [id];
      pool.free := pool.free + 1;
      exited := false;
      if !isDraining {
        exited := SubmitSingleIo(pool, random, later, ok);
      }
    }

    /** `submit_io`: the device may refuse any of the submissions; an empty pool ends the process. */
    method SubmitIo(pool: TaskPool, depth: int, was: int) returns (exited: bool, now: int)
      requires Ready(was)
      modifies this, pool
      ensures exited <==> old(pool.free) < Submissions(depth)
      ensures CtxInv(Model(), entry, now) && !isDraining
      ensures !exited ==> Used(Model()) == Submissions(depth) && pool.free == old(pool.free) - Submissions(depth)
    {
      exited, now := false, was;
      var left := depth;
      while left > 0 && !exited
        invariant if depth > 0 then 0 <= left <= depth else left == depth
        invariant CtxInv(Model(), entry, now) && !isDraining
        invariant exited ==> old(pool.free) < Submissions(depth)
        invariant !exited ==> Used(Model()) == depth - left && pool.free == old(pool.free) - (depth - left)
        decreases left, !exited
      {
        var random: Option<nat>, ok: bool := *, *;
        var t: int :| now <= t;
        ghost var c := Model();
        SubmitKeeps(c, entry, random, now, t, ok);
        SubmitBooks(c, entry, random, t, ok);
        exited := SubmitSingleIo(pool, random, t, ok);
        if !exited {
          now := t;
          left := left - 1;
        }
      }
    }

    /** `drain_io`: nothing new is submitted, and what the device holds comes back in any order. */
    method DrainIo(pool: TaskPool, was: int) returns (now: int)
      requires CtxInv(Model(), entry, was)
      modifies this, pool
      ensures was <= now && CtxInv(Model(), entry, now) && isDraining && inFlight == {} && currentQueueDepth == 0
      ensures stimes == old(stimes) && failed == old(failed) && lbas == old(lbas)
      ensures pool.free == old(pool.free) + old(currentQueueDepth)
    {
      isDraining := true;
      now := was;
      while currentQueueDepth > 0
        invariant was <= now && CtxInv(Model(), entry, now) && isDraining
        invariant stimes == old(stimes) && failed == old(failed) && lbas == old(lbas)
        invariant pool.free + currentQueueDepth == old(pool.free) + old(currentQueueDepth)
        decreases currentQueueDepth
      {
        var t: int :| now <= t;
        assert inFlight != {};
        var id :| id in inFlight;
        CompleteKeeps(Model(), entry, id, now, t);
        var _ := TaskComplete(pool, id, t, None, t, true);
        now := t;
      }
    }

    /**
     The report at the end of `work_fn`. It reads past the end of `etimes` exactly when a
     submission was refused; otherwise its sum is the true one and its squares are at
     most the true ones.
     */
    method Report(ghost now: int) returns (undefined: bool, sum: int, sqSum: int)
      requires Bookkeeping(Model()) && Timely(Model(), now) && inFlight == {}
      ensures Reported(Model(), undefined, sum, sqSum)
    {
      StatisticsInBounds(Model());
      undefined, sum, sqSum := |stimes| > |etimes|, 0, 0;
      if !undefined {
        sum, sqSum := Statistics(stimes, etimes);
        ReportIsRight(Model(), now, sum, sqSum);
      }
    }

    /** `work_fn` on one context: submit, poll until time is up, drain, report. */
    method WorkFn(pool: TaskPool, depth: int, polls: nat, was: int)
      returns (exited: bool, undefined: bool, sum: int, sqSum: int)
      requires Ready(was)
      modifies this, pool
      ensures exited <==> old(pool.free) < Submissions(depth)
      ensures !exited ==> Reported(Model(), undefined, sum, sqSum)
      ensures !exited ==> pool.free + |failed| == old(pool.free)
      ensures InRange(Model(), entry)
    {
      undefined, sum, sqSum := false, 0, 0;
      var now;
      exited, now := Work(pool, depth, polls, was);
      if !exited {
        undefined, sum, sqSum := Report(now);
      }
    }

    method Work(pool: TaskPool, depth: int, polls: nat, was: int) returns (exited: bool, now: int)
      requires Ready(was)
      modifies this, pool
      ensures exited <==> old(pool.free) < Submissions(depth)
      ensures CtxInv(Model(), entry, now)
      ensures !exited ==> inFlight == {} && pool.free + |failed| == old(pool.free)
    {
      exited, now := SubmitIo(pool, depth, was);
      if !exited {
        now := PollLoop(pool, polls, now);
        now := DrainIo(pool, now);
      }
    }

    /** The polling loop of `work_fn`: completions in any order, each replaced at once. */
    method PollLoop(pool: TaskPool, polls: nat, was: int) returns (now: int)
      requires CtxInv(Model(), entry, was) && !isDraining
      modifies this, pool
      ensures was <= now && CtxInv(Model(), entry, now) && !isDraining
      ensures pool.free == old(pool.free) && Used(Model()) == old(Used(Model()))
    {
      now := was;
      for i := 0 to polls
        invariant was <= now && CtxInv(Model(), entry, now) && !isDraining
        invariant pool.free == old(pool.free) && Used(Model()) == old(Used(Model()))
      {
        if inFlight != {} {
          var random: Option<nat>, ok: bool := *, *;
          var t: int, u: int :| now <= t <= u;
          var id :| id in inFlight;
          ReplaceKeeps(Model(), entry, id, now, t, random, u, ok);
          var _ := TaskComplete(pool, id, t, random, u, ok);
          now := u;
        }
      }
    }
  }
}
