/** Any number of contexts, on any number of cores, sharing one task pool. */
module IoRuns {
  import opened Arithmetic
  import opened Options
  import opened Latency
  import opened IoEngine

  /** A context, its namespace, and the submissions its worker is committed to make. */
  datatype Worker = Worker(ctx: Ctx, entry: NsEntry, owed: nat)

  datatype Engine = Engine(free: nat, now: int, workers: seq<Worker>, exited: bool)

  /** Taking and giving back a task are separate steps: another core may come in between. */
  datatype Step =
    | Take(i: nat, random: Option<nat>, t: int, ok: bool)   // submit_single_io
    | Finish(i: nat, id: nat, t: int)                       // task_complete up to its replacement
    | Drain(i: nat)                                         // drain_io sets is_draining

  ghost predicate Enabled(s: Engine, step: Step) {
    && !s.exited && step.i < |s.workers|
    && var w := s.workers[step.i];
    match step
    case Take(_, _, t, _) => w.owed > 0 && w.entry.sizeInIos > 0 && s.now <= t
    case Finish(_, id, t) => w.owed == 0 && id in w.ctx.inFlight && w.ctx.depth > 0 && s.now <= t
    case Drain(_) => w.owed == 0
  }

  ghost function Do(s: Engine, step: Step): Engine
    requires Enabled(s, step)
  {
    var w := s.workers[step.i];
    match step
    case Take(i, random, t, ok) =>
      if s.free == 0 then s.(exited := true)
      else
        s.(free := s.free - 1, now := t,
           workers := s.workers[i := w.(ctx := Submit(w.ctx, w.entry, random, t, ok), owed := w.owed - 1)])
    case Finish(i, id, t) =>
      s.(free := s.free + 1, now := t,
         workers := s.workers[i := w.(ctx := Complete(w.ctx, id, t), owed := if w.ctx.draining then 0 else 1)])
    case Drain(i) =>
      s.(workers := s.workers[i := w.(ctx := w.ctx.(draining := true))])
  }

  ghost predicate Init(s: Engine, queueDepth: nat) {
    && !s.exited && s.now == 0
    && forall i | 0 <= i < |s.workers| ::
         Unused(s.workers[i].ctx) && Registered(s.workers[i].entry) && s.workers[i].owed == queueDepth
  }

  ghost predicate IsTrace(states: seq<Engine>, steps: seq<Step>) {
    && |states| == |steps| + 1
    && forall i | 0 <= i < |steps| :: Enabled(states[i], steps[i]) && states[i + 1] == Do(states[i], steps[i])
  }

  ghost predicate IsRun(states: seq<Engine>, steps: seq<Step>, queueDepth: nat) {
    IsTrace(states, steps) && Init(states[0], queueDepth)
  }

  // ---- Tasks

  ghost function InUse(ws: seq<Worker>): nat {
    if ws == [] then 0 else Used(ws[0].ctx) + InUse(ws[1..])
  }

  ghost function Owed(ws: seq<Worker>): nat {
    if ws == [] then 0 else ws[0].owed + Owed(ws[1..])
  }

  lemma {:induction false} Replaced(ws: seq<Worker>, i: nat, w: Worker)
    requires i < |ws|
    ensures InUse(ws[i := w]) == InUse(ws) - Used(ws[i].ctx) + Used(w.ctx)
    ensures Owed(ws[i := w]) == Owed(ws) - ws[i].owed + w.owed
  {
    if i == 0 {
      assert ws[0 := w][1..] == ws[1..];
    } else {
      Replaced(ws[1..], i - 1, w);
      assert ws[i := w][1..] == ws[1..][i - 1 := w];
    }
  }

  ghost predicate Bounded(ws: seq<Worker>, queueDepth: nat) {
    forall i | 0 <= i < |ws| :: Used(ws[i].ctx) + ws[i].owed <= queueDepth
  }

  lemma {:induction false} TotalBound(ws: seq<Worker>, queueDepth: nat)
    requires Bounded(ws, queueDepth)
    ensures InUse(ws) + Owed(ws) <= |ws| * queueDepth
  {
    if ws != [] {
      TotalBound(ws[1..], queueDepth);
      assert |ws| * queueDepth == (|ws| - 1) * queueDepth + queueDepth;
    }
  }

  lemma {:induction false} OwedAt(ws: seq<Worker>, i: nat)
    requires i < |ws|
    ensures ws[i].owed <= Owed(ws)
  {
    if i > 0 {
      OwedAt(ws[1..], i - 1);
    }
  }

  // ---- The invariant

  ghost predicate Inv(s: Engine, queueDepth: nat, pool: nat) {
    && (forall i | 0 <= i < |s.workers| :: CtxInv(s.workers[i].ctx, s.workers[i].entry, s.now))
    && Bounded(s.workers, queueDepth)
    && s.free + InUse(s.workers) == pool
  }

  lemma Later(c: Ctx, e: NsEntry, was: int, now: int)
    requires CtxInv(c, e, was) && was <= now
    ensures CtxInv(c, e, now)
  {
  }

  lemma {:induction false} NoneInUse(ws: seq<Worker>)
    requires forall i | 0 <= i < |ws| :: Unused(ws[i].ctx)
    ensures InUse(ws) == 0
  {
    if ws != [] {
      assert Unused(ws[0].ctx);
      NoneInUse(ws[1..]);
    }
  }

  lemma InitKeeps(s: Engine, queueDepth: nat)
    requires Init(s, queueDepth)
    ensures Inv(s, queueDepth, s.free)
  {
    NoneInUse(s.workers);
    forall i | 0 <= i < |s.workers|
      ensures CtxInv(s.workers[i].ctx, s.workers[i].entry, s.now) && Used(s.workers[i].ctx) == 0
    {
      AllRegisteredUsable(s.workers[i].entry);
      UnusedKeeps(s.workers[i].ctx, s.workers[i].entry);
    }
  }

  /** One worker changes; the clock moves on for all. */
  lemma WorkerKeeps(s: Engine, i: nat, w: Worker, free: nat, now: int, queueDepth: nat, pool: nat)
    requires Inv(s, queueDepth, pool) && i < |s.workers| && s.now <= now
    requires CtxInv(w.ctx, w.entry, now) && Used(w.ctx) + w.owed <= queueDepth
    requires free + Used(w.ctx) == s.free + Used(s.workers[i].ctx)
    ensures Inv(s.(free := free, now := now, workers := s.workers[i := w]), queueDepth, pool)
  {
    Replaced(s.workers, i, w);
    forall j | 0 <= j < |s.workers| ensures CtxInv(s.workers[j].ctx, s.workers[j].entry, now) {
      Later(s.workers[j].ctx, s.workers[j].entry, s.now, now);
    }
  }

  lemma StepKeeps(s: Engine, step: Step, queueDepth: nat, pool: nat)
    requires Inv(s, queueDepth, pool) && Enabled(s, step)
    ensures Inv(Do(s, step), queueDepth, pool)
  {
    var w := s.workers[step.i];
    match step
    case Take(i, random, t, ok) =>
      if s.free > 0 {
        SubmitBooks(w.ctx, w.entry, random, t, ok);
        SubmitKeeps(w.ctx, w.entry, random, s.now, t, ok);
        var w' := w.(ctx := Submit(w.ctx, w.entry, random, t, ok), owed := w.owed - 1);
        WorkerKeeps(s, i, w', s.free - 1, t, queueDepth, pool);
      }
    case Finish(i, id, t) =>
      CompleteBooks(w.ctx, id, t);
      CompleteKeeps(w.ctx, w.entry, id, s.now, t);
      var w' := w.(ctx := Complete(w.ctx, id, t), owed := if w.ctx.draining then 0 else 1);
      WorkerKeeps(s, i, w', s.free + 1, t, queueDepth, pool);
    case Drain(i) =>
      var w' := w.(ctx := w.ctx.(draining := true));
      WorkerKeeps(s, i, w', s.free, s.now, queueDepth, pool);
  }

  lemma {:induction false} RunKeeps(states: seq<Engine>, steps: seq<Step>, queueDepth: nat, i: nat)
    requires IsRun(states, steps, queueDepth) && i < |states|
    ensures Inv(states[i], queueDepth, states[0].free) && |states[i].workers| == |states[0].workers|
  {
    if i == 0 {
      InitKeeps(states[0], queueDepth);
    } else {
      RunKeeps(states, steps, queueDepth, i - 1);
      StepKeeps(states[i - 1], steps[i - 1], queueDepth, states[0].free);
    }
  }

  // ---- What every run keeps

  /**
   At all times the free tasks, those in flight and those lost to refused submissions
   make up the pool; the queue-depth counter is the number of commands in flight and
   never exceeds the queue depth; every read lies inside its namespace.
   */
  lemma PoolConservation(states: seq<Engine>, steps: seq<Step>, queueDepth: nat, k: nat)
    requires IsRun(states, steps, queueDepth) && k < |states|
    ensures states[k].free + InUse(states[k].workers) == states[0].free
    ensures forall i | 0 <= i < |states[k].workers| ::
              var w := states[k].workers[i];
              && w.ctx.depth == |w.ctx.inFlight| && w.ctx.depth + |w.ctx.failed| + w.owed <= queueDepth
              && InRange(w.ctx, w.entry)
  {
    RunKeeps(states, steps, queueDepth, k);
  }

  /** With a pool of a queue depth per context, taking a task never fails. */
  lemma {:induction false} PoolSuffices(states: seq<Engine>, steps: seq<Step>, queueDepth: nat, k: nat)
    requires IsRun(states, steps, queueDepth) && k < |states|
    requires |states[0].workers| * queueDepth <= states[0].free
    ensures !states[k].exited
  {
    if k > 0 {
      PoolSuffices(states, steps, queueDepth, k - 1);
      RunKeeps(states, steps, queueDepth, k - 1);
      var s := states[k - 1];
      TotalBound(s.workers, queueDepth);
      OwedAt(s.workers, steps[k - 1].i);
    }
  }

  /** Some run from `s` ends the process. */
  ghost predicate MayExit(s: Engine, queueDepth: nat) {
    exists states: seq<Engine>, steps: seq<Step> ::
      IsRun(states, steps, queueDepth) && states[0] == s && states[|steps|].exited
  }

  /** ... and with any smaller pool some run ends the process. */
  lemma PoolTooSmall(s: Engine, queueDepth: nat)
    requires Init(s, queueDepth) && |s.workers| * queueDepth > s.free
    ensures MayExit(s, queueDepth)
  {
    InitKeeps(s, queueDepth);
    OwedInFull(s.workers, queueDepth);
    var states, steps := Exhaust(s, queueDepth, s.free);
    assert IsRun(states, steps, queueDepth);
  }

  /** The `int` that a non-negative command-line option becomes. */
  function AsInt(option: nat): (r: int)
    ensures -0x8000_0000 <= r < 0x8000_0000 && (option - r) % 0x1_0000_0000 == 0
  {
    var low := option % 0x1_0000_0000;
    if low < 0x8000_0000 then low else low - 0x1_0000_0000
  }

  /** How `main` sizes the pool: in 32-bit arithmetic, from the counts before any context exists. */
  function TaskCount(namespaces: nat, workers: nat, depth: int): (r: nat)
    ensures r < 0x1_0000_0000
    ensures ((if namespaces > workers then namespaces else workers) * depth - r) % 0x1_0000_0000 == 0
    ensures 0 <= namespaces * depth < 0x1_0000_0000 && 0 <= workers * depth < 0x1_0000_0000 ==>
              r >= namespaces * depth && r >= workers * depth && (r == namespaces * depth || r == workers * depth)
  {
    var most := if namespaces > workers then namespaces else workers;
    Larger(namespaces, workers, depth);
    most * depth % 0x1_0000_0000
  }

  lemma Larger(a: nat, b: nat, depth: int)
    ensures var most := if a > b then a else b;
            depth >= 0 ==> most * depth >= a * depth && most * depth >= b * depth
    ensures depth < 0 && a * depth >= 0 && b * depth >= 0 ==> a == b == 0
  {
    if depth >= 0 {
      ScaleUp(depth, a, if a > b then a else b);
      ScaleUp(depth, b, if a > b then a else b);
    } else {
      assert a > 0 ==> a * depth < 0;
      assert b > 0 ==> b * depth < 0;
    }
  }

  lemma ExitsExactly(s: Engine, queueDepth: nat)
    requires Init(s, queueDepth)
    ensures MayExit(s, queueDepth) <==> |s.workers| * queueDepth > s.free
  {
    if |s.workers| * queueDepth > s.free {
      PoolTooSmall(s, queueDepth);
    } else {
      forall states: seq<Engine>, steps: seq<Step> | IsRun(states, steps, queueDepth) && states[0] == s
        ensures !states[|steps|].exited
      {
        PoolSuffices(states, steps, queueDepth, |steps|);
      }
    }
  }

  /**
   `associate_workers_with_ns` makes one context if there is a namespace, and never more
   than the larger of the two counts. Whatever depth was asked for, such a system never
   wants for tasks if the product fits 32 bits; if it does not, exactly when what is left
   of it is still enough.
   */
  lemma MainPoolExactly(s: Engine, option: nat, namespaces: nat, workers: nat)
    requires Init(s, Submissions(AsInt(option))) && (|s.workers| <= namespaces || |s.workers| <= workers)
    requires s.free == TaskCount(namespaces, workers, AsInt(option))
    ensures var n := Submissions(AsInt(option));
            && (MayExit(s, n) <==> |s.workers| * n > TaskCount(namespaces, workers, AsInt(option)))
            && (namespaces * n < 0x1_0000_0000 && workers * n < 0x1_0000_0000 ==> !MayExit(s, n))
  {
    var n := Submissions(AsInt(option));
    ExitsExactly(s, n);
    var most := if namespaces > workers then namespaces else workers;
    if n > 0 {
      ScaleUp(n, |s.workers|, most);
      assert |s.workers| * n == n * |s.workers|;
      assert most * n == n * most;
    }
  }

  /** On three cores a depth of 0x5555_5556 leaves a pool of two tasks, and a run that ends for want of a third. */
  lemma OverflowStarves(s: Engine)
    requires Init(s, Submissions(AsInt(0x5555_5556))) && |s.workers| == 1
    requires s.free == TaskCount(1, 3, AsInt(0x5555_5556))
    ensures s.free == 2 && MayExit(s, Submissions(AsInt(0x5555_5556)))
  {
    ExitsExactly(s, 0x5555_5556);
  }

  lemma {:induction false} OwedInFull(ws: seq<Worker>, queueDepth: nat)
    requires forall i | 0 <= i < |ws| :: ws[i].owed == queueDepth
    ensures Owed(ws) == |ws| * queueDepth
  {
    if ws != [] {
      OwedInFull(ws[1..], queueDepth);
      assert |ws| * queueDepth == (|ws| - 1) * queueDepth + queueDepth;
    }
  }

  lemma {:induction false} SomeoneOwes(ws: seq<Worker>) returns (i: nat)
    requires Owed(ws) > 0
    ensures i < |ws| && ws[i].owed > 0
  {
    if ws[0].owed > 0 {
      i := 0;
    } else {
      var j := SomeoneOwes(ws[1..]);
      i := j + 1;
    }
  }

  lemma Prepend(s: Engine, step: Step, states: seq<Engine>, steps: seq<Step>)
    requires IsTrace(states, steps) && Enabled(s, step) && states[0] == Do(s, step)
    ensures IsTrace([s] + states, [step] + steps) && ([s] + states)[|[step] + steps|] == states[|steps|]
  {
  }

  /** One more submission. */
  lemma TakeOne(s: Engine, queueDepth: nat, pool: nat) returns (step: Step)
    requires Inv(s, queueDepth, pool) && !s.exited && Owed(s.workers) > s.free
    ensures Enabled(s, step) && Inv(Do(s, step), queueDepth, pool)
    ensures if s.free == 0 then Do(s, step).exited
            else !Do(s, step).exited && Do(s, step).free == s.free - 1 && Owed(Do(s, step).workers) > s.free - 1
  {
    var i := SomeoneOwes(s.workers);
    assert CtxInv(s.workers[i].ctx, s.workers[i].entry, s.now);
    step := Take(i, None, s.now, true);
    StepKeeps(s, step, queueDepth, pool);
    if s.free > 0 {
      Replaced(s.workers, i, Do(s, step).workers[i]);
    }
  }

  /** Submissions alone, until the pool is empty and one more is owed. */
  lemma {:induction false} Exhaust(s: Engine, queueDepth: nat, pool: nat)
      returns (states: seq<Engine>, steps: seq<Step>)
    requires Inv(s, queueDepth, pool) && !s.exited && Owed(s.workers) > s.free
    ensures IsTrace(states, steps) && states[0] == s && states[|steps|].exited
    decreases s.free
  {
    var step := TakeOne(s, queueDepth, pool);
    if s.free == 0 {
      states, steps := [s, Do(s, step)], [step];
    } else {
      var states1, steps1 := Exhaust(Do(s, step), queueDepth, pool);
      Prepend(s, step, states1, steps1);
      states, steps := [s] + states1, [step] + steps1;
    }
  }

  // ---- When everything has been drained

  ghost predicate Drained(s: Engine) {
    forall i | 0 <= i < |s.workers| :: s.workers[i].ctx.inFlight == {}
  }

  lemma {:induction false} LeftInUse(ws: seq<Worker>)
    requires forall i | 0 <= i < |ws| :: ws[i].ctx.depth == 0
    ensures InUse(ws) == 0 <==> forall i | 0 <= i < |ws| :: ws[i].ctx.failed == {}
  {
    if ws != [] {
      LeftInUse(ws[1..]);
      assert forall i | 1 <= i < |ws| :: ws[i] == ws[1..][i - 1];
      assert forall i | 0 <= i < |ws| - 1 :: ws[1..][i] == ws[i + 1];
    }
  }

  /**
   Once every context is drained, the pool is whole (the clean-up has nothing to
   complain about) exactly when no submission was ever refused; and a context without
   refused submissions reports no negative latency and the true sum, and a sum of
   squares that is at most the true one.
   */
  lemma DrainedRun(states: seq<Engine>, steps: seq<Step>, queueDepth: nat, k: nat)
    requires IsRun(states, steps, queueDepth) && k < |states| && Drained(states[k])
    ensures states[k].free == states[0].free
            <==> forall i | 0 <= i < |states[k].workers| :: states[k].workers[i].ctx.failed == {}
    ensures forall i | 0 <= i < |states[k].workers| && states[k].workers[i].ctx.failed == {} ::
              var c := states[k].workers[i].ctx;
              && |c.stimes| == |c.etimes| && Permutes(c.done, |c.stimes|)
              && (forall j | 0 <= j < |c.stimes| :: Deltas(c.stimes, c.etimes)[j] >= 0)
              && Blind(c.stimes, c.etimes, c.done)
  {
    RunKeeps(states, steps, queueDepth, k);
    var s := states[k];
    LeftInUse(s.workers);
    forall i | 0 <= i < |s.workers| && s.workers[i].ctx.failed == {}
      ensures var c := s.workers[i].ctx;
              && |c.stimes| == |c.etimes| && Permutes(c.done, |c.stimes|)
              && (forall j | 0 <= j < |c.stimes| :: Deltas(c.stimes, c.etimes)[j] >= 0)
              && Blind(c.stimes, c.etimes, c.done)
    {
      DrainedStatistics(s.workers[i].ctx, s.now);
    }
  }

  // ---- Sequential runs

  ghost predicate AllSequential(s: Engine) {
    forall i | 0 <= i < |s.workers| ::
      s.workers[i].entry.sizeInIos > 0 && Sequential(s.workers[i].ctx, s.workers[i].entry)
  }

  lemma SequentialStep(s: Engine, step: Step)
    requires Enabled(s, step) && AllSequential(s) && (step.Take? ==> step.random.None?)
    ensures AllSequential(Do(s, step))
  {
    var w := s.workers[step.i];
    match step
    case Take(i, random, t, ok) =>
      SequentialSubmit(w.ctx, w.entry, t, ok);
    case Finish(i, id, t) =>
      SequentialComplete(w.ctx, w.entry, id, t);
    case Drain(i) =>
  }

  lemma {:induction false} SequentialRun(states: seq<Engine>, steps: seq<Step>, queueDepth: nat, k: nat)
    requires IsRun(states, steps, queueDepth) && k < |states|
    requires forall j | 0 <= j < |steps| && steps[j].Take? :: steps[j].random.None?
    ensures AllSequential(states[k])
  {
    if k > 0 {
      SequentialRun(states, steps, queueDepth, k - 1);
      SequentialStep(states[k - 1], steps[k - 1]);
    }
  }

  /** Commands `i` to `i + n - 1`, as far as there are so many, read `lba` at most once. */
  ghost predicate AtMostOnce(lbas: seq<nat>, i: nat, n: nat, lba: nat) {
    forall a, b | i <= a < b < i + n && b < |lbas| && lbas[a] == lba :: lbas[b] != lba
  }

  ghost predicate AtLeastOnce(lbas: seq<nat>, i: nat, n: nat, lba: nat) {
    exists b :: i <= b < i + n && b < |lbas| && lbas[b] == lba
  }

  /**
   Without random offsets, in any round of as many commands as there are slots, no slot is
   read twice, and if the round is complete every slot is read.
   */
  lemma VisitsOncePerWrap(states: seq<Engine>, steps: seq<Step>, queueDepth: nat, k: nat, i: nat, a: nat, slot: nat)
    requires IsRun(states, steps, queueDepth) && k < |states| && i < |states[k].workers|
    requires forall j | 0 <= j < |steps| && steps[j].Take? :: steps[j].random.None?
    requires slot < states[k].workers[i].entry.sizeInIos
    ensures var w, lba := states[k].workers[i], slot * states[k].workers[i].entry.ioSizeBlocks;
            && AtMostOnce(w.ctx.lbas, a, w.entry.sizeInIos, lba)
            && (a + w.entry.sizeInIos <= |w.ctx.lbas| ==> AtLeastOnce(w.ctx.lbas, a, w.entry.sizeInIos, lba))
  {
    SequentialRun(states, steps, queueDepth, k);
    RunKeeps(states, steps, queueDepth, k);
    var w := states[k].workers[i];
    var n := w.entry.sizeInIos;
    forall x, y | a <= x < y < a + n && y < |w.ctx.lbas| ensures w.ctx.lbas[x] != w.ctx.lbas[y] {
      OncePerWrap(w.ctx, w.entry, x, y);
    }
    if a + n <= |w.ctx.lbas| {
      var b := EverySlotRead(w.ctx, w.entry, a, slot);
    }
  }

  // ---- A refused submission

  /** A context that ends with a refused submission: the pool is then short for good. */
  lemma RefusalShortens(s: Engine) returns (states: seq<Engine>, steps: seq<Step>)
    requires Init(s, 1) && |s.workers| == 1 && s.free > 0
    ensures IsRun(states, steps, 1) && states[0] == s
    ensures var s' := states[|steps|];
            && Drained(s') && |s'.workers| == 1 && s'.workers[0].ctx.draining && s'.workers[0].owed == 0
            && s'.workers[0].ctx.failed != {} && s'.free < s.free
  {
    AllRegisteredUsable(s.workers[0].entry);
    var s1 := Do(s, Take(0, None, s.now, false));
    assert 0 in s1.workers[0].ctx.failed;
    states, steps := [s, s1, Do(s1, Drain(0))], [Take(0, None, s.now, false), Drain(0)];
  }
}
