/** What a context records, against the steps of the run itself; and that its loop is closed. */
module IoLog {
  import opened Options
  import opened Arithmetic
  import opened IoEngine
  import opened IoRuns

  // ---- The steps of worker `w`

  /** A submission of worker `w` that got a task. */
  ghost predicate Takes(s: Engine, step: Step, w: nat) { step.Take? && step.i == w && s.free > 0 }

  ghost predicate Finishes(step: Step, w: nat) { step.Finish? && step.i == w }

  /** When it submitted, in order. */
  ghost function TakeTimes(states: seq<Engine>, steps: seq<Step>, k: nat, w: nat): seq<int>
    requires k <= |steps| && k <= |states|
  {
    if k == 0 then []
    else TakeTimes(states, steps, k - 1, w) + if Takes(states[k - 1], steps[k - 1], w) then [steps[k - 1].t] else []
  }

  /** How many of these chose the next offset in sequence. */
  ghost function InSequence(states: seq<Engine>, steps: seq<Step>, k: nat, w: nat): nat
    requires k <= |steps| && k <= |states|
  {
    if k == 0 then 0
    else
      InSequence(states, steps, k - 1, w)
      + if Takes(states[k - 1], steps[k - 1], w) && steps[k - 1].random.None? then 1 else 0
  }

  /** Where each read: at the random slot, or at the number of sequential ones so far, modulo the namespace. */
  ghost function TakeLbas(states: seq<Engine>, steps: seq<Step>, k: nat, w: nat, e: NsEntry): seq<int>
    requires k <= |steps| && k <= |states| && e.sizeInIos > 0
  {
    if k == 0 then []
    else
      TakeLbas(states, steps, k - 1, w, e)
      + if Takes(states[k - 1], steps[k - 1], w) then [SlotOf(states, steps, k - 1, w, e) * e.ioSizeBlocks] else []
  }

  ghost function SlotOf(states: seq<Engine>, steps: seq<Step>, k: nat, w: nat, e: NsEntry): nat
    requires k < |steps| && k <= |states| && e.sizeInIos > 0 && steps[k].Take?
  {
    (if steps[k].random.Some? then steps[k].random.value else InSequence(states, steps, k, w)) % e.sizeInIos
  }

  /** When its commands completed, and which, in order. */
  ghost function FinishTimes(steps: seq<Step>, k: nat, w: nat): seq<int>
    requires k <= |steps|
  {
    if k == 0 then [] else FinishTimes(steps, k - 1, w) + if Finishes(steps[k - 1], w) then [steps[k - 1].t] else []
  }

  ghost function FinishIds(steps: seq<Step>, k: nat, w: nat): seq<nat>
    requires k <= |steps|
  {
    if k == 0 then [] else FinishIds(steps, k - 1, w) + if Finishes(steps[k - 1], w) then [steps[k - 1].id] else []
  }

  // ---- The record

  ghost predicate Logged(states: seq<Engine>, steps: seq<Step>, k: nat, w: nat) {
    && k <= |steps| && k < |states| && w < |states[k].workers|
    && var c, e := states[k].workers[w].ctx, states[k].workers[w].entry;
    && e.sizeInIos > 0
    && c.stimes == TakeTimes(states, steps, k, w)
    && c.etimes == FinishTimes(steps, k, w) && c.done == FinishIds(steps, k, w)
    && c.lbas == TakeLbas(states, steps, k, w, e)
    && c.offset == InSequence(states, steps, k, w) % e.sizeInIos
  }

  /**
   Over every run, a context's start times are, in order, the times of its submissions
   that got a task, its end times those of its completions, and it reads where each of
   its submissions chose to.
   */
  lemma {:induction false} RecordIsTrue(states: seq<Engine>, steps: seq<Step>, queueDepth: nat, k: nat, w: nat)
    requires IsRun(states, steps, queueDepth) && k < |states| && w < |states[0].workers|
    ensures Logged(states, steps, k, w)
    decreases k
  {
    if k == 0 {
      FirstLogs(states, steps, queueDepth, w);
    } else {
      var i := k - 1;
      RecordIsTrue(states, steps, queueDepth, i, w);
      NextLogs(states, steps, i, w);
    }
  }

  lemma FirstLogs(states: seq<Engine>, steps: seq<Step>, queueDepth: nat, w: nat)
    requires |states| > 0 && Init(states[0], queueDepth) && w < |states[0].workers|
    ensures Logged(states, steps, 0, w)
  {
    AllRegisteredUsable(states[0].workers[w].entry);
    assert Unused(states[0].workers[w].ctx);
  }

  lemma NextLogs(states: seq<Engine>, steps: seq<Step>, i: nat, w: nat)
    requires IsTrace(states, steps) && i < |steps| && Logged(states, steps, i, w)
    ensures Logged(states, steps, i + 1, w)
  {
    if steps[i].i == w {
      OwnStepLogs(states, steps, i, w);
    } else {
      OtherStepLogs(states, steps, i, w);
    }
  }

  lemma OtherStepLogs(states: seq<Engine>, steps: seq<Step>, i: nat, w: nat)
    requires i < |steps| && |states| == |steps| + 1 && Logged(states, steps, i, w)
    requires Enabled(states[i], steps[i]) && states[i + 1] == Do(states[i], steps[i]) && steps[i].i != w
    ensures Logged(states, steps, i + 1, w)
  {
    assert states[i + 1].workers[w] == states[i].workers[w];
  }

  lemma OwnStepLogs(states: seq<Engine>, steps: seq<Step>, i: nat, w: nat)
    requires i < |steps| && |states| == |steps| + 1 && Logged(states, steps, i, w)
    requires Enabled(states[i], steps[i]) && states[i + 1] == Do(states[i], steps[i]) && steps[i].i == w
    ensures Logged(states, steps, i + 1, w)
  {
    var n := states[i].workers[w].entry.sizeInIos;
    Successor(InSequence(states, steps, i, w), n);
  }

  // ---- The loop is closed

  /** Until it drains, each refused submission leaves a context one command short, and nothing else does. */
  ghost predicate ClosedWorker(w: Worker, queueDepth: nat) {
    if w.ctx.draining then w.owed == 0 else Used(w.ctx) + w.owed == queueDepth
  }

  ghost predicate Closed(s: Engine, queueDepth: nat) {
    forall i | 0 <= i < |s.workers| :: ClosedWorker(s.workers[i], queueDepth)
  }

  lemma ClosedStep(s: Engine, step: Step, queueDepth: nat, pool: nat)
    requires Inv(s, queueDepth, pool) && Closed(s, queueDepth) && Enabled(s, step)
    ensures Closed(Do(s, step), queueDepth)
  {
    var s' := Do(s, step);
    assert Bookkeeping(s.workers[step.i].ctx) && ClosedWorker(s.workers[step.i], queueDepth);
    ClosedOwn(s, step, queueDepth);
    assert forall i | 0 <= i < |s'.workers| && i != step.i :: s'.workers[i] == s.workers[i];
  }

  lemma ClosedOwn(s: Engine, step: Step, queueDepth: nat)
    requires Enabled(s, step) && ClosedWorker(s.workers[step.i], queueDepth) && Bookkeeping(s.workers[step.i].ctx)
    ensures |Do(s, step).workers| == |s.workers| && ClosedWorker(Do(s, step).workers[step.i], queueDepth)
  {
    var w := s.workers[step.i];
    match step
    case Take(_, random, t, ok) =>
      if s.free > 0 {
        SubmitBooks(w.ctx, w.entry, random, t, ok);
      }
    case Finish(_, id, t) => CompleteBooks(w.ctx, id, t);
    case Drain(_) =>
  }

  /**
   Over every run: before draining, the commands in flight and those about to be submitted
   are the queue depth less the submissions refused so far; while draining none is.
   */
  lemma {:induction false} LoopIsClosed(states: seq<Engine>, steps: seq<Step>, queueDepth: nat, k: nat)
    requires IsRun(states, steps, queueDepth) && k < |states|
    ensures Closed(states[k], queueDepth)
  {
    if k == 0 {
      NothingUsed(states[0], queueDepth);
    } else {
      LoopIsClosed(states, steps, queueDepth, k - 1);
      RunKeeps(states, steps, queueDepth, k - 1);
      ClosedStep(states[k - 1], steps[k - 1], queueDepth, states[0].free);
    }
  }

  lemma NothingUsed(s: Engine, queueDepth: nat)
    requires Init(s, queueDepth)
    ensures Closed(s, queueDepth)
  {
    forall i | 0 <= i < |s.workers| ensures ClosedWorker(s.workers[i], queueDepth) {
      assert Unused(s.workers[i].ctx);
    }
  }

  /** Once draining, a context submits nothing more. */
  lemma {:induction false} DrainingSubmitsNothing(
    states: seq<Engine>, steps: seq<Step>, queueDepth: nat, j: nat, k: nat, w: nat)
    requires IsRun(states, steps, queueDepth) && j <= k < |states| && w < |states[0].workers|
    requires w < |states[j].workers| && states[j].workers[w].ctx.draining
    ensures w < |states[k].workers| && states[k].workers[w].ctx.draining
    ensures states[k].workers[w].ctx.stimes == states[j].workers[w].ctx.stimes
    decreases k
  {
    if j < k {
      var i := k - 1;
      DrainingSubmitsNothing(states, steps, queueDepth, j, i, w);
      LoopIsClosed(states, steps, queueDepth, i);
      assert ClosedWorker(states[i].workers[w], queueDepth);
      assert states[i + 1] == Do(states[i], steps[i]);
    }
  }
}
