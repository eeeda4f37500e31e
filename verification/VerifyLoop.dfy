/** The loop of verification.cc is closed, and its appends are numbered one after the other. */
module VerifyLoop {
  import opened Decimal
  import opened ReadBack
  import opened VerifyModel
  import opened VerifyRuns

  // ---- No place stays empty

  /** The device refuses a submission: an initial one, or the replacement of a completed command. */
  ghost predicate Refuses(s: State, step: Step) {
    (step.Begin? && !step.ok) || (step.Complete? && !step.ok && !s.ctx.draining)
  }

  ghost function Refusals(states: seq<State>, steps: seq<Step>, k: nat): nat
    requires k <= |steps| && k <= |states|
  {
    if k == 0 then 0
    else Refusals(states, steps, k - 1) + if Refuses(states[k - 1], steps[k - 1]) then 1 else 0
  }

  lemma ReplaceFills(c: Ctx, queueDepth: nat, ok: bool)
    requires c.free > 0 && !c.draining
    ensures Replace(c, queueDepth, ok).depth == c.depth + if ok then 1 else 0
  {
  }

  lemma StepFills(cfg: Config, s: State, step: Step, pool: nat)
    requires Accounted(s.ctx, cfg.queueDepth, pool, s.owed) && cfg.queueDepth <= pool && Enabled(cfg, s, step)
    ensures var s' := Do(cfg, s, step);
            && (s.ctx.draining ==> s'.ctx.draining)
            && (!s'.ctx.draining ==> s'.ctx.depth + s'.owed == s.ctx.depth + s.owed - if Refuses(s, step) then 1 else 0)
  {
    if step.Complete? {
      SettleAccounted(s.ctx, step.id, cfg.queueDepth, pool, s.owed);
      if !s.ctx.draining {
        ReplaceFills(Settle(s.ctx, step.id), cfg.queueDepth, step.ok);
      }
    }
  }

  /**
   Over every run, until it drains: the commands in flight and the initial appends still
   to come are the queue depth less the submissions refused so far.
   */
  lemma {:induction false} LoopIsClosed(cfg: Config, states: seq<State>, steps: seq<Step>, k: nat)
    requires IsRun(cfg, states, steps) && k < |states| && cfg.queueDepth <= states[0].ctx.free
    ensures !states[k].ctx.draining ==>
              states[k].ctx.depth + states[k].owed + Refusals(states, steps, k) == cfg.queueDepth
  {
    if k > 0 {
      var i := k - 1;
      LoopIsClosed(cfg, states, steps, i);
      AccountingHolds(cfg, states, steps, i);
      StepFills(cfg, states[i], steps[i], states[0].ctx.free);
    }
  }

  /** Without refusals the queue is full from the last initial append to the draining. */
  lemma AlwaysFull(cfg: Config, states: seq<State>, steps: seq<Step>, k: nat)
    requires IsRun(cfg, states, steps) && k < |states| && cfg.queueDepth <= states[0].ctx.free
    requires forall i | 0 <= i < k :: !Refuses(states[i], steps[i])
    requires !states[k].ctx.draining && states[k].owed == 0
    ensures states[k].ctx.depth == cfg.queueDepth
  {
    LoopIsClosed(cfg, states, steps, k);
    NoRefusals(states, steps, k);
  }

  lemma {:induction false} NoRefusals(states: seq<State>, steps: seq<Step>, k: nat)
    requires k <= |steps| && k <= |states| && forall i | 0 <= i < k :: !Refuses(states[i], steps[i])
    ensures Refusals(states, steps, k) == 0
  {
    if k > 0 {
      NoRefusals(states, steps, k - 1);
    }
  }

  /** Once draining, nothing more is submitted. */
  lemma {:induction false} DrainingSubmitsNothing(cfg: Config, states: seq<State>, steps: seq<Step>, i: nat, k: nat)
    requires IsRun(cfg, states, steps) && i < k < |states| && (steps[i].Drain? || states[i].ctx.draining)
    requires states[i].owed == 0
    ensures states[k].ctx.draining && states[k].owed == 0 && states[k].ctx.issued == states[i].ctx.issued
    decreases k
  {
    var j := k - 1;
    if i < j {
      DrainingSubmitsNothing(cfg, states, steps, i, j);
    }
    assert states[j + 1] == Do(cfg, states[j], steps[j]);
  }

  // ---- The numbers of the appends

  /** An append is tried: an initial one, or when a verification read has completed. */
  ghost predicate TriesAppend(s: State, step: Step) {
    step.Begin? || (step.Complete? && step.id in s.ctx.reading && !s.ctx.draining)
  }

  ghost function Tried(states: seq<State>, steps: seq<Step>, k: nat): nat
    requires k <= |steps| && k <= |states|
  {
    if k == 0 then 0 else Tried(states, steps, k - 1) + if TriesAppend(states[k - 1], steps[k - 1]) then 1 else 0
  }

  lemma ReplaceNumbers(c: Ctx, queueDepth: nat, ok: bool)
    requires c.free > 0 && c.depth < queueDepth
    ensures Replace(c, queueDepth, ok).count
            == if !c.draining && c.pending == [] then (c.count + 1) % 0x1_0000_0000_0000_0000 else c.count
  {
  }

  lemma StepNumbers(cfg: Config, s: State, step: Step, pool: nat)
    requires Accounted(s.ctx, cfg.queueDepth, pool, s.owed) && cfg.queueDepth <= pool && Enabled(cfg, s, step)
    ensures Do(cfg, s, step).ctx.count
            == if TriesAppend(s, step) then (s.ctx.count + 1) % 0x1_0000_0000_0000_0000 else s.ctx.count
  {
    if step.Complete? {
      SettleAccounted(s.ctx, step.id, cfg.queueDepth, pool, s.owed);
      ReplaceNumbers(Settle(s.ctx, step.id), cfg.queueDepth, step.ok);
    }
  }

  lemma NextNumbers(cfg: Config, states: seq<State>, steps: seq<Step>, i: nat)
    requires IsRun(cfg, states, steps) && i < |steps| && cfg.queueDepth <= states[0].ctx.free
    ensures states[i + 1].ctx.count
            == if TriesAppend(states[i], steps[i]) then (states[i].ctx.count + 1) % 0x1_0000_0000_0000_0000
               else states[i].ctx.count
  {
    AccountingHolds(cfg, states, steps, i);
    StepNumbers(cfg, states[i], steps[i], states[0].ctx.free);
  }

  /** Over every run the next number is the number of appends tried so far, in 64 bits. */
  lemma {:induction false} CountsTries(cfg: Config, states: seq<State>, steps: seq<Step>, k: nat)
    requires IsRun(cfg, states, steps) && k < |states| && cfg.queueDepth <= states[0].ctx.free
    ensures states[k].ctx.count == Tried(states, steps, k) % 0x1_0000_0000_0000_0000
  {
    if k > 0 {
      var i := k - 1;
      CountsTries(cfg, states, steps, i);
      NextNumbers(cfg, states, steps, i);
      WrapNext(Tried(states, steps, i), states[i].ctx.count);
    }
  }

  lemma WrapNext(n: nat, count: nat)
    requires count == n % 0x1_0000_0000_0000_0000
    ensures (count + 1) % 0x1_0000_0000_0000_0000 == (n + 1) % 0x1_0000_0000_0000_0000
  {
  }

  lemma ReplaceAppends(c: Ctx, queueDepth: nat)
    requires c.free > 0 && !c.draining && c.pending == []
    ensures var c' := Replace(c, queueDepth, true);
            && c.issued in c'.appending
            && c'.appending[c.issued].text
               == "zstore1:" + ToString(c.count) + ":pattern:"
                  + ToString(c.count * 0xDEADBEEF % 0x1_0000_0000_0000_0000)
  {
  }

  lemma StepAppends(cfg: Config, s: State, step: Step, pool: nat)
    requires Accounted(s.ctx, cfg.queueDepth, pool, s.owed) && cfg.queueDepth <= pool && Enabled(cfg, s, step)
    requires TriesAppend(s, step) && step.ok
    ensures var n, c' := s.ctx.count, Do(cfg, s, step).ctx;
            && s.ctx.issued in c'.appending
            && c'.appending[s.ctx.issued].text
               == "zstore1:" + ToString(n) + ":pattern:" + ToString(n * 0xDEADBEEF % 0x1_0000_0000_0000_0000)
  {
    if step.Complete? {
      SettleAccounted(s.ctx, step.id, cfg.queueDepth, pool, s.owed);
      ReplaceAppends(Settle(s.ctx, step.id), cfg.queueDepth);
    }
  }

  /** Over every run, the append that step `i` submits carries the number of those tried before it. */
  lemma AppendsAreNumbered(cfg: Config, states: seq<State>, steps: seq<Step>, i: nat)
    requires IsRun(cfg, states, steps) && i < |steps| && cfg.queueDepth <= states[0].ctx.free
    requires TriesAppend(states[i], steps[i]) && steps[i].ok
    ensures var n, c' := Tried(states, steps, i) % 0x1_0000_0000_0000_0000, states[i + 1].ctx;
            && states[i].ctx.issued in c'.appending
            && c'.appending[states[i].ctx.issued].text
               == "zstore1:" + ToString(n) + ":pattern:" + ToString(n * 0xDEADBEEF % 0x1_0000_0000_0000_0000)
  {
    CountsTries(cfg, states, steps, i);
    AccountingHolds(cfg, states, steps, i);
    StepAppends(cfg, states[i], steps[i], states[0].ctx.free);
  }
}
