/** Runs of the reactors, built step by step. */
module ReactorPaths {
  import opened Trails
  import opened Reactors

  type History = Trail<Sys, Step>

  ghost predicate IsHistory(h: History) {
    match h
    case Begin(s) => Booted(s)
    case Then(before, step, s) => IsHistory(before) && Enabled(before.s, step) && s == Do(before.s, step)
  }

  /** `h` continues `before` by steps of reactor `r` alone. */
  ghost predicate Continues(before: History, h: History, r: nat) {
    h == before || (h.Then? && h.step.r == r && Continues(before, h.before, r))
  }

  lemma {:induction false} Joined(h0: History, h1: History, h2: History, r: nat)
    requires Continues(h0, h1, r) && Continues(h1, h2, r)
    ensures Continues(h0, h2, r)
  {
    if h2 != h1 {
      Joined(h0, h1, h2.before, r);
    }
  }

  lemma {:induction false} HistoryIsRun(h: History) returns (states: seq<Sys>, steps: seq<Step>)
    requires IsHistory(h)
    ensures IsRun(states, steps) && states[|steps|] == h.s
  {
    match h
    case Begin(s) => states, steps := [s], [];
    case Then(before, step, s) =>
      states, steps := HistoryIsRun(before);
      Extend(states, steps, step);
      states, steps := states + [s], steps + [step];
  }

  lemma Extend(states: seq<Sys>, steps: seq<Step>, step: Step)
    requires IsRun(states, steps) && Enabled(states[|steps|], step)
    ensures IsRun(states + [Do(states[|steps|], step)], steps + [step])
  {
  }

  lemma Move(h: History, step: Step) returns (h': History)
    requires IsHistory(h) && Enabled(h.s, step)
    ensures IsHistory(h') && h' == Then(h, step, Do(h.s, step))
  {
    h' := Then(h, step, Do(h.s, step));
  }
}
