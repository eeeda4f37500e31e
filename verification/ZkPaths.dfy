/** Continuations of a run, built step by step. */
module ZkPaths {
  import opened Trails
  import opened ZkProtocol
  import opened ZkSafety
  import opened ZkRuns

  type Path = Trail<System, Step>

  ghost predicate Leads(tr: Path, polite: bool) {
    match tr
    case Begin(_) => true
    case Then(tr0, step, s) =>
      Leads(tr0, polite) && Enabled(tr0.s, step) && s == Do(tr0.s, step) && (polite ==> Polite(tr0.s, step))
  }

  /** A polite continuation of `s`. */
  ghost predicate Continues(tr: Path, s: System) { Leads(tr, true) && Origin(tr) == s }

  /** A run. */
  ghost predicate Valid(tr: Path, polite: bool) { Leads(tr, polite) && Init(Origin(tr)) }

  lemma Move(tr: Path, step: Step, polite: bool) returns (tr': Path)
    requires Leads(tr, polite) && Enabled(tr.s, step) && (polite ==> Polite(tr.s, step))
    ensures Leads(tr', polite) && Origin(tr') == Origin(tr) && tr' == Then(tr, step, Do(tr.s, step))
  {
    tr' := Then(tr, step, Do(tr.s, step));
  }

  lemma {:induction false} Unpolite(tr: Path)
    requires Leads(tr, true)
    ensures Leads(tr, false)
  {
    if tr.Then? {
      Unpolite(tr.before);
    }
  }

  /** One continuation after another. */
  lemma {:induction false} Join(tr: Path, more: Path, polite: bool) returns (tr': Path)
    requires Leads(tr, polite) && Leads(more, polite) && Origin(more) == tr.s
    ensures Leads(tr', polite) && Origin(tr') == Origin(tr) && tr'.s == more.s
  {
    match more
    case Begin(_) => tr' := tr;
    case Then(before, step, s) =>
      tr' := Join(tr, before, polite);
      tr' := Move(tr', step, polite);
  }

  lemma {:induction false} PathKeeps(tr: Path)
    requires Leads(tr, true) && Inv(Origin(tr))
    ensures Inv(tr.s)
  {
    if tr.Then? {
      PathKeeps(tr.before);
      StepKeeps(tr.before.s, tr.step);
    }
  }

  lemma {:induction false} PathIsRun(tr: Path, polite: bool) returns (states: seq<System>, steps: seq<Step>)
    requires Valid(tr, polite)
    ensures IsRun(states, steps) && states[|steps|] == tr.s
    ensures polite ==> PoliteRun(states, steps)
  {
    match tr
    case Begin(s) => states, steps := [s], [];
    case Then(tr0, step, s) =>
      states, steps := PathIsRun(tr0, polite);
      states, steps := Lengthen(states, steps, step, polite);
  }

  lemma Lengthen(states: seq<System>, steps: seq<Step>, step: Step, polite: bool)
    returns (states': seq<System>, steps': seq<Step>)
    requires IsRun(states, steps) && Enabled(states[|steps|], step)
    requires polite ==> PoliteRun(states, steps) && Polite(states[|steps|], step)
    ensures IsRun(states', steps') && |steps'| == |steps| + 1 && states'[|steps'|] == Do(states[|steps|], step)
    ensures polite ==> PoliteRun(states', steps')
  {
    states', steps' := states + [Do(states[|steps|], step)], steps + [step];
  }
}
